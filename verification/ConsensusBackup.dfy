/** The backup object: methods that update fields and loop, each proved against its function in `BackupModel`. */
module BackupObject {
  import opened Options
  import opened Bitmaps
  import opened MultiSig
  import opened Consensus
  import opened BackupModel

  class ConsensusBackup {
    const cfg: Config
    var state: State
    var message: Bytes
    var secrets: seq<int>
    var responseMap: Bitmap
    var collectiveSig: Signature
    var cs1: Signature
    var b1: Bitmap
    var cs2: Signature
    var b2: Bitmap

    ghost function View(): Backup
      reads this
    {
      Backup(state, message, secrets, responseMap, collectiveSig, cs1, b1, cs2, b2)
    }

    constructor (cfg: Config)
      ensures this.cfg == cfg && View() == Fresh(cfg)
    {
      this.cfg := cfg;
      state, message, secrets := Initial, [], [];
      responseMap, collectiveSig := Blank(|cfg.com.keys|), NO_SIG;
      cs1, b1, cs2, b2 := NO_SIG, [], NO_SIG, [];
    }

    /** Draws one secret per subset and publishes its point with the hash of the point. */
    method GenerateCommitMessage(draws: seq<int>) returns (infos: seq<CommitInfo>)
      modifies this`secrets
      ensures secrets == draws && infos == CommitsFor(cfg.com.suite, draws)
    {
      infos, secrets := [], [];
      for i := 0 to |draws|
        invariant secrets == draws[..i]
        invariant |infos| == i && forall j :: 0 <= j < i ==> infos[j] == CommitsFor(cfg.com.suite, draws)[j]
      {
        var point := cfg.com.suite.mul(draws[i], cfg.com.suite.g);
        infos := infos + [CommitInfo(point, cfg.com.suite.commitHash(point))];
        secrets := secrets + [draws[i]];
      }
    }

    method ProcessMessageAnnounce(input: Input) returns (outcome: Outcome, sent: Option<BackupMsg>)
      requires input.msg.Announce?
      modifies this
      ensures Result(View(), sent, outcome) == ProcessAnnounce(cfg, old(View()), input)
    {
      if !Allowed(state, input.msg) {
        return Refused, None;
      }
      match input.verdict
      case Rejects(error) =>
        if error == [] {
          return Refused, None;
        }
        state := Error;
        return Accepted, Some(CommitFailure(error));
      case Accepts =>
        message := input.msg.message;
        var infos := GenerateCommitMessage(input.draws);
        state := CommitDone;
        return Accepted, Some(Commit(false, infos));
    }

    method ProcessMessageChallenge(input: Input) returns (outcome: Outcome, sent: Option<BackupMsg>)
      requires input.msg.Challenge?
      modifies this`state
      ensures Result(View(), sent, outcome) == ProcessChallenge(cfg, old(View()), input)
    {
      if !Allowed(state, input.msg) {
        return Refused, None;
      }
      var infos := input.msg.challenges;
      var responses: seq<int> := [];
      for i := 0 to |infos|
        invariant View() == old(View())
        invariant ScanChallenges(cfg, View(), infos[..i]) == Responses(responses)
      {
        assert infos[..i + 1][..i] == infos[..i];
        if infos[i].aggregatedCommit.None? || infos[i].challenge.None?
           || infos[i].challenge.value !=
              cfg.com.suite.challenge(infos[i].aggregatedCommit.value, infos[i].aggregatedKey, message) {
          MismatchStays(cfg, View(), infos, i + 1);
          state := Error;
          return Refused, None;
        }
        if i >= |secrets| {
          OutOfRangeStays(cfg, View(), infos, i + 1);
          return Threw, None;
        }
        responses := responses + [Respond(secrets[i], infos[i].challenge.value, cfg.privKey)];
      }
      assert infos[..|infos|] == infos;
      state := if input.msg.final then FinalResponseDone else ResponseDone;
      return Accepted, Some(Response(input.msg.final, responses));
    }

    static lemma {:induction false} MismatchStays(cfg: Config, b: Backup, infos: seq<ChallengeInfo>, k: nat)
      requires k <= |infos| && ScanChallenges(cfg, b, infos[..k]).Mismatch?
      ensures ScanChallenges(cfg, b, infos).Mismatch?
    {
      if k < |infos| {
        var init := infos[..|infos| - 1];
        assert init[..k] == infos[..k];
        MismatchStays(cfg, b, init, k);
      } else {
        assert infos[..k] == infos;
      }
    }

    static lemma {:induction false} OutOfRangeStays(cfg: Config, b: Backup, infos: seq<ChallengeInfo>, k: nat)
      requires k <= |infos| && ScanChallenges(cfg, b, infos[..k]).OutOfRange?
      ensures ScanChallenges(cfg, b, infos).OutOfRange?
    {
      if k < |infos| {
        var init := infos[..|infos| - 1];
        assert init[..k] == infos[..k];
        OutOfRangeStays(cfg, b, init, k);
      } else {
        assert infos[..k] == infos;
      }
    }

    method ProcessMessageCollectiveSig(input: Input) returns (outcome: Outcome, sent: Option<BackupMsg>)
      requires WellFormed(cfg, input) && input.msg.CollectiveSig?
      modifies this
      ensures Result(View(), sent, outcome) == ProcessCollectiveSig(cfg, old(View()), input)
    {
      if !Allowed(state, input.msg) {
        return Refused, None;
      }
      responseMap, collectiveSig := input.msg.bitmap, input.msg.sig;
      var key := AggregateKeys(cfg.com, responseMap);
      if !MultiSigVerify(cfg.com.suite, message, collectiveSig, key) {
        state := Error;
        return Refused, None;
      }
      if !input.msg.final {
        if !input.ready {
          return Refused, None;
        }
        if input.msg.newMessage.Some? {
          if input.verdict.Rejects? {
            state := Error;
            return Refused, None;
          }
          message := input.msg.newMessage.value;
        }
        message := message + cfg.com.suite.serialize(collectiveSig) + BitVectorBytes(responseMap);
        var infos := GenerateCommitMessage(input.draws);
        state := FinalCommitDone;
        cs1, b1 := collectiveSig, responseMap;
        return Accepted, Some(Commit(true, infos));
      } else {
        cs2, b2 := collectiveSig, responseMap;
        state := Done;
        return Accepted, None;
      }
    }

    method ProcessMessageConsensusFailure() returns (outcome: Outcome)
      modifies this`state
      ensures View() == old(View()).(state := Initial) && outcome == Accepted
    {
      state := Initial;
      return Accepted;
    }

    /** The caller's gate and the dispatch on the message type. */
    method ProcessMessage(input: Input) returns (outcome: Outcome, sent: Option<BackupMsg>)
      requires WellFormed(cfg, input)
      modifies this
      ensures Result(View(), sent, outcome) == Deliver(cfg, old(View()), input)
    {
      if !CanProcess(state, input.msg) {
        return Refused, None;
      }
      sent := None;
      match input.msg
      case Announce(_) => outcome, sent := ProcessMessageAnnounce(input);
      case Challenge(_, _) => outcome, sent := ProcessMessageChallenge(input);
      case CollectiveSig(_, _, _, _) => outcome, sent := ProcessMessageCollectiveSig(input);
      case ConsensusFailure => outcome := ProcessMessageConsensusFailure();
    }
  }
}
