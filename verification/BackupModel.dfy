/** `ConsensusBackup` as functions on values: one delivered message is one step. */
module BackupModel {
  import opened Options
  import opened Bitmaps
  import opened MultiSig
  import opened Consensus

  datatype Config = Config(com: Committee, privKey: int, numSubsets: nat)

  datatype Backup = Backup(
    state: State,
    message: Bytes,
    secrets: seq<int>,
    responseMap: Bitmap,
    collectiveSig: Signature,
    cs1: Signature,
    b1: Bitmap,
    cs2: Signature,
    b2: Bitmap)

  /** The content validator's answer; an empty error text is not reported to the leader. */
  datatype Verdict = Accepts | Rejects(error: Bytes)

  /** A message with what the environment decides: the validator, the readiness function, the secrets drawn. */
  datatype Input = Input(msg: LeaderMsg, verdict: Verdict, ready: bool, draws: seq<int>)

  datatype Outcome = Accepted | Refused | Threw

  datatype Result = Result(backup: Backup, sent: Option<BackupMsg>, outcome: Outcome)

  ghost predicate WellFormed(cfg: Config, input: Input) {
    && |input.draws| == cfg.numSubsets
    && (input.msg.CollectiveSig? ==> |input.msg.bitmap| <= |cfg.com.keys|)
  }

  function Fresh(cfg: Config): Backup {
    Backup(Initial, [], [], Blank(|cfg.com.keys|), NO_SIG, NO_SIG, [], NO_SIG, [])
  }

  /** `ConsensusBackup::CheckState`. */
  predicate Allowed(state: State, msg: LeaderMsg) {
    match msg
    case Announce(_) => state.Initial?
    case Challenge(final, _) => if final then state.FinalCommitDone? else state.CommitDone?
    case CollectiveSig(final, _, _, _) =>
      state.CommitDone? || state.ResponseDone? || (final && (state.FinalCommitDone? || state.FinalResponseDone?))
    case ConsensusFailure => true
  }

  /** `GenerateCommitMessage`: one fresh secret per subset, with its point and the hash of the point. */
  function CommitsFor(s: Suite, secrets: seq<int>): seq<CommitInfo> {
    seq(|secrets|, i requires 0 <= i < |secrets| =>
      CommitInfo(s.mul(secrets[i], s.g), s.commitHash(s.mul(secrets[i], s.g))))
  }

  /** `ProcessMessageAnnounce`. */
  function ProcessAnnounce(cfg: Config, b: Backup, input: Input): Result
    requires input.msg.Announce?
  {
    if !Allowed(b.state, input.msg) then Result(b, None, Refused)
    else match input.verdict
      case Rejects(error) =>
        if error == [] then Result(b, None, Refused)
        else Result(b.(state := Error), Some(CommitFailure(error)), Accepted)
      case Accepts =>
        Result(b.(state := CommitDone, message := input.msg.message, secrets := input.draws),
               Some(Commit(false, CommitsFor(cfg.com.suite, input.draws))), Accepted)
  }

  /** What going through the challenges of one message comes to. */
  datatype Scan = Responses(responses: seq<int>) | Mismatch | OutOfRange

  /** The first bad entry decides; an entry past the drawn secrets is an out-of-range access. */
  function ScanChallenges(cfg: Config, b: Backup, infos: seq<ChallengeInfo>): Scan {
    if infos == [] then Responses([])
    else
      var k := |infos| - 1;
      match ScanChallenges(cfg, b, infos[..k])
      case Mismatch => Mismatch
      case OutOfRange => OutOfRange
      case Responses(rs) =>
        if !ChallengeFor(cfg.com.suite, infos[k], b.message) then Mismatch
        else if k >= |b.secrets| then OutOfRange
        else Responses(rs + [Respond(b.secrets[k], infos[k].challenge.value, cfg.privKey)])
  }

  /** `ProcessMessageChallengeCore`. */
  function ProcessChallenge(cfg: Config, b: Backup, input: Input): Result
    requires input.msg.Challenge?
  {
    if !Allowed(b.state, input.msg) then Result(b, None, Refused)
    else match ScanChallenges(cfg, b, input.msg.challenges)
      case Mismatch => Result(b.(state := Error), None, Refused)
      case OutOfRange => Result(b, None, Threw)
      case Responses(rs) =>
        Result(b.(state := if input.msg.final then FinalResponseDone else ResponseDone),
               Some(Response(input.msg.final, rs)), Accepted)
  }

  /** `ProcessMessageCollectiveSigCore`. */
  function ProcessCollectiveSig(cfg: Config, b: Backup, input: Input): Result
    requires WellFormed(cfg, input) && input.msg.CollectiveSig?
  {
    var s := cfg.com.suite;
    var CollectiveSig(final, sig, bitmap, newMessage) := input.msg;
    if !Allowed(b.state, input.msg) then Result(b, None, Refused)
    else
      var b1 := b.(responseMap := bitmap, collectiveSig := sig);
      if !MultiSigVerify(s, b.message, sig, SumBits(s, bitmap, cfg.com.keys)) then
        Result(b1.(state := Error), None, Refused)
      else if final then Result(b1.(cs2 := sig, b2 := bitmap, state := Done), None, Accepted)
      else if !input.ready then Result(b1, None, Refused)
      else if newMessage.Some? && input.verdict.Rejects? then Result(b1.(state := Error), None, Refused)
      else
        var base := if newMessage.Some? then newMessage.value else b.message;
        Result(b1.(message := Extended(s, base, sig, bitmap), secrets := input.draws, state := FinalCommitDone,
                   cs1 := sig, b1 := bitmap),
               Some(Commit(true, CommitsFor(s, input.draws))), Accepted)
  }

  /** `ProcessMessage`. */
  function Process(cfg: Config, b: Backup, input: Input): Result
    requires WellFormed(cfg, input)
  {
    match input.msg
    case Announce(_) => ProcessAnnounce(cfg, b, input)
    case Challenge(_, _) => ProcessChallenge(cfg, b, input)
    case CollectiveSig(_, _, _, _) => ProcessCollectiveSig(cfg, b, input)
    case ConsensusFailure => Result(b.(state := Initial), None, Accepted)
  }

  /** A message is processed only when `CanProcessMessage` lets it through. */
  function Deliver(cfg: Config, b: Backup, input: Input): Result
    requires WellFormed(cfg, input)
  {
    if CanProcess(b.state, input.msg) then Process(cfg, b, input) else Result(b, None, Refused)
  }

  /** The first `n` entries match. */
  ghost predicate MatchUpTo(cfg: Config, b: Backup, infos: seq<ChallengeInfo>, n: nat)
    requires n <= |infos|
  {
    forall i :: 0 <= i < n ==> ChallengeFor(cfg.com.suite, infos[i], b.message)
  }

  /** Which way a scan ends: at the first entry that does not match or has no secret, whichever comes first. */
  lemma {:induction false} ScanEnds(cfg: Config, b: Backup, infos: seq<ChallengeInfo>)
    ensures ScanChallenges(cfg, b, infos).OutOfRange? <==>
              |infos| > |b.secrets| && MatchUpTo(cfg, b, infos, |b.secrets| + 1)
    ensures ScanChallenges(cfg, b, infos).Mismatch? <==>
              !MatchUpTo(cfg, b, infos, if |infos| > |b.secrets| then |b.secrets| + 1 else |infos|)
    decreases |infos|
  {
    if infos != [] {
      var k := |infos| - 1;
      ScanEnds(cfg, b, infos[..k]);
      ScanAnswers(cfg, b, infos[..k]);
      assert forall i :: 0 <= i < k ==> infos[..k][i] == infos[i];
      if k < |b.secrets| {
        assert MatchUpTo(cfg, b, infos, k + 1) <==>
          MatchUpTo(cfg, b, infos[..k], k) && ChallengeFor(cfg.com.suite, infos[k], b.message);
      } else if k > |b.secrets| {
        assert MatchUpTo(cfg, b, infos, |b.secrets| + 1) <==> MatchUpTo(cfg, b, infos[..k], |b.secrets| + 1);
      } else {
        assert MatchUpTo(cfg, b, infos, k + 1) <==>
          MatchUpTo(cfg, b, infos[..k], k) && ChallengeFor(cfg.com.suite, infos[k], b.message);
      }
    }
  }

  lemma {:induction false} ScanAnswers(cfg: Config, b: Backup, infos: seq<ChallengeInfo>)
    ensures ScanChallenges(cfg, b, infos).Responses? <==>
              |infos| <= |b.secrets| && forall i :: 0 <= i < |infos| ==>
                ChallengeFor(cfg.com.suite, infos[i], b.message)
    ensures ScanChallenges(cfg, b, infos).Responses? ==>
              var rs := ScanChallenges(cfg, b, infos).responses;
              |rs| == |infos| && forall i :: 0 <= i < |rs| ==>
                rs[i] == Respond(b.secrets[i], infos[i].challenge.value, cfg.privKey)
    ensures ScanChallenges(cfg, b, infos).Mismatch? ==>
              exists i :: 0 <= i < |infos| && !ChallengeFor(cfg.com.suite, infos[i], b.message)
    decreases |infos|
  {
    if infos != [] {
      var k := |infos| - 1;
      ScanAnswers(cfg, b, infos[..k]);
      assert forall i :: 0 <= i < k ==> infos[..k][i] == infos[i];
    }
  }
}
