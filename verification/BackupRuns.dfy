/** Runs of a backup against an arbitrary leader. */
module BackupRuns {
  import opened Options
  import opened Bitmaps
  import opened MultiSig
  import opened Consensus
  import opened BackupModel

  datatype Run = Run(states: seq<Backup>, inputs: seq<Input>, sent: seq<Option<BackupMsg>>)

  ghost predicate StepAt(cfg: Config, r: Run, i: nat)
    requires i < |r.inputs| == |r.sent| && |r.states| == |r.inputs| + 1
  {
    && WellFormed(cfg, r.inputs[i])
    && var res := Deliver(cfg, r.states[i], r.inputs[i]);
    r.states[i + 1] == res.backup && r.sent[i] == res.sent
  }

  ghost predicate IsRun(cfg: Config, r: Run) {
    && |r.states| == |r.inputs| + 1 && |r.sent| == |r.inputs|
    && r.states[0] == Fresh(cfg)
    && forall i: nat {:trigger StepAt(cfg, r, i)} :: i < |r.inputs| ==> StepAt(cfg, r, i)
  }

  ghost predicate WithoutFailure(r: Run) {
    forall i :: 0 <= i < |r.inputs| ==> !r.inputs[i].msg.ConsensusFailure?
  }

  ghost predicate SendsResponse(cfg: Config, r: Run, i: nat, final: bool)
    requires IsRun(cfg, r)
  {
    i < |r.inputs| && r.sent[i].Some? && r.sent[i].value.Response? && r.sent[i].value.final == final
  }

  ghost predicate SendsCommit(cfg: Config, r: Run, i: nat)
    requires IsRun(cfg, r)
  {
    i < |r.inputs| && r.sent[i].Some? && r.sent[i].value.Commit?
  }

  // ---------- progress ----------

  /** Between consensus failures every state change moves up the state order. */
  lemma StepRaises(cfg: Config, b: Backup, input: Input)
    requires WellFormed(cfg, input) && !input.msg.ConsensusFailure?
    ensures var b' := Deliver(cfg, b, input).backup;
      b'.state == b.state || Rank(b'.state) > Rank(b.state)
  {}

  lemma {:induction false} RunRaises(cfg: Config, r: Run, i: nat, j: nat)
    requires IsRun(cfg, r) && WithoutFailure(r) && i <= j < |r.states|
    ensures Rank(r.states[i].state) <= Rank(r.states[j].state)
    decreases j
  {
    if i < j {
      RunRaises(cfg, r, i, j - 1);
      assert StepAt(cfg, r, j - 1);
      StepRaises(cfg, r.states[j - 1], r.inputs[j - 1]);
    }
  }

  function StateChanges(r: Run, n: nat): nat
    requires n < |r.states|
  {
    if n == 0 then 0 else StateChanges(r, n - 1) + if r.states[n].state != r.states[n - 1].state then 1 else 0
  }

  /** So a run without consensus failure changes state at most ten times, however many messages it gets. */
  lemma {:induction false} BoundedChanges(cfg: Config, r: Run, n: nat)
    requires IsRun(cfg, r) && WithoutFailure(r) && n < |r.states|
    ensures StateChanges(r, n) <= Rank(r.states[n].state) <= 10
    decreases n
  {
    if n > 0 {
      BoundedChanges(cfg, r, n - 1);
      assert StepAt(cfg, r, n - 1);
      StepRaises(cfg, r.states[n - 1], r.inputs[n - 1]);
    }
  }

  /** A backup responds at most once per round, so it signs one message per round. */
  lemma RespondsOnce(cfg: Config, r: Run, i: nat, j: nat, final: bool)
    requires IsRun(cfg, r) && WithoutFailure(r)
    requires SendsResponse(cfg, r, i, final) && SendsResponse(cfg, r, j, final)
    ensures i == j
  {
    assert StepAt(cfg, r, i);
    assert StepAt(cfg, r, j);
    if i < j {
      RunRaises(cfg, r, i + 1, j);
    } else if j < i {
      RunRaises(cfg, r, j + 1, i);
    }
  }

  /** Per announcement a backup answers with a commit or with a failure report, never both. */
  lemma CommitOrReport(cfg: Config, r: Run, i: nat, j: nat)
    requires IsRun(cfg, r) && WithoutFailure(r) && SendsCommit(cfg, r, i) && j < |r.inputs|
    ensures r.sent[j].Some? ==> !r.sent[j].value.CommitFailure?
  {
    assert StepAt(cfg, r, i);
    assert StepAt(cfg, r, j);
    if i < j {
      RunRaises(cfg, r, i + 1, j);
    } else if j < i {
      RunRaises(cfg, r, j + 1, i);
    }
  }

  // ---------- commit secrets ----------

  /** The last step before `i` that drew secrets. */
  ghost function LastCommit(cfg: Config, r: Run, i: nat): Option<nat>
    requires IsRun(cfg, r) && i < |r.states|
  {
    if i == 0 then None
    else if SendsCommit(cfg, r, i - 1) then Some(i - 1)
    else LastCommit(cfg, r, i - 1)
  }

  ghost predicate Responds(cfg: Config, r: Run, i: nat)
    requires IsRun(cfg, r)
  {
    SendsResponse(cfg, r, i, false) || SendsResponse(cfg, r, i, true)
  }

  /** Where a response may be sent, the secrets are those of the last commit and none was used yet. */
  lemma {:induction false} SecretsUnused(cfg: Config, r: Run, i: nat)
    requires IsRun(cfg, r) && i < |r.states|
    ensures r.states[i].state.CommitDone? || r.states[i].state.FinalCommitDone? ==>
      var d := LastCommit(cfg, r, i);
      && d.Some? && d.value < i
      && r.states[i].secrets == r.inputs[d.value].draws
      && forall k :: d.value <= k < i ==> !Responds(cfg, r, k)
    decreases i
  {
    if i > 0 {
      SecretsUnused(cfg, r, i - 1);
      assert StepAt(cfg, r, i - 1);
      assert SendsCommit(cfg, r, i - 1) || r.states[i].state == r.states[i - 1].state
             || (!r.states[i].state.CommitDone? && !r.states[i].state.FinalCommitDone?);
    }
  }

  /** Every scalar drawn in the run is new. */
  ghost predicate FreshDraws(r: Run) {
    forall i, j, i', j' |
      && 0 <= i < |r.inputs| && 0 <= j < |r.inputs[i].draws|
      && 0 <= i' < |r.inputs| && 0 <= j' < |r.inputs[i'].draws|
      && r.inputs[i].draws[j] == r.inputs[i'].draws[j'] :: i == i' && j == j'
  }

  /**
    The k-th response of a message is computed from the k-th secret, and over a whole run, restarts after
    consensus failures included, no secret is behind two responses.
  */
  lemma SecretUsedOnce(cfg: Config, r: Run, i: nat, j: nat, i': nat, j': nat)
    requires IsRun(cfg, r) && FreshDraws(r) && Responds(cfg, r, i) && Responds(cfg, r, i')
    requires j < |r.sent[i].value.responses| && j' < |r.sent[i'].value.responses|
    ensures |r.sent[i].value.responses| <= |r.states[i].secrets| &&
      |r.sent[i'].value.responses| <= |r.states[i'].secrets|
    ensures r.inputs[i].msg.Challenge? && j < |r.inputs[i].msg.challenges| &&
      r.inputs[i].msg.challenges[j].challenge.Some?
    ensures r.sent[i].value.responses[j] ==
              Respond(r.states[i].secrets[j], r.inputs[i].msg.challenges[j].challenge.value, cfg.privKey)
    ensures r.states[i].secrets[j] == r.states[i'].secrets[j'] ==> i == i' && j == j'
  {
    assert StepAt(cfg, r, i);
    assert StepAt(cfg, r, i');
    ScanAnswers(cfg, r.states[i], r.inputs[i].msg.challenges);
    ScanAnswers(cfg, r.states[i'], r.inputs[i'].msg.challenges);
    SecretsUnused(cfg, r, i);
    SecretsUnused(cfg, r, i');
    var d, d' := LastCommit(cfg, r, i).value, LastCommit(cfg, r, i').value;
    assert r.states[i].secrets[j] == r.inputs[d].draws[j];
    assert r.states[i'].secrets[j'] == r.inputs[d'].draws[j'];
  }

  // ---------- soundness of reaching DONE ----------

  ghost predicate Verified(cfg: Config, message: Bytes, sig: Signature, bitmap: Bitmap) {
    |bitmap| <= |cfg.com.keys| &&
      MultiSigVerify(cfg.com.suite, message, sig, SumBits(cfg.com.suite, bitmap, cfg.com.keys))
  }

  ghost predicate Announced(r: Run, a: nat, t: nat) {
    && a < t < |r.states| && t <= |r.inputs|
    && r.states[a].state.Initial? && r.inputs[a].msg.Announce? && r.inputs[a].verdict.Accepts?
    && forall k :: a < k <= t ==> !r.states[k].state.Initial?
  }

  /** Step `c` verified the first signature over what step `a` announced, and built the second message on it. */
  ghost predicate FirstRoundVerified(cfg: Config, r: Run, a: nat, c: nat, b: Backup) {
    && a < c < |r.inputs| && r.inputs[a].msg.Announce?
    && r.inputs[c].msg.CollectiveSig? && !r.inputs[c].msg.final && r.inputs[c].ready
    && (r.inputs[c].msg.newMessage.Some? ==> r.inputs[c].verdict.Accepts?)
    && b.cs1 == r.inputs[c].msg.sig && b.b1 == r.inputs[c].msg.bitmap
    && Verified(cfg, r.inputs[a].msg.message, b.cs1, b.b1)
    && b.message == Extended(cfg.com.suite, SecondBase(r, a, c), b.cs1, b.b1)
  }

  function SecondBase(r: Run, a: nat, c: nat): Bytes
    requires a < |r.inputs| && c < |r.inputs| && r.inputs[a].msg.Announce? && r.inputs[c].msg.CollectiveSig?
  {
    if r.inputs[c].msg.newMessage.Some? then r.inputs[c].msg.newMessage.value else r.inputs[a].msg.message
  }

  /** Every state past INITIAL goes back to an announcement, and past round one to a verified first signature. */
  lemma {:induction false} Origin(cfg: Config, r: Run, t: nat) returns (a: nat, c: nat)
    requires IsRun(cfg, r) && t < |r.states| && r.states[t].state !in {Initial, Error}
    ensures Announced(r, a, t)
    ensures r.states[t].state in {CommitDone, ResponseDone} ==> r.states[t].message == r.inputs[a].msg.message
    ensures r.states[t].state !in {CommitDone, ResponseDone} ==> c < t && FirstRoundVerified(cfg, r, a, c, r.states[t])
    decreases t
  {
    var b, input := r.states[t - 1], r.inputs[t - 1];
    assert StepAt(cfg, r, t - 1);
    if b.state.Initial? {
      a, c := t - 1, 0;
    } else {
      assert !b.state.Error?;
      a, c := Origin(cfg, r, t - 1);
      if b.state in {CommitDone, ResponseDone} && r.states[t].state.FinalCommitDone? {
        c := t - 1;
      }
    }
  }

  /** Step `k` brought `content`, announced or with a first signature, and the validator accepted it. */
  ghost predicate AcceptedAt(r: Run, k: nat, content: Bytes) {
    && k < |r.inputs| && r.inputs[k].verdict.Accepts?
    && (r.inputs[k].msg == Announce(content) ||
        (r.inputs[k].msg.CollectiveSig? && r.inputs[k].msg.newMessage == Some(content)))
  }

  /**
    A backup signs only content its validator accepted: in round one the message itself, in round two what the message
    extends.
  */
  lemma SignsOnlyAccepted(cfg: Config, r: Run, t: nat, final: bool) returns (k: nat, content: Bytes)
    requires IsRun(cfg, r) && SendsResponse(cfg, r, t, final)
    ensures k < t && AcceptedAt(r, k, content)
    ensures !final ==> r.states[t].message == content
    ensures final ==>
      exists sig: Signature, bitmap: Bitmap :: r.states[t].message == Extended(cfg.com.suite, content, sig, bitmap)
  {
    assert StepAt(cfg, r, t);
    var a, c := Origin(cfg, r, t);
    if final && r.inputs[c].msg.newMessage.Some? {
      k, content := c, r.inputs[c].msg.newMessage.value;
    } else {
      k, content := a, r.inputs[a].msg.message;
    }
  }

  /** And it answers only challenges that are the hash of that message with the commit and key they come with. */
  lemma AnswersOnlyHashes(cfg: Config, r: Run, t: nat, final: bool)
    requires IsRun(cfg, r) && SendsResponse(cfg, r, t, final)
    ensures r.inputs[t].msg.Challenge? && r.inputs[t].msg.final == final
    ensures |r.sent[t].value.responses| == |r.inputs[t].msg.challenges|
    ensures forall info :: info in r.inputs[t].msg.challenges ==>
      && info.aggregatedCommit.Some?
      && info.challenge ==
         Some(cfg.com.suite.challenge(info.aggregatedCommit.value, info.aggregatedKey, r.states[t].message))
  {
    assert StepAt(cfg, r, t);
    ScanAnswers(cfg, r.states[t], r.inputs[t].msg.challenges);
  }

  /**
    A commit failure with error `e` is reported, and leaves the backup in ERROR, exactly when an announcement in INITIAL
    was rejected with `e`; a rejection without a text is passed over in silence.
  */
  lemma ReportsRejection(cfg: Config, r: Run, t: nat, e: Bytes)
    requires IsRun(cfg, r) && t < |r.inputs|
    ensures r.sent[t] == Some(CommitFailure(e)) <==>
              && r.states[t].state.Initial? && r.inputs[t].msg.Announce?
              && r.inputs[t].verdict == Rejects(e) && e != []
    ensures r.sent[t] == Some(CommitFailure(e)) ==> r.states[t + 1].state.Error?
    ensures r.inputs[t].msg.Announce? && r.inputs[t].verdict == Rejects([]) ==>
              r.states[t + 1] == r.states[t] && r.sent[t].None?
  {
    assert StepAt(cfg, r, t);
  }

  /** The message is one the backup takes in this state. */
  ghost predicate Taken(b: Backup, msg: LeaderMsg) {
    CanProcess(b.state, msg) && Allowed(b.state, msg)
  }

  /**
    All ways into ERROR: content rejected with a text, a challenge over another message, a signature that does not
    verify, new content rejected with the first signature.
  */
  ghost predicate Wrong(cfg: Config, b: Backup, input: Input) {
    match input.msg
    case Announce(_) => input.verdict.Rejects? && input.verdict.error != []
    case Challenge(_, infos) =>
      !MatchUpTo(cfg, b, infos, if |infos| > |b.secrets| then |b.secrets| + 1 else |infos|)
    case CollectiveSig(final, sig, bitmap, newMessage) =>
      || !Verified(cfg, b.message, sig, bitmap)
      || (!final && input.ready && newMessage.Some? && input.verdict.Rejects?)
    case ConsensusFailure => false
  }

  lemma ErrorIff(cfg: Config, b: Backup, input: Input)
    requires WellFormed(cfg, input) && !b.state.Error?
    ensures Deliver(cfg, b, input).backup.state.Error? <==> Taken(b, input.msg) && Wrong(cfg, b, input)
  {
    if input.msg.Challenge? {
      ScanEnds(cfg, b, input.msg.challenges);
    }
  }

  /** A signature that is taken is kept with its bitmap, whether it verifies or not; nothing else touches the two. */
  lemma SignatureKept(cfg: Config, b: Backup, input: Input)
    requires WellFormed(cfg, input)
    ensures var b' := Deliver(cfg, b, input).backup;
      if input.msg.CollectiveSig? && Taken(b, input.msg)
        then b'.collectiveSig == input.msg.sig && b'.responseMap == input.msg.bitmap
        else b'.collectiveSig == b.collectiveSig && b'.responseMap == b.responseMap
  {}

  /** Which messages a backup takes, state by state. */
  lemma TakenIff(b: Backup, msg: LeaderMsg)
    ensures Taken(b, msg) <==>
      match msg
      case Announce(_) => b.state == Initial
      case Challenge(final, _) => b.state == (if final then FinalCommitDone else CommitDone)
      case CollectiveSig(final, _, _, _) =>
        if final then b.state == FinalCommitDone || b.state == FinalResponseDone
        else b.state == CommitDone || b.state == ResponseDone
      case ConsensusFailure => true
  {}

  /** A message that is not taken leaves the backup as it is and gets no answer. */
  lemma OthersAreIgnored(cfg: Config, b: Backup, input: Input)
    requires WellFormed(cfg, input) && !Taken(b, input.msg)
    ensures Deliver(cfg, b, input) == Result(b, None, Refused)
  {}

  /** After a consensus failure the backup takes the next announcement its validator accepts, with new secrets. */
  lemma FailureRestarts(cfg: Config, r: Run, t: nat)
    requires IsRun(cfg, r) && t + 1 < |r.inputs| && r.inputs[t].msg.ConsensusFailure?
    requires r.inputs[t + 1].msg.Announce? && r.inputs[t + 1].verdict.Accepts?
    ensures r.states[t + 2].state.CommitDone? && r.states[t + 2].message == r.inputs[t + 1].msg.message
    ensures r.states[t + 2].secrets == r.inputs[t + 1].draws && SendsCommit(cfg, r, t + 1)
  {
    assert StepAt(cfg, r, t) && StepAt(cfg, r, t + 1);
  }

  // ---------- commits ----------

  /** A commit of one round: a point for each secret drawn, with the hash of that point. */
  ghost predicate CommitsTo(cfg: Config, msg: BackupMsg, final: bool, draws: seq<int>) {
    && msg.Commit? && msg.final == final && |msg.commits| == |draws| == cfg.numSubsets
    && forall k :: 0 <= k < |draws| ==>
         && msg.commits[k].commit == cfg.com.suite.mul(draws[k], cfg.com.suite.g)
         && msg.commits[k].hash == cfg.com.suite.commitHash(msg.commits[k].commit)
  }

  /**
    Every commit sent is to the secrets drawn in that step; a first one answers an announcement, a final one a
    signature.
  */
  lemma SentCommit(cfg: Config, r: Run, i: nat)
    requires IsRun(cfg, r) && SendsCommit(cfg, r, i)
    ensures CommitsTo(cfg, r.sent[i].value, r.inputs[i].msg.CollectiveSig?, r.inputs[i].draws)
    ensures r.states[i + 1].secrets == r.inputs[i].draws
    ensures r.states[i + 1].state == if r.sent[i].value.final then FinalCommitDone else CommitDone
  {
    assert StepAt(cfg, r, i);
  }

  /** One commit per round. */
  lemma CommitsOnce(cfg: Config, r: Run, i: nat, j: nat)
    requires IsRun(cfg, r) && WithoutFailure(r) && SendsCommit(cfg, r, i) && SendsCommit(cfg, r, j)
    requires r.sent[i].value.final == r.sent[j].value.final
    ensures i == j
  {
    assert StepAt(cfg, r, i);
    assert StepAt(cfg, r, j);
    if i < j {
      RunRaises(cfg, r, i + 1, j);
    } else if j < i {
      RunRaises(cfg, r, j + 1, i);
    }
  }

  /** Where a response may be sent, the last commit was of the same round. */
  lemma {:induction false} CommitOfRound(cfg: Config, r: Run, i: nat)
    requires IsRun(cfg, r) && i < |r.states| && r.states[i].state in {CommitDone, FinalCommitDone}
    ensures LastCommit(cfg, r, i).Some?
    ensures var d := LastCommit(cfg, r, i).value;
      d < i && SendsCommit(cfg, r, d) && r.sent[d].value.final == r.states[i].state.FinalCommitDone?
    decreases i
  {
    assert StepAt(cfg, r, i - 1);
    if !SendsCommit(cfg, r, i - 1) {
      assert r.states[i - 1].state == r.states[i].state;
      CommitOfRound(cfg, r, i - 1);
    }
  }

  /** A response of a round is computed from the secrets of the round's commit. */
  lemma ResponseSecrets(cfg: Config, r: Run, i: nat, final: bool) returns (d: nat)
    requires IsRun(cfg, r) && SendsResponse(cfg, r, i, final)
    ensures d < i && SendsCommit(cfg, r, d) && CommitsTo(cfg, r.sent[d].value, final, r.states[i].secrets)
    ensures r.inputs[i].msg.Challenge? && r.inputs[i].msg.final == final
    ensures ScanChallenges(cfg, r.states[i], r.inputs[i].msg.challenges) == Responses(r.sent[i].value.responses)
    ensures r.states[i + 1] == r.states[i].(state := if final then FinalResponseDone else ResponseDone)
  {
    assert StepAt(cfg, r, i);
    SecretsUnused(cfg, r, i);
    CommitOfRound(cfg, r, i);
    d := LastCommit(cfg, r, i).value;
    SentCommit(cfg, r, d);
  }

  /**
    A backup at DONE has, since it last was INITIAL, verified CS1 on B1 over the announced message and then
    CS2 on B2 over a message that contains this CS1 and B1.
  */
  lemma {:induction false} DoneMeansVerifiedTwice(cfg: Config, r: Run, t: nat) returns (a: nat, c: nat, d: nat)
    requires IsRun(cfg, r) && t < |r.states| && r.states[t].state.Done?
    ensures Announced(r, a, t) && a < c < d < t
    ensures FirstRoundVerified(cfg, r, a, c, r.states[t])
    ensures r.inputs[d].msg.CollectiveSig? && r.inputs[d].msg.final
    ensures r.states[t].cs2 == r.inputs[d].msg.sig && r.states[t].b2 == r.inputs[d].msg.bitmap
    ensures Verified(cfg, r.states[t].message, r.states[t].cs2, r.states[t].b2)
    decreases t
  {
    assert StepAt(cfg, r, t - 1);
    if r.states[t - 1].state.Done? {
      a, c, d := DoneMeansVerifiedTwice(cfg, r, t - 1);
    } else {
      a, c := Origin(cfg, r, t - 1);
      d := t - 1;
    }
  }

  /**
    The gate is what makes this hold: `ProcessMessage` alone goes from a commit straight to DONE, on a signature
    over the announced message. It does so exactly in the states that `CanProcessMessage` shuts out.
  */
  lemma GateShutsOutEarlyDone(cfg: Config, b: Backup, input: Input)
    requires WellFormed(cfg, input) && input.msg.CollectiveSig? && input.msg.final && !b.state.Done?
    requires Verified(cfg, b.message, input.msg.sig, input.msg.bitmap)
    ensures Process(cfg, b, input).backup.state.Done? <==>
              b.state in {CommitDone, ResponseDone, FinalCommitDone, FinalResponseDone}
    ensures Deliver(cfg, b, input).backup.state.Done? <==> b.state in {FinalCommitDone, FinalResponseDone}
  {}
}
