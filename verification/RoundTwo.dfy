/** One honest leader and one honest backup that hears only that leader. */
module RoundTwo {
  import opened Options
  import opened Consensus
  import LM = LeaderModel
  import LR = LeaderRuns
  import BM = BackupModel
  import BR = BackupRuns

  /** Everything delivered to the backup was sent by this leader; delay, loss, reordering and repetition are free. */
  ghost predicate Hears(lcfg: LM.Config, lr: LR.Run, br: BR.Run)
    requires LR.IsRun(lcfg, lr)
  {
    forall k :: 0 <= k < |br.inputs| ==> exists i :: 0 <= i < |lr.events| && lr.sent[i] == Some(br.inputs[k].msg)
  }

  ghost predicate SameSession(lcfg: LM.Config, bcfg: BM.Config) {
    lcfg.com == bcfg.com && lcfg.NumSubsets() == bcfg.numSubsets
  }

  /** Where the script puts a backup in each state. */
  ghost predicate OnScript(com: Committee, numSubsets: nat, s: LR.Script, b: BM.Backup) {
    && (b.state in {CommitDone, FinalCommitDone} ==> |b.secrets| == numSubsets)
    && (b.state in {CommitDone, ResponseDone} ==> s.announced == Some(b.message))
    && (b.state in {FinalCommitDone, FinalResponseDone, Done} ==>
          && s.announced.Some? && s.first.Some?
          && b.cs1 == s.first.value.sig && b.b1 == s.first.value.bitmap
          && b.message == LR.SecondMessage(com, s))
    && b.state !in {AnnounceDone, ChallengeDone, CollectiveSigDone, FinalChallengeDone}
  }

  lemma OnScriptStep(cfg: BM.Config, s: LR.Script, b: BM.Backup, input: BM.Input)
    requires BM.WellFormed(cfg, input) && OnScript(cfg.com, cfg.numSubsets, s, b)
    requires LR.Follows(cfg.com, cfg.numSubsets, s, input.msg)
    ensures var r := BM.Deliver(cfg, b, input);
      && OnScript(cfg.com, cfg.numSubsets, s, r.backup)
      && !r.outcome.Threw?
      && (input.verdict.Accepts? && !b.state.Error? ==> !r.backup.state.Error?)
  {
    if input.msg.Challenge? {
      BM.ScanAnswers(cfg, b, input.msg.challenges);
    }
  }

  lemma {:induction false} RunOnScript(lcfg: LM.Config, lr: LR.Run, bcfg: BM.Config, br: BR.Run, s: LR.Script, t: nat)
    requires LR.IsRun(lcfg, lr) && BR.IsRun(bcfg, br) && SameSession(lcfg, bcfg) && Hears(lcfg, lr, br)
    requires forall i :: 0 <= i < |lr.events| && lr.sent[i].Some? ==>
      LR.Follows(lcfg.com, lcfg.NumSubsets(), s, lr.sent[i].value)
    requires t < |br.states|
    ensures OnScript(bcfg.com, bcfg.numSubsets, s, br.states[t])
    ensures (forall k :: 0 <= k < t ==> br.inputs[k].verdict.Accepts?) ==> !br.states[t].state.Error?
    decreases t
  {
    if t > 0 {
      RunOnScript(lcfg, lr, bcfg, br, s, t - 1);
      var input := br.inputs[t - 1];
      assert BR.StepAt(bcfg, br, t - 1);
      var i :| 0 <= i < |lr.events| && lr.sent[i] == Some(input.msg);
      OnScriptStep(bcfg, s, br.states[t - 1], input);
    }
  }

  /**
    Round-two agreement: a backup at FINALCOMMIT_DONE or later holds the leader's CS1 and B1, and its message to
    co-sign is the one every challenge of round two is over, with or without a new announcement.
  */
  lemma BackupHoldsLeadersRound(lcfg: LM.Config, lr: LR.Run, bcfg: BM.Config, br: BR.Run, t: nat)
    requires LR.IsRun(lcfg, lr) && LR.WithoutFailure(lcfg, lr) && BR.IsRun(bcfg, br)
    requires SameSession(lcfg, bcfg) && Hears(lcfg, lr, br)
    requires t < |br.states| && br.states[t].state in {FinalCommitDone, FinalResponseDone, Done}
    ensures var b, l := br.states[t], lr.states[|lr.events|];
      && b.cs1 == l.cs1 && b.b1 == l.b1
      && forall i :: 0 <= i < |lr.events| && LR.SendsChallenge(lcfg, lr, i, true) ==>
           && b.message == lr.states[i].message
           && forall k :: 0 <= k < |lr.sent[i].value.challenges| ==>
                ChallengeFor(bcfg.com.suite, lr.sent[i].value.challenges[k], b.message)
  {
    var n := |lr.events|;
    LR.RunFollowsScript(lcfg, lr, n);
    RunOnScript(lcfg, lr, bcfg, br, LR.ScriptUpTo(lcfg, lr, n), t);
    forall i | 0 <= i < n && LR.SendsChallenge(lcfg, lr, i, true)
      ensures br.states[t].message == lr.states[i].message
    {
      LR.RunAdvances(lcfg, lr, i);
      LR.RunFollowsScript(lcfg, lr, i);
      LR.ScriptGrows(lcfg, lr, i, n);
    }
  }

  /** An honest backup that accepts the content never ends in ERROR and never reads past its secrets. */
  lemma HonestBackupNeverFails(lcfg: LM.Config, lr: LR.Run, bcfg: BM.Config, br: BR.Run, t: nat)
    requires LR.IsRun(lcfg, lr) && LR.WithoutFailure(lcfg, lr) && BR.IsRun(bcfg, br)
    requires SameSession(lcfg, bcfg) && Hears(lcfg, lr, br)
    requires forall k :: 0 <= k < |br.inputs| ==> br.inputs[k].verdict.Accepts?
    requires t < |br.inputs|
    ensures !br.states[t + 1].state.Error?
    ensures BM.WellFormed(bcfg, br.inputs[t]) && !BM.Deliver(bcfg, br.states[t], br.inputs[t]).outcome.Threw?
  {
    LR.RunFollowsScript(lcfg, lr, |lr.events|);
    var s := LR.ScriptUpTo(lcfg, lr, |lr.events|);
    RunOnScript(lcfg, lr, bcfg, br, s, t);
    RunOnScript(lcfg, lr, bcfg, br, s, t + 1);
    assert BR.StepAt(bcfg, br, t);
    var i :| 0 <= i < |lr.events| && lr.sent[i] == Some(br.inputs[t].msg);
    OnScriptStep(bcfg, s, br.states[t], br.inputs[t]);
  }
}
