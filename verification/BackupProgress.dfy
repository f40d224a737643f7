/** A backup that hears only an honest leader gets through both rounds. */
module BackupProgress {
  import opened Options
  import opened MultiSig
  import opened Consensus
  import opened RoundTwo
  import LM = LeaderModel
  import LP = LeaderProgress
  import LR = LeaderRuns
  import BM = BackupModel
  import BR = BackupRuns

  /**
    What a backup answers to a challenge passes the leader's check, if the leader has the commit of the same secret.
  */
  lemma AnswerIsValid(lcfg: LM.Config, sub: LM.Subset, id: nat, cfg: BM.Config, b: BM.Backup,
                      infos: seq<ChallengeInfo>, k: nat)
    requires cfg.com == lcfg.com && Lawful(cfg.com.suite) && LM.SubsetSizes(lcfg, sub) && id < lcfg.Size()
    requires cfg.com.keys[id] == cfg.com.suite.mul(cfg.privKey, cfg.com.suite.g)
    requires k < |infos| && BM.ScanChallenges(cfg, b, infos).Responses? && k < |b.secrets|
    requires infos[k].challenge == Some(sub.challenge) && sub.commitMap[id]
    requires sub.commitPointMap[id] == BM.CommitsFor(cfg.com.suite, b.secrets)[k].commit
    ensures var rs := BM.ScanChallenges(cfg, b, infos).responses; k < |rs| && LP.Valid(lcfg, sub, id, rs[k])
  {
    BM.ScanAnswers(cfg, b, infos);
    HonestResponseVerifies(cfg.com.suite, b.secrets[k], sub.challenge, cfg.privKey);
  }

  lemma NoFailureHeard(lcfg: LM.Config, lr: LR.Run, br: BR.Run)
    requires LR.IsRun(lcfg, lr) && LR.WithoutFailure(lcfg, lr) && Hears(lcfg, lr, br)
    ensures BR.WithoutFailure(br)
  {
    forall k | 0 <= k < |br.inputs|
      ensures !br.inputs[k].msg.ConsensusFailure?
    {
      var i :| 0 <= i < |lr.events| && lr.sent[i] == Some(br.inputs[k].msg);
    }
  }

  /** How far each of the three messages a backup cannot do without takes it. */
  predicate Moves(b: BM.Backup, input: BM.Input, b': BM.Backup) {
    && (input.msg.Announce? ==> Rank(b'.state) >= Rank(CommitDone))
    && (input.msg.CollectiveSig? && !input.msg.final && input.ready && Rank(b.state) >= Rank(CommitDone) ==>
          Rank(b'.state) >= Rank(FinalCommitDone))
    && (input.msg.CollectiveSig? && input.msg.final && Rank(b.state) >= Rank(FinalCommitDone) ==>
          Rank(b'.state) >= Rank(Done))
  }

  lemma KeyStep(cfg: BM.Config, s: LR.Script, b: BM.Backup, input: BM.Input)
    requires BM.WellFormed(cfg, input) && OnScript(cfg.com, cfg.numSubsets, s, b)
    requires LR.Follows(cfg.com, cfg.numSubsets, s, input.msg) && input.verdict.Accepts? && !b.state.Error?
    ensures Moves(b, input, BM.Deliver(cfg, b, input).backup)
  {}

  /**
    An accepting backup that hears only this leader is DONE once the announcement, the first signature and the second
    signature have reached it in this order, with the first at a time it is ready; challenges may be lost.
  */
  lemma BackupFinishes(lcfg: LM.Config, lr: LR.Run, bcfg: BM.Config, br: BR.Run, t1: nat, t2: nat, t3: nat, j: nat)
    requires LR.IsRun(lcfg, lr) && LR.WithoutFailure(lcfg, lr) && BR.IsRun(bcfg, br)
    requires SameSession(lcfg, bcfg) && Hears(lcfg, lr, br)
    requires forall k :: 0 <= k < |br.inputs| ==> br.inputs[k].verdict.Accepts?
    requires t1 < t2 < t3 < j < |br.states|
    requires br.inputs[t1].msg.Announce?
    requires br.inputs[t2].msg.CollectiveSig? && !br.inputs[t2].msg.final && br.inputs[t2].ready
    requires br.inputs[t3].msg.CollectiveSig? && br.inputs[t3].msg.final
    ensures br.states[j].state.Done?
  {
    NoFailureHeard(lcfg, lr, br);
    KeyStepAt(lcfg, lr, bcfg, br, t1);
    BR.RunRaises(bcfg, br, t1 + 1, t2);
    KeyStepAt(lcfg, lr, bcfg, br, t2);
    BR.RunRaises(bcfg, br, t2 + 1, t3);
    KeyStepAt(lcfg, lr, bcfg, br, t3);
    BR.RunRaises(bcfg, br, t3 + 1, j);
    HonestBackupNeverFails(lcfg, lr, bcfg, br, j - 1);
  }

  lemma KeyStepAt(lcfg: LM.Config, lr: LR.Run, bcfg: BM.Config, br: BR.Run, t: nat)
    requires LR.IsRun(lcfg, lr) && LR.WithoutFailure(lcfg, lr) && BR.IsRun(bcfg, br)
    requires SameSession(lcfg, bcfg) && Hears(lcfg, lr, br)
    requires forall k :: 0 <= k < |br.inputs| ==> br.inputs[k].verdict.Accepts?
    requires t < |br.inputs|
    ensures Moves(br.states[t], br.inputs[t], br.states[t + 1])
  {
    LR.RunFollowsScript(lcfg, lr, |lr.events|);
    var s := LR.ScriptUpTo(lcfg, lr, |lr.events|);
    RunOnScript(lcfg, lr, bcfg, br, s, t);
    assert BR.StepAt(bcfg, br, t);
    var i :| 0 <= i < |lr.events| && lr.sent[i] == Some(br.inputs[t].msg);
    KeyStep(bcfg, s, br.states[t], br.inputs[t]);
  }
}
