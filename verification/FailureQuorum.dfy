/** Commit failures: who has to have reported when a consensus failure is announced. */
module FailureQuorum {
  import opened Options
  import opened Bitmaps
  import opened MultiSig
  import opened Consensus
  import opened LeaderModel
  import opened LeaderRuns
  import BM = BackupModel
  import BR = BackupRuns

  /** The step starts counting reports afresh: an announcement, or the end of round one. */
  predicate Restarts(l: Leader, e: Event, l': Leader) {
    || (e.StartEvent? && l.state.Initial?)
    || (e.ResponseEvent? && l.state.ChallengeDone? && l'.state.CollectiveSigDone?)
  }

  predicate ReportTaken(l: Leader, e: Event, l': Leader) {
    e.FailureEvent? && l'.failureCounter == l.failureCounter + 1
  }

  predicate FirstCommitTaken(l: Leader, e: Event, l': Leader) {
    e.CommitEvent? && !e.final && l'.commitCounter == l.commitCounter + 1
  }

  /** The members whose failure report was taken since the count last restarted. */
  ghost function Reporters(r: Run, n: nat): set<nat>
    requires n <= |r.events| && n < |r.states|
  {
    if n == 0 || Restarts(r.states[n - 1], r.events[n - 1], r.states[n]) then {}
    else
      Reporters(r, n - 1) +
      (if ReportTaken(r.states[n - 1], r.events[n - 1], r.states[n]) then {r.events[n - 1].id} else {})
  }

  /** The leader and the members whose first-round commit was taken before step `n`. */
  ghost function Committers(cfg: Config, r: Run, n: nat): set<nat>
    requires n <= |r.events| && n < |r.states|
  {
    if n == 0 then {cfg.self}
    else Committers(cfg, r, n - 1)
         + (if FirstCommitTaken(r.states[n - 1], r.events[n - 1], r.states[n]) then {r.events[n - 1].id} else {})
  }

  /** A response message either ends round one, which resets the reports, or leaves them alone. */
  ghost predicate ReportsAfterResponses(l: Leader, l': Leader) {
    if l.state.ChallengeDone? && l'.state.CollectiveSigDone? then l'.failureCounter == 0 && l'.failureMap == map[]
    else l'.failureCounter == l.failureCounter && l'.failureMap == l.failureMap
  }

  lemma ConcludeKeepsReports(cfg: Config, l: Leader, k: nat, final: bool)
    requires k < |l.subsets| && cfg.self < cfg.Size() && l.subsets[k].state in {CollectiveSigDone, Done}
    ensures var l' := Conclude(cfg, l, k, final);
      && l'.state == l.subsets[k].state
      && l'.failureCounter == (if final then l.failureCounter else 0)
      && l'.failureMap == (if final then l.failureMap else map[])
  {}

  lemma FinishKeepsReports(cfg: Config, l: Leader, k: nat, final: bool, generated: Bytes)
    requires SubsetsSized(cfg, l.subsets) && k < |l.subsets| && cfg.self < cfg.Size()
    requires l.state == AwaitingState(final) == l.subsets[k].state
    ensures var res := FinishSubset(cfg, l, k, final, generated);
      ReportsAfterResponses(l, res.leader) && res.sent != Some(ConsensusFailure)
  {
    var sub := l.subsets[k];
    ConcludeKeepsReports(cfg, Signed(l, k, final, sub.(collectiveSig := CollectiveSigOf(sub)), generated), k, final);
  }

  lemma {:induction false} ResponsesKeepReports(cfg: Config, l: Leader, final: bool, id: nat, responses: seq<int>,
                                                upto: nat, generated: Bytes)
    requires SubsetsSized(cfg, l.subsets) && upto <= |responses| && upto <= |l.subsets| && cfg.self < cfg.Size()
    requires l.state == AwaitingState(final)
    ensures var res := CountResponses(cfg, l, final, id, responses, upto, generated);
      ReportsAfterResponses(l, res.leader) && res.sent != Some(ConsensusFailure)
    decreases upto
  {
    if upto > 0 {
      var k := upto - 1;
      if !ResponseCounts(cfg, l.subsets[k], final, id, responses[k]) {
        ResponsesKeepReports(cfg, l, final, id, responses, k, generated);
      } else {
        var sub := RecordResponse(l.subsets[k], id, responses[k]);
        var l' := l.(subsets := l.subsets[k := sub]);
        if sub.responseCounter == cfg.com.quorum {
          FinishKeepsReports(cfg, l', k, final, generated);
        } else {
          ResponsesKeepReports(cfg, l', final, id, responses, k, generated);
        }
      }
    }
  }

  /** How one step changes the count and the map of reports. */
  ghost predicate ReportsMove(cfg: Config, l: Leader, e: Event, l': Leader) {
    && (ReportTaken(l, e, l') ==>
          e.id < cfg.Size() && e.id !in l.failureMap && l'.failureMap == l.failureMap[e.id := e.error])
    && (!ReportTaken(l, e, l') ==>
          if Restarts(l, e, l') then l'.failureCounter == 0
          else l'.failureCounter == l.failureCounter && l'.failureMap == l.failureMap)
  }

  /** And when it announces a failure. */
  lemma ReportsAfterStep(cfg: Config, l: Leader, e: Event)
    requires ValidConfig(cfg) && Enabled(cfg, l, e) && Defined(cfg, l, e)
    ensures ReportsMove(cfg, l, e, Step(cfg, l, e).leader)
    ensures FirstCommitTaken(l, e, Step(cfg, l, e).leader) ==> e.id < cfg.Size()
    ensures Step(cfg, l, e).sent == Some(ConsensusFailure) <==>
              ReportTaken(l, e, Step(cfg, l, e).leader) &&
                Step(cfg, l, e).leader.failureCounter == cfg.Size() - cfg.com.quorum + 1
  {
    if e.ResponseEvent? && l.state == AwaitingState(e.final) && e.id < cfg.Size() && e.genuine &&
      0 < |e.responses| <= |l.subsets| {
      ResponsesKeepReports(cfg, l, e.final, e.id, e.responses, |e.responses|, e.generated);
    }
  }

  lemma ReportsMoveAt(cfg: Config, r: Run, t: nat)
    requires IsRun(cfg, r) && t < |r.events|
    ensures ReportsMove(cfg, r.states[t], r.events[t], r.states[t + 1])
    ensures FirstCommitTaken(r.states[t], r.events[t], r.states[t + 1]) ==> r.events[t].id < cfg.Size()
  {
    assert StepAt(cfg, r, t);
    ReportsAfterStep(cfg, r.states[t], r.events[t]);
  }

  ghost predicate InCommittee(cfg: Config, r: Run, n: nat)
    requires n <= |r.events| && n < |r.states|
  {
    Committers(cfg, r, n) <= Below(cfg.Size())
  }

  lemma CommittersGrow(cfg: Config, r: Run, n: nat)
    requires n < |r.events| && n + 1 < |r.states| && InCommittee(cfg, r, n)
    requires FirstCommitTaken(r.states[n], r.events[n], r.states[n + 1]) ==> r.events[n].id < cfg.Size()
    ensures InCommittee(cfg, r, n + 1)
  {}

  lemma {:induction false} CommittersAreMembers(cfg: Config, r: Run, n: nat)
    requires IsRun(cfg, r) && n < |r.states|
    ensures InCommittee(cfg, r, n)
    decreases n
  {
    if n == 0 {
      StartCounted(cfg, r);
    } else {
      CommittersAreMembers(cfg, r, n - 1);
      ReportsMoveAt(cfg, r, n - 1);
      CommittersGrow(cfg, r, n - 1);
    }
  }

  /** The reporters after `n` steps are members with an entry in the map, and there are as many as the counter says. */
  ghost predicate Counted(cfg: Config, r: Run, n: nat)
    requires n <= |r.events| && n < |r.states|
  {
    && Reporters(r, n) <= r.states[n].failureMap.Keys
    && Reporters(r, n) <= Below(cfg.Size())
    && |Reporters(r, n)| == r.states[n].failureCounter
  }

  lemma ReportersGrow(cfg: Config, r: Run, n: nat)
    requires n < |r.events| && n + 1 < |r.states| && Counted(cfg, r, n)
    requires ReportsMove(cfg, r.states[n], r.events[n], r.states[n + 1])
    ensures Counted(cfg, r, n + 1)
  {}

  /** A fresh leader has no reports, and its only commit is its own. */
  lemma StartCounted(cfg: Config, r: Run)
    requires ValidConfig(cfg) && |r.states| > 0 && r.states[0] == Fresh(cfg)
    ensures Counted(cfg, r, 0) && InCommittee(cfg, r, 0)
  {}

  /**
    In every run, restarts included, the failure counter is the number of distinct reporters since it was last reset.
  */
  lemma {:induction false} CounterCountsReporters(cfg: Config, r: Run, n: nat)
    requires IsRun(cfg, r) && n < |r.states|
    ensures Counted(cfg, r, n)
    decreases n
  {
    if n == 0 {
      StartCounted(cfg, r);
    } else {
      CounterCountsReporters(cfg, r, n - 1);
      ReportsMoveAt(cfg, r, n - 1);
      ReportersGrow(cfg, r, n - 1);
    }
  }

  /** A consensus failure is announced exactly by the report that takes the counter to n - q + 1. */
  lemma AnnouncedAtThreshold(cfg: Config, r: Run, t: nat)
    requires IsRun(cfg, r) && t < |r.events|
    ensures r.sent[t] == Some(ConsensusFailure) <==>
              && ReportTaken(r.states[t], r.events[t], r.states[t + 1])
              && r.states[t + 1].failureCounter == cfg.Size() - cfg.com.quorum + 1
  {
    assert StepAt(cfg, r, t);
    ReportsAfterStep(cfg, r.states[t], r.events[t]);
  }

  // ---------- which reports are taken ----------

  /** The states in which a report is refused whoever sends it. */
  predicate Deaf(state: State) {
    match state
    case Initial | AnnounceDone | ChallengeDone | CollectiveSigDone | FinalChallengeDone | Done => false
    case CommitDone | ResponseDone | FinalCommitDone | FinalResponseDone | Error => true
  }

  /** A report is taken exactly when it is a member's first and the leader is not in one of those states. */
  lemma ReportTakenIff(cfg: Config, l: Leader, e: Event)
    requires ValidConfig(cfg) && e.FailureEvent?
    ensures var l' := Step(cfg, l, e).leader;
      ReportTaken(l, e, l') <==> e.id < cfg.Size() && e.id !in l.failureMap && !Deaf(l.state)
    ensures Step(cfg, l, e).ok <==> ReportTaken(l, e, Step(cfg, l, e).leader)
    ensures var l' := Step(cfg, l, e).leader;
      l'.failureMap == if ReportTaken(l, e, l') then l.failureMap[e.id := e.error] else l.failureMap
  {
    assert Deaf(l.state) <==>
      l.state !in {Initial, AnnounceDone, ChallengeDone, CollectiveSigDone, FinalChallengeDone, Done};
  }

  /** A new announcement restarts the count but not the record of who reported: those members are not heard again. */
  lemma EarlierReportersAreRefused(cfg: Config, l: Leader, message: Bytes, hasGenerator: bool, e: Event)
    requires ValidConfig(cfg) && l.state.Initial? && e.FailureEvent? && e.id in l.failureMap
    ensures var l1 := Step(cfg, l, StartEvent(message, hasGenerator)).leader;
      l1.failureCounter == 0 && !ReportTaken(l1, e, Step(cfg, l1, e).leader)
  {
    ReportTakenIff(cfg, Step(cfg, l, StartEvent(message, hasGenerator)).leader, e);
  }

  /** Step `k` does not restart the count. */
  ghost predicate CountsOn(r: Run, k: nat)
    requires k < |r.events| && |r.states| == |r.events| + 1
  {
    !Restarts(r.states[k], r.events[k], r.states[k + 1])
  }

  /** From `i` to `j` no report is forgotten and no failure announced. */
  ghost predicate KeepsCounting(r: Run, i: nat, j: nat)
    requires i <= j < |r.states| == |r.events| + 1 && |r.sent| == |r.events|
  {
    && (forall k: nat {:trigger CountsOn(r, k)} :: i <= k < j ==> CountsOn(r, k))
    && (forall k: nat :: i <= k < j ==> r.sent[k] != Some(ConsensusFailure))
  }

  /** Then the counter goes up by one for each new entry, and stops short of the threshold. */
  ghost predicate CountsEntries(cfg: Config, l: Leader, l': Leader) {
    && l.failureMap.Keys <= l'.failureMap.Keys
    && l'.failureCounter == l.failureCounter + |l'.failureMap.Keys - l.failureMap.Keys|
    && l'.failureCounter <= cfg.Size() - cfg.com.quorum
  }

  lemma OneMoreKey(a: set<nat>, b: set<nat>, x: nat)
    requires a <= b && x !in b
    ensures |b + {x} - a| == |b - a| + 1
  {
    assert b + {x} - a == (b - a) + {x};
  }

  lemma EntryCounts(cfg: Config, l: Leader, mid: Leader, e: Event, l': Leader)
    requires CountsEntries(cfg, l, mid) && ReportsMove(cfg, mid, e, l') && !Restarts(mid, e, l')
    requires l'.failureCounter <= cfg.Size() - cfg.com.quorum
    ensures CountsEntries(cfg, l, l')
  {
    if ReportTaken(mid, e, l') {
      assert l'.failureMap.Keys == mid.failureMap.Keys + {e.id};
      OneMoreKey(l.failureMap.Keys, mid.failureMap.Keys, e.id);
    }
  }

  lemma CountStep(cfg: Config, r: Run, l: Leader, t: nat)
    requires IsRun(cfg, r) && t < |r.events| && CountsOn(r, t) && r.sent[t] != Some(ConsensusFailure)
    requires CountsEntries(cfg, l, r.states[t])
    ensures CountsEntries(cfg, l, r.states[t + 1])
  {
    ReportsMoveAt(cfg, r, t);
    AnnouncedAtThreshold(cfg, r, t);
    EntryCounts(cfg, l, r.states[t], r.events[t], r.states[t + 1]);
  }

  lemma CountsSelf(cfg: Config, l: Leader)
    requires l.failureCounter <= cfg.Size() - cfg.com.quorum
    ensures CountsEntries(cfg, l, l)
  {
    assert l.failureMap.Keys - l.failureMap.Keys == {};
  }

  lemma {:induction false} CountingUp(cfg: Config, r: Run, i: nat, j: nat)
    requires IsRun(cfg, r) && i <= j < |r.states| && KeepsCounting(r, i, j)
    requires r.states[i].failureCounter <= cfg.Size() - cfg.com.quorum
    ensures CountsEntries(cfg, r.states[i], r.states[j])
    decreases j
  {
    if i == j {
      CountsSelf(cfg, r.states[i]);
    } else {
      SubRanges(r, i, j - 1, j);
      CountingUp(cfg, r, i, j - 1);
      assert CountsOn(r, j - 1);
      CountStep(cfg, r, r.states[i], j - 1);
    }
  }

  /** A member reports between `i` and `j`, at a time the leader listens. */
  ghost predicate ReportsIn(r: Run, i: nat, j: nat, id: nat)
    requires i <= j <= |r.events| && |r.states| == |r.events| + 1
  {
    exists t: nat :: i <= t < j && ReportsAt(r, t, id)
  }

  ghost predicate ReportsAt(r: Run, t: nat, id: nat)
    requires t < |r.events| && |r.states| == |r.events| + 1
  {
    r.events[t].FailureEvent? && r.events[t].id == id && !Deaf(r.states[t].state)
  }

  lemma ReportRecorded(cfg: Config, r: Run, t: nat, id: nat)
    requires IsRun(cfg, r) && t < |r.events| && id < cfg.Size() && ReportsAt(r, t, id)
    ensures id in r.states[t + 1].failureMap
  {
    assert StepAt(cfg, r, t);
    ReportTakenIff(cfg, r.states[t], r.events[t]);
  }

  lemma SubRanges(r: Run, i: nat, t: nat, j: nat)
    requires i <= t <= j < |r.states| == |r.events| + 1 && |r.sent| == |r.events| && KeepsCounting(r, i, j)
    ensures KeepsCounting(r, i, t) && KeepsCounting(r, t, j)
  {}

  lemma StaysOnRecord(cfg: Config, r: Run, i: nat, j: nat)
    requires IsRun(cfg, r) && i <= j < |r.states| && KeepsCounting(r, i, j)
    requires r.states[i].failureCounter <= cfg.Size() - cfg.com.quorum
    ensures r.states[i].failureMap.Keys <= r.states[j].failureMap.Keys
    ensures r.states[j].failureCounter <= cfg.Size() - cfg.com.quorum
  {
    CountingUp(cfg, r, i, j);
  }

  lemma ReporterOnRecord(cfg: Config, r: Run, i: nat, t: nat, j: nat, id: nat)
    requires IsRun(cfg, r) && i <= t < j < |r.states| && KeepsCounting(r, i, j)
    requires r.states[i].failureCounter <= cfg.Size() - cfg.com.quorum && id < cfg.Size() && ReportsAt(r, t, id)
    ensures id in r.states[j].failureMap.Keys
  {
    ReportRecorded(cfg, r, t, id);
    SubRanges(r, i, t + 1, j);
    StaysOnRecord(cfg, r, i, t + 1);
    StaysOnRecord(cfg, r, t + 1, j);
  }

  /**
    Enough reports are always answered: if, with those counted already, more than n - q members report of whom none is
    on record, then a consensus failure is announced before the count is restarted.
  */
  lemma ReportsLeadToFailure(cfg: Config, r: Run, i: nat, j: nat, members: set<nat>)
    requires IsRun(cfg, r) && i <= j < |r.states| && r.states[i].failureCounter <= cfg.Size() - cfg.com.quorum
    requires members <= Below(cfg.Size()) && members !! r.states[i].failureMap.Keys
    requires r.states[i].failureCounter + |members| > cfg.Size() - cfg.com.quorum
    requires forall id: nat :: id in members ==> ReportsIn(r, i, j, id)
    requires forall k: nat {:trigger CountsOn(r, k)} :: i <= k < j ==> CountsOn(r, k)
    ensures exists k :: i <= k < j && r.sent[k] == Some(ConsensusFailure)
  {
    if KeepsCounting(r, i, j) {
      CountingUp(cfg, r, i, j);
      var entries := r.states[j].failureMap.Keys - r.states[i].failureMap.Keys;
      forall id | id in members
        ensures id in entries
      {
        assert ReportsIn(r, i, j, id);
        var t: nat :| i <= t < j && ReportsAt(r, t, id);
        ReporterOnRecord(cfg, r, i, t, j, id);
      }
      SubsetCard(members, entries);
      assert false;
    }
  }

  /** In particular after the first announcement: n - q + 1 members who report before round one ends. */
  lemma FirstReportsLeadToFailure(cfg: Config, r: Run, i: nat, j: nat, members: set<nat>)
    requires IsRun(cfg, r) && i <= j < |r.states|
    requires r.states[i].failureCounter == 0 && r.states[i].failureMap == map[]
    requires forall k :: i <= k < j ==> r.states[k].state in {AnnounceDone, ChallengeDone}
    requires j > i ==> !r.states[j].state.CollectiveSigDone?
    requires members <= Below(cfg.Size()) && |members| > cfg.Size() - cfg.com.quorum
    requires forall id: nat :: id in members ==>
      exists t: nat :: i <= t < j && r.events[t].FailureEvent? && r.events[t].id == id
    ensures exists k :: i <= k < j && r.sent[k] == Some(ConsensusFailure)
  {
    forall id: nat | id in members
      ensures ReportsIn(r, i, j, id)
    {
      var t: nat :| i <= t < j && r.events[t].FailureEvent? && r.events[t].id == id;
      assert ReportsAt(r, t, id);
    }
    ReportsLeadToFailure(cfg, r, i, j, members);
  }

  // ---------- reports and commits ----------

  lemma Meet(n: nat, a: set<nat>, b: set<nat>)
    requires a <= Below(n) && b <= Below(n) && |a| + |b| > n
    ensures a * b != {}
  {
    SubsetCard(a + b, Below(n));
    assert |a + b| == |a| + |b| - |a * b|;
  }

  /**
    Once the counter has passed n - q, more than n - q distinct members reported; if a quorum has committed as
    well, some member did both.
  */
  lemma QuorumsMeet(cfg: Config, r: Run, n: nat)
    requires IsRun(cfg, r) && n < |r.states| && r.states[n].failureCounter > cfg.Size() - cfg.com.quorum
    ensures |Reporters(r, n)| > cfg.Size() - cfg.com.quorum
    ensures |Committers(cfg, r, n)| >= cfg.com.quorum ==> Committers(cfg, r, n) * Reporters(r, n) != {}
  {
    CounterCountsReporters(cfg, r, n);
    if |Committers(cfg, r, n)| >= cfg.com.quorum {
      CommittersAreMembers(cfg, r, n);
      Meet(cfg.Size(), Committers(cfg, r, n), Reporters(r, n));
    }
  }

  ghost predicate SendsReport(cfg: BM.Config, r: BR.Run, k: nat)
    requires BR.IsRun(cfg, r)
  {
    k < |r.inputs| && r.sent[k].Some? && r.sent[k].value.CommitFailure?
  }

  /** The run of an honest backup in this session, from which the leader's records of member `id` come. */
  ghost predicate HonestBackup(cfg: Config, r: Run, n: nat, id: nat, bcfg: BM.Config, br: BR.Run)
    requires n <= |r.events| && n < |r.states|
  {
    && BR.IsRun(bcfg, br) && BR.WithoutFailure(br)
    && (id in Committers(cfg, r, n) ==> exists k: nat :: BR.SendsCommit(bcfg, br, k))
    && (id in Reporters(r, n) ==> exists k: nat :: SendsReport(bcfg, br, k))
  }

  /** No honest backup is among both. */
  lemma HonestNotBoth(cfg: Config, r: Run, n: nat, id: nat, bcfg: BM.Config, br: BR.Run)
    requires n <= |r.events| && n < |r.states| && HonestBackup(cfg, r, n, id, bcfg, br)
    ensures id !in Committers(cfg, r, n) * Reporters(r, n)
  {
    if id in Committers(cfg, r, n) && id in Reporters(r, n) {
      var k: nat :| BR.SendsCommit(bcfg, br, k);
      var k': nat :| SendsReport(bcfg, br, k');
      BR.CommitOrReport(bcfg, br, k, k');
    }
  }

  /** Members outside `faulty` are honest backups of this session; an honest leader reports nothing to itself. */
  ghost predicate HonestBut(cfg: Config, r: Run, n: nat, faulty: set<nat>, bcfgs: seq<BM.Config>, runs: seq<BR.Run>)
    requires n <= |r.events| && n < |r.states|
  {
    && |bcfgs| == |runs| == cfg.Size() && faulty <= Below(cfg.Size())
    && (cfg.self in Reporters(r, n) ==> cfg.self in faulty)
    && forall id: nat :: id < cfg.Size() && id != cfg.self && id !in faulty ==>
      HonestBackup(cfg, r, n, id, bcfgs[id], runs[id])
  }

  /**
    Committers and reporters overlap in faulty members only, so together they are at most n plus the number of those.
  */
  lemma CommittersAndReporters(cfg: Config, r: Run, n: nat, faulty: set<nat>, bcfgs: seq<BM.Config>, runs: seq<BR.Run>)
    requires IsRun(cfg, r) && n < |r.states| && HonestBut(cfg, r, n, faulty, bcfgs, runs)
    ensures Committers(cfg, r, n) * Reporters(r, n) <= faulty
    ensures |Committers(cfg, r, n)| + |Reporters(r, n)| <= cfg.Size() + |faulty|
  {
    CommittersAreMembers(cfg, r, n);
    CounterCountsReporters(cfg, r, n);
    var c, p := Committers(cfg, r, n), Reporters(r, n);
    forall id | id in c * p
      ensures id in faulty
    {
      if id != cfg.self && id !in faulty {
        HonestNotBoth(cfg, r, n, id, bcfgs[id], runs[id]);
      }
    }
    SubsetCard(c + p, Below(cfg.Size()));
    SubsetCard(c * p, faulty);
    assert |c + p| == |c| + |p| - |c * p|;
  }

  /** So once the counter has passed n - q, fewer than q plus that number have committed; none faulty, no quorum. */
  lemma FailureExcludesQuorum(cfg: Config, r: Run, n: nat, faulty: set<nat>, bcfgs: seq<BM.Config>, runs: seq<BR.Run>)
    requires IsRun(cfg, r) && n < |r.states| && r.states[n].failureCounter > cfg.Size() - cfg.com.quorum
    requires HonestBut(cfg, r, n, faulty, bcfgs, runs)
    ensures |Committers(cfg, r, n)| < cfg.com.quorum + |faulty|
  {
    CommittersAndReporters(cfg, r, n, faulty, bcfgs, runs);
    CounterCountsReporters(cfg, r, n);
  }
}
