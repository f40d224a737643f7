/** A whole session: one honest leader and the honest backups that take part in it. */
module Delivery {
  import opened Options
  import opened Bitmaps
  import opened Lists
  import opened MultiSig
  import opened Consensus
  import opened LeaderModel
  import opened LeaderProofs
  import opened LeaderRuns
  import opened LeaderProgress
  import opened RoundTwo
  import BP = BackupProgress
  import BM = BackupModel
  import BR = BackupRuns

  // ---------- where the leader's commit points come from ----------

  function Points(infos: seq<CommitInfo>): seq<Point> {
    seq(|infos|, i requires 0 <= i < |infos| => infos[i].commit)
  }

  /** Step `e` is a genuine commit of `id` to these points. */
  ghost predicate CommitAt(r: Run, e: nat, final: bool, id: nat, points: seq<Point>) {
    && e < |r.events| && r.events[e].CommitEvent? && r.events[e].final == final
    && r.events[e].id == id && r.events[e].genuine && Points(r.events[e].infos) == points
  }

  /** A step that takes commits records nothing but the genuine commit it brings. */
  lemma RecordsCommit(cfg: Config, l: Leader, e: Event, id: nat)
    requires ValidSession(cfg) && SessionInv(cfg, l) && Accepting(l.state) && Enabled(cfg, l, e) && Defined(cfg, l, e)
    requires var l' := Step(cfg, l, e).leader;
      l'.state == l.state && id < |l'.commitMap| && l'.commitMap[id] && SessionInv(cfg, l')
    ensures var l' := Step(cfg, l, e).leader;
      if l.commitMap[id] then l'.commitPointMap[id] == l.commitPointMap[id]
      else && e.CommitEvent? && e.final == l.state.CollectiveSigDone? && e.id == id && e.genuine
           && l'.commitPointMap[id] == Points(e.infos)
  {}

  lemma OnlyLeader(cfg: Config, l: Leader, id: nat)
    requires CommitsOk(cfg, l) && l.commitCounter == 1 && id < cfg.Size() && l.commitMap[id]
    ensures id == cfg.self
  {
    assert {cfg.self, id} <= Ones(l.commitMap);
    SubsetCard({cfg.self, id}, Ones(l.commitMap));
  }

  /** A commit phase opens with the leader's own commit. */
  lemma OpensAlone(cfg: Config, r: Run, t: nat, id: nat)
    requires IsRun(cfg, r) && WithoutFailure(cfg, r) && t < |r.events|
    requires !Accepting(r.states[t].state) && Accepting(r.states[t + 1].state)
    requires id < |r.states[t + 1].commitMap| && r.states[t + 1].commitMap[id]
    ensures id == cfg.self
  {
    RunInv(cfg, r, t);
    RunInv(cfg, r, t + 1);
    RunShort(cfg, r, t);
    RunAdvances(cfg, r, t);
    assert StepAt(cfg, r, t) && r.sent[t] != Some(ConsensusFailure);
    OpeningStep(cfg, r.states[t], r.events[t]);
    OnlyLeader(cfg, r.states[t + 1], id);
  }

  lemma RecordsCommitAt(cfg: Config, r: Run, t: nat, id: nat)
    requires IsRun(cfg, r) && WithoutFailure(cfg, r) && t < |r.events|
    requires Accepting(r.states[t].state) && r.states[t + 1].state == r.states[t].state
    requires id < |r.states[t + 1].commitMap| && r.states[t + 1].commitMap[id]
    ensures id < |r.states[t].commitMap| && id < |r.states[t].commitPointMap| && id < |r.states[t + 1].commitPointMap|
    ensures var l, l' := r.states[t], r.states[t + 1];
      if l.commitMap[id] then l'.commitPointMap[id] == l.commitPointMap[id]
      else CommitAt(r, t, l.state.CollectiveSigDone?, id, l'.commitPointMap[id])
  {
    RunInv(cfg, r, t);
    RunInv(cfg, r, t + 1);
    assert StepAt(cfg, r, t);
    RecordsCommit(cfg, r.states[t], r.events[t], id);
  }

  lemma StaysAccepting(cfg: Config, r: Run, t: nat)
    requires IsRun(cfg, r) && WithoutFailure(cfg, r) && t < |r.events|
    requires Accepting(r.states[t].state) && Accepting(r.states[t + 1].state)
    ensures r.states[t + 1].state == r.states[t].state
  {
    RunAdvances(cfg, r, t);
    assert r.sent[t] != Some(ConsensusFailure);
  }

  /** While commits are taken, every point on record was brought by a genuine commit of this round. */
  lemma {:induction false} AcceptedFrom(cfg: Config, r: Run, t: nat, id: nat) returns (e: nat)
    requires IsRun(cfg, r) && WithoutFailure(cfg, r) && t < |r.states| && Accepting(r.states[t].state)
    requires id < |r.states[t].commitMap| && r.states[t].commitMap[id] && id != cfg.self
    ensures id < |r.states[t].commitPointMap|
    ensures e < t && CommitAt(r, e, r.states[t].state.CollectiveSigDone?, id, r.states[t].commitPointMap[id])
    decreases t
  {
    if !Accepting(r.states[t - 1].state) {
      OpensAlone(cfg, r, t - 1, id);
      assert false;
    }
    StaysAccepting(cfg, r, t - 1);
    RecordsCommitAt(cfg, r, t - 1, id);
    if r.states[t - 1].commitMap[id] {
      e := AcceptedFrom(cfg, r, t - 1, id);
    } else {
      e := t - 1;
    }
  }

  // ---------- and where those of a challenged subset do ----------

  /** The subsets take the points on record, each its own. */
  lemma LaunchTakes(cfg: Config, l: Leader, shuffles: seq<seq<nat>>, k: nat, id: nat)
    requires ValidSession(cfg) && CommitsOk(cfg, l) && Accepting(l.state)
    requires cfg.com.quorum <= l.commitCounter && Shuffles(cfg, l, shuffles)
    requires var subs := Launch(cfg, l, shuffles).leader.subsets;
      k < |subs| && id < |subs[k].commitMap| && subs[k].commitMap[id]
    ensures id < cfg.Size() && l.commitMap[id] && k < |l.commitPointMap[id]|
    ensures id < |Launch(cfg, l, shuffles).leader.subsets[k].commitPointMap|
    ensures Launch(cfg, l, shuffles).leader.subsets[k].commitPointMap[id] == l.commitPointMap[id][k]
  {
    GeneratedSizes(cfg, l, shuffles);
    SubsetConstruction(cfg, l, shuffles, k);
    var ids, sub := Members(cfg, Order(cfg, l, shuffles, k), k), GenerateSubsets(cfg, l, shuffles).subsets[k];
    assert id in Ones(sub.commitMap);
    assert id in Elems(ids);
  }

  /** The challenges sent are the ones the subsets keep. */
  lemma LaunchSends(cfg: Config, l: Leader, shuffles: seq<seq<nat>>)
    requires ValidSession(cfg) && CommitsOk(cfg, l) && Accepting(l.state)
    requires cfg.com.quorum <= l.commitCounter && Shuffles(cfg, l, shuffles)
    ensures Sends(Launch(cfg, l, shuffles).sent, Launch(cfg, l, shuffles).leader)
  {
    GeneratedSizes(cfg, l, shuffles);
  }

  ghost predicate Sends(sent: Option<LeaderMsg>, l: Leader) {
    && sent.Some? && sent.value.Challenge? && sent.value.final == l.state.FinalChallengeDone?
    && |sent.value.challenges| == |l.subsets|
    && forall k :: 0 <= k < |l.subsets| ==> sent.value.challenges[k].challenge == Some(l.subsets[k].challenge)
  }

  /** The leader whose subsets a challenging step launches: as it was, or with one more commit. */
  ghost predicate LaunchedBy(cfg: Config, l: Leader, e: Event, l1: Leader, shuffles: seq<seq<nat>>) {
    && CommitsOk(cfg, l1) && Accepting(l1.state) && l1.state == l.state
    && cfg.com.quorum <= l1.commitCounter && Shuffles(cfg, l1, shuffles)
    && (forall id :: 0 <= id < cfg.Size() && l1.commitMap[id] ==>
          || (id < |l.commitMap| && id < |l.commitPointMap| && l.commitMap[id]
              && l1.commitPointMap[id] == l.commitPointMap[id])
          || (e.CommitEvent? && e.final == l.state.CollectiveSigDone? && e.id == id && e.genuine
              && l1.commitPointMap[id] == Points(e.infos)))
  }

  lemma WindowLaunches(cfg: Config, l: Leader, e: Event) returns (l1: Leader)
    requires ValidSession(cfg) && SessionInv(cfg, l) && Enabled(cfg, l, e) && e.WindowEvent?
    requires Challenging(CloseWindow(cfg, l, e.shuffles).leader.state)
    ensures LaunchedBy(cfg, l, e, l1, e.shuffles) && CloseWindow(cfg, l, e.shuffles) == Launch(cfg, l1, e.shuffles)
  {
    l1 := l.(windowOpen := false);
  }

  lemma CommitLaunches(cfg: Config, l: Leader, e: Event) returns (l1: Leader, shuffles: seq<seq<nat>>)
    requires ValidSession(cfg) && SessionInv(cfg, l) && e.CommitEvent? && !Challenging(l.state)
    requires Challenging(ProcessCommit(cfg, l, e.final, e.id, e.genuine, e.infos).leader.state)
    ensures LaunchedBy(cfg, l, e, l1, shuffles)
    ensures var res := ProcessCommit(cfg, l, e.final, e.id, e.genuine, e.infos);
      res.leader == Launch(cfg, l1, shuffles).leader && res.sent == Launch(cfg, l1, shuffles).sent
  {
    l1 := RecordCommit(l, e.id, e.infos);
    shuffles := [Peers(l1.commitMap, cfg.self)];
    RecordKeepsCommitsOk(cfg, l, e.id, e.infos);
  }

  /** No other step challenges. */
  lemma OnlyThoseChallenge(cfg: Config, l: Leader, e: Event)
    requires ValidSession(cfg) && SessionInv(cfg, l) && Enabled(cfg, l, e) && Defined(cfg, l, e)
    requires !Challenging(l.state) && Challenging(Step(cfg, l, e).leader.state)
    ensures e.WindowEvent? || e.CommitEvent?
  {}

  lemma ChallengeLaunches(cfg: Config, l: Leader, e: Event) returns (l1: Leader, shuffles: seq<seq<nat>>)
    requires ValidSession(cfg) && SessionInv(cfg, l) && Enabled(cfg, l, e) && Defined(cfg, l, e)
    requires !Challenging(l.state) && Challenging(Step(cfg, l, e).leader.state)
    ensures LaunchedBy(cfg, l, e, l1, shuffles)
    ensures Step(cfg, l, e).leader == Launch(cfg, l1, shuffles).leader
    ensures Step(cfg, l, e).sent == Launch(cfg, l1, shuffles).sent
  {
    OnlyThoseChallenge(cfg, l, e);
    if e.WindowEvent? {
      l1 := WindowLaunches(cfg, l, e);
      shuffles := e.shuffles;
    } else {
      l1, shuffles := CommitLaunches(cfg, l, e);
    }
  }

  lemma ChallengeStarts(cfg: Config, r: Run, t: nat, k: nat, id: nat) returns (e: nat)
    requires IsRun(cfg, r) && WithoutFailure(cfg, r) && t < |r.events|
    requires !Challenging(r.states[t].state) && Challenging(r.states[t + 1].state)
    requires var subs := r.states[t + 1].subsets; k < |subs| && id < |subs[k].commitMap| && subs[k].commitMap[id]
    requires id != cfg.self
    ensures id < |r.states[t + 1].subsets[k].commitPointMap|
    ensures e <= t && BroughtBy(r, e, r.states[t + 1].state, k, id, r.states[t + 1].subsets[k].commitPointMap[id])
  {
    var l := r.states[t];
    RunInv(cfg, r, t);
    assert StepAt(cfg, r, t);
    var l1, shuffles := ChallengeLaunches(cfg, l, r.events[t]);
    LaunchTakes(cfg, l1, shuffles, k, id);
    if id < |l.commitMap| && id < |l.commitPointMap| && l.commitMap[id] &&
      l1.commitPointMap[id] == l.commitPointMap[id] {
      e := AcceptedFrom(cfg, r, t, id);
    } else {
      e := t;
    }
  }

  /** Step `e` is a genuine commit of `id`, in the round of this state, whose k-th point is `point`. */
  ghost predicate BroughtBy(r: Run, e: nat, state: State, k: nat, id: nat, point: Point) {
    && e < |r.events| && r.events[e].CommitEvent? && r.events[e].final == state.FinalChallengeDone?
    && r.events[e].id == id && r.events[e].genuine
    && k < |r.events[e].infos| && r.events[e].infos[k].commit == point
  }

  /** Every point a challenged subset holds for another member was brought by a genuine commit of the round. */
  lemma {:induction false} ChallengedFrom(cfg: Config, r: Run, t: nat, k: nat, id: nat) returns (e: nat)
    requires IsRun(cfg, r) && WithoutFailure(cfg, r) && t < |r.states| && Challenging(r.states[t].state)
    requires k < |r.states[t].subsets| && id < |r.states[t].subsets[k].commitMap|
    requires r.states[t].subsets[k].commitMap[id] && id != cfg.self
    ensures id < |r.states[t].subsets[k].commitPointMap|
    ensures e < t && BroughtBy(r, e, r.states[t].state, k, id, r.states[t].subsets[k].commitPointMap[id])
    decreases t
  {
    if Challenging(r.states[t - 1].state) {
      StaysChallenging(cfg, r, t - 1);
      RunListens(cfg, r, t - 1);
      assert Grown(r.states[t - 1].subsets[k], r.states[t].subsets[k]);
      e := ChallengedFrom(cfg, r, t - 1, k, id);
    } else {
      e := ChallengeStarts(cfg, r, t - 1, k, id);
    }
  }

  lemma StaysChallenging(cfg: Config, r: Run, t: nat)
    requires IsRun(cfg, r) && WithoutFailure(cfg, r) && t < |r.events|
    requires Challenging(r.states[t].state) && Challenging(r.states[t + 1].state)
    ensures r.states[t + 1].state == r.states[t].state
  {
    RunAdvances(cfg, r, t);
    assert r.sent[t] != Some(ConsensusFailure);
  }

  /** The challenge message of the round carries what the subsets keep. */
  lemma {:induction false} ChallengeSent(cfg: Config, r: Run, t: nat) returns (s: nat)
    requires IsRun(cfg, r) && WithoutFailure(cfg, r) && t < |r.states| && Challenging(r.states[t].state)
    ensures s < t && Sends(r.sent[s], r.states[t])
    decreases t
  {
    if Challenging(r.states[t - 1].state) {
      StaysChallenging(cfg, r, t - 1);
      RunListens(cfg, r, t - 1);
      s := ChallengeSent(cfg, r, t - 1);
    } else {
      s := t - 1;
      RunInv(cfg, r, s);
      assert StepAt(cfg, r, s);
      var l1, shuffles := ChallengeLaunches(cfg, r.states[s], r.events[s]);
      LaunchSends(cfg, l1, shuffles);
    }
  }

  // ---------- honest backups ----------

  /** A genuine message of member `id`. */
  predicate From(e: Event, id: nat) {
    (e.CommitEvent? || e.ResponseEvent?) && e.id == id && e.genuine
  }

  /** What the leader genuinely has of `id` was sent by this backup. */
  ghost predicate Speaks(lr: Run, id: nat, br: BR.Run) {
    && (forall e :: 0 <= e < |lr.events| && From(lr.events[e], id) && lr.events[e].CommitEvent? ==>
          Some(Commit(lr.events[e].final, lr.events[e].infos)) in br.sent)
    && (forall e :: 0 <= e < |lr.events| && From(lr.events[e], id) && lr.events[e].ResponseEvent? ==>
          Some(Response(lr.events[e].final, lr.events[e].responses)) in br.sent)
  }

  /** Member `id` is a backup of the session, hears only this leader, accepts the content and speaks for itself. */
  ghost predicate Honest(lcfg: Config, lr: Run, id: nat, bcfg: BM.Config, br: BR.Run)
    requires IsRun(lcfg, lr)
  {
    && id < lcfg.Size() && id != lcfg.self && SameSession(lcfg, bcfg)
    && lcfg.com.keys[id] == lcfg.com.suite.mul(bcfg.privKey, lcfg.com.suite.g)
    && BR.IsRun(bcfg, br) && Hears(lcfg, lr, br) && Speaks(lr, id, br)
    && forall k :: 0 <= k < |br.inputs| ==> br.inputs[k].verdict.Accepts?
  }

  /** A commit of an honest backup passes every check the leader makes of it. */
  lemma HonestCommitPasses(lcfg: Config, lr: Run, id: nat, bcfg: BM.Config, br: BR.Run, e: nat) returns (v: nat)
    requires IsRun(lcfg, lr) && Honest(lcfg, lr, id, bcfg, br)
    requires e < |lr.events| && lr.events[e].CommitEvent? && From(lr.events[e], id)
    ensures LeaderProgress.Commits(lcfg, lr.events[e].final, id, lr.events[e])
    ensures v < |br.sent| && br.sent[v] == Some(Commit(lr.events[e].final, lr.events[e].infos))
  {
    v :| 0 <= v < |br.sent| && br.sent[v] == Some(Commit(lr.events[e].final, lr.events[e].infos));
    assert BR.SendsCommit(bcfg, br, v);
    BR.SentCommit(bcfg, br, v);
    assert BR.StepAt(bcfg, br, v);
  }

  /** So a leader in that round that does not have it yet takes it. */
  lemma HonestCommitTaken(lcfg: Config, lr: Run, id: nat, bcfg: BM.Config, br: BR.Run, e: nat)
    requires IsRun(lcfg, lr) && WithoutFailure(lcfg, lr) && Honest(lcfg, lr, id, bcfg, br)
    requires e < |lr.events| && lr.events[e].CommitEvent? && From(lr.events[e], id)
    requires lr.states[e].state == (if lr.events[e].final then CollectiveSigDone else AnnounceDone)
    ensures CommitsOk(lcfg, lr.states[e])
    ensures !lr.states[e].commitMap[id] ==>
      CommitAccepted(lcfg, lr.states[e], lr.events[e].final, id, true, lr.events[e].infos)
  {
    RunInv(lcfg, lr, e);
    var v := HonestCommitPasses(lcfg, lr, id, bcfg, br, e);
  }

  /** The one challenge message of a round is what an honest backup answers. */
  lemma AnswersChallenge(lcfg: Config, lr: Run, bcfg: BM.Config, br: BR.Run, t: nat, u: nat)
    requires IsRun(lcfg, lr) && WithoutFailure(lcfg, lr) && BR.IsRun(bcfg, br) && Hears(lcfg, lr, br)
    requires t < |lr.states| && Challenging(lr.states[t].state)
    requires BR.SendsResponse(bcfg, br, u, lr.states[t].state.FinalChallengeDone?)
    ensures Sends(Some(br.inputs[u].msg), lr.states[t])
  {
    var s := ChallengeSent(lcfg, lr, t);
    assert BR.StepAt(bcfg, br, u);
    var s' :| 0 <= s' < |lr.events| && lr.sent[s'] == Some(br.inputs[u].msg);
    ChallengesOnce(lcfg, lr, s, s', lr.states[t].state.FinalChallengeDone?);
  }

  /** The commit a challenged subset holds of an honest member is to the secret that member answers from. */
  lemma SameSecret(lcfg: Config, lr: Run, id: nat, bcfg: BM.Config, br: BR.Run, t: nat, k: nat, u: nat)
    requires IsRun(lcfg, lr) && WithoutFailure(lcfg, lr) && Honest(lcfg, lr, id, bcfg, br) && BR.WithoutFailure(br)
    requires t < |lr.states| && Challenging(lr.states[t].state) && k < |lr.states[t].subsets|
    requires id < |lr.states[t].subsets[k].commitMap| && lr.states[t].subsets[k].commitMap[id]
    requires BR.SendsResponse(bcfg, br, u, lr.states[t].state.FinalChallengeDone?)
    ensures id < |lr.states[t].subsets[k].commitPointMap| && k < |br.states[u].secrets|
    ensures lr.states[t].subsets[k].commitPointMap[id] ==
      BM.CommitsFor(bcfg.com.suite, br.states[u].secrets)[k].commit
  {
    var final := lr.states[t].state.FinalChallengeDone?;
    var e := ChallengedFrom(lcfg, lr, t, k, id);
    var v := HonestCommitPasses(lcfg, lr, id, bcfg, br, e);
    var d := BR.ResponseSecrets(bcfg, br, u, final);
    BR.CommitsOnce(bcfg, br, v, d);
  }

  /** So the answer of an honest member counts for every subset it is in. */
  lemma HonestAnswerCounts(lcfg: Config, lr: Run, id: nat, bcfg: BM.Config, br: BR.Run, t: nat, k: nat, e: nat)
    requires IsRun(lcfg, lr) && WithoutFailure(lcfg, lr) && Honest(lcfg, lr, id, bcfg, br)
    requires t < |lr.states| && Challenging(lr.states[t].state)
    requires SubsetsSized(lcfg, lr.states[t].subsets) && k < |lr.states[t].subsets|
    requires lr.states[t].subsets[k].commitMap[id]
    requires e < |lr.events| && lr.events[e].ResponseEvent? && From(lr.events[e], id)
    requires lr.events[e].final == lr.states[t].state.FinalChallengeDone?
    ensures Answers(lcfg, lr.states[t].subsets, lr.states[t].state.FinalChallengeDone?, k, id, lr.events[e])
  {
    var final, sub := lr.states[t].state.FinalChallengeDone?, lr.states[t].subsets[k];
    BP.NoFailureHeard(lcfg, lr, br);
    var u :| 0 <= u < |br.sent| && br.sent[u] == Some(Response(final, lr.events[e].responses));
    assert BR.SendsResponse(bcfg, br, u, final);
    AnswersChallenge(lcfg, lr, bcfg, br, t, u);
    SameSecret(lcfg, lr, id, bcfg, br, t, k, u);
    var d := BR.ResponseSecrets(bcfg, br, u, final);
    var infos := br.inputs[u].msg.challenges;
    BP.AnswerIsValid(lcfg, sub, id, bcfg, br.states[u], infos, k);
    BM.ScanAnswers(bcfg, br.states[u], infos);
  }

  // ---------- a session in which everything arrives ----------

  /** A backup that takes part, with the place among its inputs at which each message of the leader reaches it. */
  datatype Party = Party(cfg: BM.Config, run: BR.Run, at: seq<nat>)

  /** The other members whose genuine commits the leader gets are honest backups, and with it they make a quorum. */
  ghost predicate TakesPart(lcfg: Config, lr: Run, parties: map<nat, Party>)
    requires IsRun(lcfg, lr)
  {
    && (forall id :: id in parties ==> Honest(lcfg, lr, id, parties[id].cfg, parties[id].run))
    && (forall e :: 0 <= e < |lr.events| && lr.events[e].CommitEvent? && lr.events[e].genuine ==>
          lr.events[e].id in parties || lr.events[e].id == lcfg.self)
    && |parties.Keys| + 1 >= lcfg.com.quorum
  }

  ghost predicate IsCommit(e: Event, id: nat, final: bool) {
    e.CommitEvent? && From(e, id) && e.final == final
  }

  ghost predicate IsAnswer(e: Event, id: nat, final: bool) {
    e.ResponseEvent? && From(e, id) && e.final == final
  }

  /** Between `i` and `j` every party's commit of the round arrives and, with several subsets, the window closes. */
  ghost predicate CommitsArrive(lcfg: Config, lr: Run, parties: map<nat, Party>, i: nat, j: nat, final: bool)
    requires i <= j <= |lr.events|
  {
    && (forall id :: id in parties ==> exists e :: i <= e < j && IsCommit(lr.events[e], id, final))
    && (lcfg.NumSubsets() > 1 ==> exists e :: i <= e < j && lr.events[e].WindowEvent?)
  }

  ghost predicate AnswersArrive(lr: Run, parties: map<nat, Party>, i: nat, j: nat, final: bool)
    requires i <= j <= |lr.events|
  {
    forall id :: id in parties ==> exists e :: i <= e < j && IsAnswer(lr.events[e], id, final)
  }

  lemma CommitsSuffice(lcfg: Config, lr: Run, parties: map<nat, Party>, i: nat, j: nat)
    requires IsRun(lcfg, lr) && TakesPart(lcfg, lr, parties)
    requires i <= j < |lr.states| && CommitsArrive(lcfg, lr, parties, i, j, lr.states[i].state.CollectiveSigDone?)
    ensures EnoughCommit(lcfg, lr, i, j)
  {
    if lcfg.NumSubsets() == 1 {
      var all := Committers(lcfg, lr, i, j) + {lcfg.self};
      forall id: nat | id in parties.Keys + {lcfg.self}
        ensures id in all
      {
        if id in parties {
          var e: nat :| i <= e < j && IsCommit(lr.events[e], id, lr.states[i].state.CollectiveSigDone?);
          var v := HonestCommitPasses(lcfg, lr, id, parties[id].cfg, parties[id].run, e);
          assert CommitsIn(lcfg, lr, i, j, id);
        }
      }
      assert lcfg.self !in parties.Keys;
      SubsetCard(parties.Keys + {lcfg.self}, all);
    }
  }

  /** Whoever is in a challenged subset takes part. */
  lemma MembersTakePart(lcfg: Config, lr: Run, parties: map<nat, Party>, i: nat, k: nat, id: nat)
    requires IsRun(lcfg, lr) && WithoutFailure(lcfg, lr) && TakesPart(lcfg, lr, parties)
    requires i < |lr.states| && Challenging(lr.states[i].state) && k < |lr.states[i].subsets|
    requires id in Ones(lr.states[i].subsets[k].commitMap) && id != lcfg.self
    ensures id in parties
  {
    var e := ChallengedFrom(lcfg, lr, i, k, id);
  }

  lemma AnswersSuffice(lcfg: Config, lr: Run, parties: map<nat, Party>, i: nat, j: nat)
    requires IsRun(lcfg, lr) && WithoutFailure(lcfg, lr) && TakesPart(lcfg, lr, parties)
    requires i <= j < |lr.states| && Challenging(lr.states[i].state)
    requires AnswersArrive(lr, parties, i, j, lr.states[i].state.FinalChallengeDone?)
    ensures SomeSubsetAnswers(lcfg, lr, i, j)
  {
    RunInv(lcfg, lr, i);
    forall id: nat | id in Ones(lr.states[i].subsets[0].commitMap) && id != lcfg.self
      ensures AnsweredIn(lcfg, lr, i, j, 0, id)
    {
      MembersTakePart(lcfg, lr, parties, i, 0, id);
      var e: nat :| i <= e < j && IsAnswer(lr.events[e], id, lr.states[i].state.FinalChallengeDone?);
      HonestAnswerCounts(lcfg, lr, id, parties[id].cfg, parties[id].run, i, 0, e);
    }
    assert AllAnswer(lcfg, lr, i, j, 0);
  }

  /** Once the commits and the answers of both rounds have arrived the leader is DONE, whatever else it was sent. */
  lemma HonestLeaderFinishes(lcfg: Config, lr: Run, parties: map<nat, Party>, i: nat, a: nat, b: nat, c: nat, d: nat)
    requires IsRun(lcfg, lr) && WithoutFailure(lcfg, lr) && NoShortWindow(lcfg, lr) && TakesPart(lcfg, lr, parties)
    requires i <= a <= b <= c <= d < |lr.states| && !lr.states[i].state.Initial?
    requires CommitsArrive(lcfg, lr, parties, i, a, false) && AnswersArrive(lr, parties, a, b, false)
    requires CommitsArrive(lcfg, lr, parties, b, c, true) && AnswersArrive(lr, parties, c, d, true)
    ensures lr.states[d].state.Done?
  {
    if lr.states[i].state.AnnounceDone? {
      CommitsSuffice(lcfg, lr, parties, i, a);
    }
    if lr.states[b].state.CollectiveSigDone? {
      CommitsSuffice(lcfg, lr, parties, b, c);
    }
    if lr.states[a].state.ChallengeDone? {
      AnswersSuffice(lcfg, lr, parties, a, b);
    }
    if lr.states[c].state.FinalChallengeDone? {
      AnswersSuffice(lcfg, lr, parties, c, d);
    }
    LeaderFinishes(lcfg, lr, i, a, b, c, d);
  }

  // ---------- what the leader sent on the way reaches the parties ----------

  /** The step that led into the state the leader is in at `t`. */
  lemma {:induction false} EnteredAt(cfg: Config, r: Run, t: nat) returns (s: nat)
    requires IsRun(cfg, r) && t < |r.states| && !r.states[t].state.Initial?
    ensures s < t && r.states[s].state != r.states[s + 1].state == r.states[t].state
    decreases t
  {
    if r.states[t - 1].state == r.states[t].state {
      s := EnteredAt(cfg, r, t - 1);
    } else {
      s := t - 1;
    }
  }

  /** What a step that changes the state has sent. */
  lemma EnteredBy(cfg: Config, r: Run, t: nat) returns (s: nat)
    requires IsRun(cfg, r) && WithoutFailure(cfg, r) && t < |r.states|
    requires r.states[t].state in {AnnounceDone, ChallengeDone, CollectiveSigDone, FinalChallengeDone, Done}
    ensures s < t && r.sent[s].Some?
    ensures match r.states[t].state
      case AnnounceDone => r.sent[s].value.Announce?
      case ChallengeDone => r.states[s].state.AnnounceDone?
      case CollectiveSigDone => r.states[s].state.ChallengeDone? && r.sent[s].value.CollectiveSig? &&
        !r.sent[s].value.final
      case FinalChallengeDone => r.states[s].state.CollectiveSigDone?
      case Done => r.states[s].state.FinalChallengeDone? && r.sent[s].value.CollectiveSig? && r.sent[s].value.final
      case _ => true
  {
    s := EnteredAt(cfg, r, t);
    RunAdvances(cfg, r, s);
    assert r.sent[s] != Some(ConsensusFailure);
  }

  /** A leader that is DONE has sent an announcement and then the two signatures. */
  lemma DoneHasSent(cfg: Config, r: Run, t: nat) returns (s1: nat, s2: nat, s3: nat)
    requires IsRun(cfg, r) && WithoutFailure(cfg, r) && t < |r.states| && r.states[t].state.Done?
    ensures s1 < s2 < s3 < t && r.sent[s1].Some? && r.sent[s2].Some? && r.sent[s3].Some?
    ensures r.sent[s1].value.Announce?
    ensures r.sent[s2].value.CollectiveSig? && !r.sent[s2].value.final
    ensures r.sent[s3].value.CollectiveSig? && r.sent[s3].value.final
  {
    s3 := EnteredBy(cfg, r, t);
    var c2 := EnteredBy(cfg, r, s3);
    s2 := EnteredBy(cfg, r, c2);
    var c1 := EnteredBy(cfg, r, s2);
    s1 := EnteredBy(cfg, r, c1);
  }

  /** All messages of the leader reach the party in the order they were sent, the signatures at a time it is ready. */
  ghost predicate InOrder(lr: Run, party: Party) {
    && |party.at| == |lr.sent|
    && (forall s :: 0 <= s < |lr.sent| && lr.sent[s].Some? ==>
          && party.at[s] < |party.run.inputs| && party.run.inputs[party.at[s]].msg == lr.sent[s].value
          && party.run.inputs[party.at[s]].ready)
    && (forall s, s' :: 0 <= s < s' < |lr.sent| && lr.sent[s].Some? && lr.sent[s'].Some? ==> party.at[s] < party.at[s'])
  }

  lemma PartyFinishes(lcfg: Config, lr: Run, id: nat, party: Party, d: nat)
    requires IsRun(lcfg, lr) && WithoutFailure(lcfg, lr) && Honest(lcfg, lr, id, party.cfg, party.run)
    requires d < |lr.states| && lr.states[d].state.Done? && InOrder(lr, party)
    ensures party.run.states[|party.run.inputs|].state.Done?
  {
    var s1, s2, s3 := DoneHasSent(lcfg, lr, d);
    BP.BackupFinishes(lcfg, lr, party.cfg, party.run, party.at[s1], party.at[s2], party.at[s3], |party.run.inputs|);
  }

  /**
    One honest leader and the accepting backups that make up a quorum with it all reach DONE once everything is
    delivered: to the leader the commits and answers of each round, to the backups the leader's messages in order.
  */
  lemma SessionFinishes(lcfg: Config, lr: Run, parties: map<nat, Party>, i: nat, a: nat, b: nat, c: nat, d: nat)
    requires IsRun(lcfg, lr) && WithoutFailure(lcfg, lr) && NoShortWindow(lcfg, lr) && TakesPart(lcfg, lr, parties)
    requires i <= a <= b <= c <= d < |lr.states| && !lr.states[i].state.Initial?
    requires CommitsArrive(lcfg, lr, parties, i, a, false) && AnswersArrive(lr, parties, a, b, false)
    requires CommitsArrive(lcfg, lr, parties, b, c, true) && AnswersArrive(lr, parties, c, d, true)
    requires forall id :: id in parties ==> InOrder(lr, parties[id])
    ensures lr.states[d].state.Done?
    ensures forall id :: id in parties ==>
      |parties[id].run.states| > 0 && parties[id].run.states[|parties[id].run.states| - 1].state.Done?
  {
    HonestLeaderFinishes(lcfg, lr, parties, i, a, b, c, d);
    forall id | id in parties
      ensures |parties[id].run.states| > 0 && parties[id].run.states[|parties[id].run.states| - 1].state.Done?
    {
      PartyFinishes(lcfg, lr, id, parties[id], d);
    }
  }
}
