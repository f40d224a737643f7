/** What a leader needs to hear to finish its rounds, whatever else it hears. */
module LeaderProgress {
  import opened Options
  import opened Bitmaps
  import opened MultiSig
  import opened Consensus
  import opened LeaderModel
  import opened LeaderProofs
  import opened LeaderRuns

  // ---------- responses ----------

  /** Nothing of a challenged subset changes but the responses that come in. */
  ghost predicate Grown(a: Subset, b: Subset) {
    && b.commitMap == a.commitMap && b.challenge == a.challenge && b.commitPointMap == a.commitPointMap
    && Within(a.responseMap, b.responseMap)
  }

  /** The subset has the leader's own response but not all. */
  ghost predicate Waiting(cfg: Config, sub: Subset) {
    && sub.responseCounter < cfg.com.quorum
    && cfg.self < |sub.responseMap| && sub.responseMap[cfg.self]
  }

  /** A response that passes the leader's check for a subset the member is in. */
  predicate Valid(cfg: Config, sub: Subset, id: nat, response: int)
    requires SubsetSizes(cfg, sub)
  {
    && id < cfg.Size() && sub.commitMap[id]
    && VerifyResponse(cfg.com.suite, response, sub.challenge, cfg.com.keys[id], sub.commitPointMap[id])
  }

  /** The subset after one more response for it, counted or not. */
  function Turned(cfg: Config, sub: Subset, final: bool, id: nat, response: int): Subset
    requires SubsetSizes(cfg, sub)
  {
    if ResponseCounts(cfg, sub, final, id, response) then RecordResponse(sub, id, response) else sub
  }

  /** One message counts for each of the first `upto` subsets on its own. */
  function AllTurned(cfg: Config, subs: seq<Subset>, final: bool, id: nat, responses: seq<int>, upto: nat): seq<Subset>
    requires SubsetsSized(cfg, subs) && upto <= |responses| && upto <= |subs|
  {
    seq(|subs|, k requires 0 <= k < |subs| =>
          if k < upto then Turned(cfg, subs[k], final, id, responses[k]) else subs[k])
  }

  /** The response is counted and is the last one its subset waits for. */
  predicate Fills(cfg: Config, sub: Subset, final: bool, id: nat, response: int)
    requires SubsetSizes(cfg, sub)
  {
    ResponseCounts(cfg, sub, final, id, response) && sub.responseCounter + 1 == cfg.com.quorum
  }

  ghost predicate NoneFills(cfg: Config, subs: seq<Subset>, final: bool, id: nat, responses: seq<int>, upto: nat)
    requires SubsetsSized(cfg, subs) && upto <= |responses| && upto <= |subs|
  {
    forall k :: 0 <= k < upto ==> !Fills(cfg, subs[k], final, id, responses[k])
  }

  /** A message that fills no subset is counted for each. */
  lemma {:induction false} CountingIs(cfg: Config, l: Leader, final: bool, id: nat, responses: seq<int>, upto: nat,
                                      generated: Bytes)
    requires SubsetsSized(cfg, l.subsets) && upto <= |responses| && upto <= |l.subsets| && cfg.self < cfg.Size()
    requires NoneFills(cfg, l.subsets, final, id, responses, upto)
    ensures CountResponses(cfg, l, final, id, responses, upto, generated).leader
         == l.(subsets := AllTurned(cfg, l.subsets, final, id, responses, upto))
    decreases upto
  {
    if upto == 0 {
      assert AllTurned(cfg, l.subsets, final, id, responses, 0) == l.subsets;
    } else {
      var i := upto - 1;
      var l1 := l.(subsets := l.subsets[i := Turned(cfg, l.subsets[i], final, id, responses[i])]);
      assert l.subsets[i := l.subsets[i]] == l.subsets;
      CountingIs(cfg, l1, final, id, responses, i, generated);
      assert AllTurned(cfg, l1.subsets, final, id, responses, i) ==
        AllTurned(cfg, l.subsets, final, id, responses, upto);
    }
  }

  /** A message that fills one ends the round. */
  lemma {:induction false} FillingEnds(cfg: Config, l: Leader, final: bool, id: nat, responses: seq<int>, upto: nat,
                                       generated: Bytes)
    requires ValidSession(cfg) && SubsetsSized(cfg, l.subsets) && SubsetsInv(cfg, l.subsets, l.message, l.state)
    requires l.state == AwaitingState(final) && upto <= |responses| && upto <= |l.subsets|
    requires !NoneFills(cfg, l.subsets, final, id, responses, upto)
    ensures CountResponses(cfg, l, final, id, responses, upto, generated).leader.state != l.state
    decreases upto
  {
    var i := upto - 1;
    if !ResponseCounts(cfg, l.subsets[i], final, id, responses[i]) {
      FillingEnds(cfg, l, final, id, responses, i, generated);
    } else {
      RecordKeepsSubsets(cfg, l.subsets, l.message, final, i, id, responses[i]);
      var l1 := l.(subsets := l.subsets[i := RecordResponse(l.subsets[i], id, responses[i])]);
      if Fills(cfg, l.subsets[i], final, id, responses[i]) {
        FinishSucceeds(cfg, l1, i, final, generated);
      } else {
        FillingEnds(cfg, l1, final, id, responses, i, generated);
      }
    }
  }

  lemma FinishSends(cfg: Config, l: Leader, k: nat, final: bool, generated: Bytes)
    requires ValidSession(cfg) && SubsetsSized(cfg, l.subsets) && k < |l.subsets|
    requires SubsetInv(cfg, l.subsets[k], l.message) && l.subsets[k].responseCounter == cfg.com.quorum
    ensures SendsFor(FinishSubset(cfg, l, k, final, generated).sent, l.subsets[k])
  {
    FullSubsetSigns(cfg, l.subsets[k], l.message);
  }

  /** The signature of all members of this subset. */
  ghost predicate SendsFor(sent: Option<LeaderMsg>, sub: Subset) {
    sent.Some? && sent.value.CollectiveSig? && sent.value.bitmap == sub.commitMap
  }

  ghost predicate NoneFillsFrom(cfg: Config, subs: seq<Subset>, final: bool, id: nat, responses: seq<int>, k: nat,
                                upto: nat)
    requires SubsetsSized(cfg, subs) && upto <= |responses| && upto <= |subs|
  {
    forall i :: k <= i < upto ==> !Fills(cfg, subs[i], final, id, responses[i])
  }

  /** Of several subsets a message fills, the highest one's signature goes out. */
  lemma {:induction false} HighestFilledSigns(cfg: Config, l: Leader, final: bool, id: nat, responses: seq<int>,
                                              upto: nat, generated: Bytes, k: nat, res: Result)
    requires ValidSession(cfg) && SubsetsSized(cfg, l.subsets) && k < upto <= |responses| && upto <= |l.subsets|
    requires SubsetInv(cfg, l.subsets[k], l.message) && Fills(cfg, l.subsets[k], final, id, responses[k])
    requires NoneFillsFrom(cfg, l.subsets, final, id, responses, k + 1, upto)
    requires res == CountResponses(cfg, l, final, id, responses, upto, generated)
    ensures SendsFor(res.sent, l.subsets[k])
    decreases upto
  {
    var i := upto - 1;
    if !ResponseCounts(cfg, l.subsets[i], final, id, responses[i]) {
      HighestFilledSigns(cfg, l, final, id, responses, i, generated, k, res);
    } else {
      var l1 := l.(subsets := l.subsets[i := RecordResponse(l.subsets[i], id, responses[i])]);
      if i == k {
        RecordResponseKeeps(cfg, l.subsets[i], l.message, final, id, responses[i]);
        FinishSends(cfg, l1, k, final, generated);
      } else {
        assert !Fills(cfg, l.subsets[i], final, id, responses[i]);
        HighestFilledSigns(cfg, l1, final, id, responses, i, generated, k, res);
      }
    }
  }

  // ---------- steps ----------

  ghost predicate AllWait(cfg: Config, subs: seq<Subset>) {
    forall k :: 0 <= k < |subs| ==> Waiting(cfg, subs[k])
  }

  ghost predicate AllGrown(subs: seq<Subset>, subs': seq<Subset>) {
    |subs'| == |subs| && forall k :: 0 <= k < |subs| ==> Grown(subs[k], subs'[k])
  }

  /** The event is a message from member `id` whose response for subset `k` passes. */
  ghost predicate Answers(cfg: Config, subs: seq<Subset>, final: bool, k: nat, id: nat, e: Event)
    requires SubsetsSized(cfg, subs) && k < |subs|
  {
    && e.ResponseEvent? && e.final == final && e.id == id && e.genuine && k < |e.responses| <= |subs|
    && Valid(cfg, subs[k], id, e.responses[k])
  }

  lemma TurnedWaits(cfg: Config, sub: Subset, final: bool, id: nat, response: int)
    requires SubsetSizes(cfg, sub) && Waiting(cfg, sub) && sub.state == AwaitingState(final)
    requires !Fills(cfg, sub, final, id, response)
    ensures var sub' := Turned(cfg, sub, final, id, response);
      Grown(sub, sub') && Waiting(cfg, sub') && (Valid(cfg, sub, id, response) ==> sub'.responseMap[id])
  {}

  lemma AllTurnedGrow(cfg: Config, subs: seq<Subset>, final: bool, id: nat, responses: seq<int>)
    requires SubsetsSized(cfg, subs) && |responses| <= |subs| && AllWait(cfg, subs)
    requires forall k :: 0 <= k < |subs| ==> subs[k].state == AwaitingState(final)
    requires NoneFills(cfg, subs, final, id, responses, |responses|)
    ensures var subs' := AllTurned(cfg, subs, final, id, responses, |responses|);
      && AllGrown(subs, subs') && AllWait(cfg, subs')
      && forall k :: 0 <= k < |responses| && Valid(cfg, subs[k], id, responses[k]) ==> subs'[k].responseMap[id]
  {
    forall k | 0 <= k < |responses|
      ensures var sub' := Turned(cfg, subs[k], final, id, responses[k]);
        && Grown(subs[k], sub') && Waiting(cfg, sub')
        && (Valid(cfg, subs[k], id, responses[k]) ==> sub'.responseMap[id])
    {
      TurnedWaits(cfg, subs[k], final, id, responses[k]);
    }
  }

  /** What a step that does not end the round leaves of the subsets. */
  ghost predicate Listened(cfg: Config, subs: seq<Subset>, subs': seq<Subset>, final: bool, e: Event)
    requires SubsetsSized(cfg, subs)
  {
    && AllWait(cfg, subs') && AllGrown(subs, subs')
    && forall k: nat, id: nat :: k < |subs| && Answers(cfg, subs, final, k, id, e) ==> subs'[k].responseMap[id]
  }

  lemma ResponseListened(cfg: Config, l: Leader, final: bool, id: nat, responses: seq<int>, generated: Bytes)
    requires ValidSession(cfg) && SessionInv(cfg, l) && l.state == AwaitingState(final) && AllWait(cfg, l.subsets)
    requires |responses| <= |l.subsets|
    requires CountResponses(cfg, l, final, id, responses, |responses|, generated).leader.state == l.state
    ensures var e := ResponseEvent(final, id, true, responses, generated);
      Listened(cfg, l.subsets, CountResponses(cfg, l, final, id, responses, |responses|, generated).leader.subsets,
        final, e)
  {
    if !NoneFills(cfg, l.subsets, final, id, responses, |responses|) {
      FillingEnds(cfg, l, final, id, responses, |responses|, generated);
      assert false;
    }
    CountingIs(cfg, l, final, id, responses, |responses|, generated);
    AllTurnedGrow(cfg, l.subsets, final, id, responses);
  }

  lemma QuietStep(cfg: Config, l: Leader, e: Event)
    requires ValidSession(cfg) && SessionInv(cfg, l) && Challenging(l.state) && !e.ResponseEvent?
    requires Enabled(cfg, l, e) && Defined(cfg, l, e)
    ensures Step(cfg, l, e).leader.subsets == l.subsets
  {}

  lemma SameListened(cfg: Config, subs: seq<Subset>, final: bool, e: Event)
    requires SubsetsSized(cfg, subs) && AllWait(cfg, subs)
    requires forall k: nat, id: nat :: k < |subs| ==> !Answers(cfg, subs, final, k, id, e)
    ensures Listened(cfg, subs, subs, final, e)
  {}

  lemma AwaitingStep(cfg: Config, l: Leader, e: Event, final: bool)
    requires ValidSession(cfg) && SessionInv(cfg, l) && l.state == AwaitingState(final) && AllWait(cfg, l.subsets)
    requires Enabled(cfg, l, e) && Defined(cfg, l, e) && Step(cfg, l, e).leader.state == l.state
    ensures Listened(cfg, l.subsets, Step(cfg, l, e).leader.subsets, final, e)
  {
    if !e.ResponseEvent? {
      QuietStep(cfg, l, e);
      SameListened(cfg, l.subsets, final, e);
    } else if e.final == final && e.id < cfg.Size() && e.genuine && 0 < |e.responses| <= |l.subsets| {
      ResponseListened(cfg, l, final, e.id, e.responses, e.generated);
    } else {
      SameListened(cfg, l.subsets, final, e);
    }
  }

  // ---------- the challenge ----------

  lemma LaunchWaits(cfg: Config, l: Leader, shuffles: seq<seq<nat>>)
    requires ValidSession(cfg) && CommitsOk(cfg, l) && Accepting(l.state)
    requires cfg.com.quorum <= l.commitCounter && Shuffles(cfg, l, shuffles)
    ensures AllWait(cfg, Launch(cfg, l, shuffles).leader.subsets)
  {
    GeneratedSizes(cfg, l, shuffles);
  }

  lemma ChallengeStep(cfg: Config, l: Leader, e: Event)
    requires ValidSession(cfg) && SessionInv(cfg, l) && !Challenging(l.state)
    requires Enabled(cfg, l, e) && Defined(cfg, l, e) && Challenging(Step(cfg, l, e).leader.state)
    ensures AllWait(cfg, Step(cfg, l, e).leader.subsets)
  {
    match e
    case StartEvent(_, _) =>
    case CommitEvent(final, id, genuine, infos) =>
      if CommitAccepted(cfg, l, final, id, genuine, infos) {
        var l' := RecordCommit(l, id, infos);
        RecordKeepsCommitsOk(cfg, l, id, infos);
        if cfg.NumSubsets() == 1 && l'.commitCounter == cfg.com.quorum {
          LaunchWaits(cfg, l', [Peers(l'.commitMap, cfg.self)]);
        }
      }
    case WindowEvent(shuffles) =>
      if l.commitCounter >= cfg.com.quorum {
        LaunchWaits(cfg, l.(windowOpen := false), shuffles);
      }
    case ResponseEvent(_, _, _, _, _) =>
    case FailureEvent(_, _) =>
  }

  // ---------- runs ----------

  lemma {:induction false} RunWaits(cfg: Config, r: Run, i: nat)
    requires IsRun(cfg, r) && WithoutFailure(cfg, r) && i < |r.states| && Challenging(r.states[i].state)
    ensures AllWait(cfg, r.states[i].subsets)
    decreases i
  {
    if i > 0 {
      var l, e := r.states[i - 1], r.events[i - 1];
      RunInv(cfg, r, i - 1);
      assert StepAt(cfg, r, i - 1);
      if Challenging(l.state) {
        RunWaits(cfg, r, i - 1);
        RunAdvances(cfg, r, i - 1);
        AwaitingStep(cfg, l, e, l.state.FinalChallengeDone?);
      } else {
        ChallengeStep(cfg, l, e);
      }
    }
  }

  /** Between two states of one round, every state is of that round. */
  lemma SameRound(cfg: Config, r: Run, i: nat, k: nat, j: nat)
    requires IsRun(cfg, r) && WithoutFailure(cfg, r) && i <= k <= j < |r.states|
    requires r.states[i].state == r.states[j].state
    ensures r.states[k].state == r.states[i].state
  {
    RunMovesForward(cfg, r, i, k);
    RunMovesForward(cfg, r, k, j);
  }

  lemma {:induction false} RunGrows(cfg: Config, r: Run, i: nat, j: nat)
    requires IsRun(cfg, r) && WithoutFailure(cfg, r) && i <= j < |r.states|
    requires Challenging(r.states[i].state) && r.states[j].state == r.states[i].state
    ensures AllGrown(r.states[i].subsets, r.states[j].subsets)
    decreases j
  {
    if i < j {
      SameRound(cfg, r, i, j - 1, j);
      RunGrows(cfg, r, i, j - 1);
      RunListens(cfg, r, j - 1);
    }
  }

  lemma RunListens(cfg: Config, r: Run, t: nat)
    requires IsRun(cfg, r) && WithoutFailure(cfg, r) && t < |r.events|
    requires Challenging(r.states[t].state) && r.states[t + 1].state == r.states[t].state
    ensures SubsetsSized(cfg, r.states[t].subsets)
    ensures Listened(cfg, r.states[t].subsets, r.states[t + 1].subsets, r.states[t].state.FinalChallengeDone?,
      r.events[t])
  {
    RunInv(cfg, r, t);
    RunWaits(cfg, r, t);
    assert StepAt(cfg, r, t);
    AwaitingStep(cfg, r.states[t], r.events[t], r.states[t].state.FinalChallengeDone?);
  }

  /** An answer that passes is on record for the rest of the round. */
  lemma AnswerStays(cfg: Config, r: Run, i: nat, t: nat, j: nat, k: nat, id: nat)
    requires IsRun(cfg, r) && WithoutFailure(cfg, r) && i <= t < j < |r.states|
    requires Challenging(r.states[i].state) && r.states[j].state == r.states[i].state
    requires SubsetsSized(cfg, r.states[i].subsets) && k < |r.states[i].subsets|
    requires Answers(cfg, r.states[i].subsets, r.states[i].state.FinalChallengeDone?, k, id, r.events[t])
    ensures AllGrown(r.states[i].subsets, r.states[j].subsets) && r.states[j].subsets[k].responseMap[id]
  {
    SameRound(cfg, r, i, t, j);
    SameRound(cfg, r, i, t + 1, j);
    RunGrows(cfg, r, i, t);
    RunListens(cfg, r, t);
    RunGrows(cfg, r, t + 1, j);
    RunGrows(cfg, r, i, j);
    assert Answers(cfg, r.states[t].subsets, r.states[i].state.FinalChallengeDone?, k, id, r.events[t]);
  }

  ghost predicate AnsweredIn(cfg: Config, r: Run, i: nat, j: nat, k: nat, id: nat)
    requires i <= j <= |r.events| && |r.states| == |r.events| + 1
    requires SubsetsSized(cfg, r.states[i].subsets) && k < |r.states[i].subsets|
  {
    exists t: nat :: i <= t < j &&
      Answers(cfg, r.states[i].subsets, r.states[i].state.FinalChallengeDone?, k, id, r.events[t])
  }

  /** Subset `k` hears from all its members but the leader between `i` and `j`, in any order and among anything. */
  ghost predicate AllAnswer(cfg: Config, r: Run, i: nat, j: nat, k: nat)
    requires i <= j <= |r.events| && |r.states| == |r.events| + 1
    requires SubsetsSized(cfg, r.states[i].subsets) && k < |r.states[i].subsets|
  {
    forall id: nat :: id in Ones(r.states[i].subsets[k].commitMap) && id != cfg.self ==> AnsweredIn(cfg, r, i, j, k, id)
  }

  /** Then the round is over at `j`. */
  lemma RoundEnds(cfg: Config, r: Run, i: nat, j: nat, k: nat)
    requires IsRun(cfg, r) && WithoutFailure(cfg, r) && i <= j < |r.states| && Challenging(r.states[i].state)
    requires SubsetsSized(cfg, r.states[i].subsets) && k < |r.states[i].subsets| && AllAnswer(cfg, r, i, j, k)
    ensures Rank(r.states[j].state) > Rank(r.states[i].state)
  {
    RunMovesForward(cfg, r, i, j);
    if r.states[j].state == r.states[i].state {
      RunGrows(cfg, r, i, j);
      RunWaits(cfg, r, j);
      RunInv(cfg, r, j);
      var sub := r.states[j].subsets[k];
      forall id: nat | id in Ones(sub.commitMap)
        ensures id in Ones(sub.responseMap)
      {
        if id != cfg.self {
          assert AnsweredIn(cfg, r, i, j, k, id);
          var t: nat :| i <= t < j &&
            Answers(cfg, r.states[i].subsets, r.states[i].state.FinalChallengeDone?, k, id, r.events[t]);
          AnswerStays(cfg, r, i, t, j, k, id);
        }
      }
      SubsetCard(Ones(sub.commitMap), Ones(sub.responseMap));
      assert false;
    }
  }

  // ---------- commits ----------

  /** A commit of member `id` that passes the leader's checks in this round. */
  ghost predicate Commits(cfg: Config, final: bool, id: nat, e: Event) {
    && e.CommitEvent? && e.final == final && e.id == id && id < cfg.Size() && e.genuine
    && |e.infos| == cfg.NumSubsets() && CommitsVerify(cfg.com.suite, e.infos)
  }

  lemma AcceptingStep(cfg: Config, l: Leader, e: Event, id: nat)
    requires ValidSession(cfg) && SessionInv(cfg, l) && Accepting(l.state) && Enabled(cfg, l, e) && Defined(cfg, l, e)
    requires Step(cfg, l, e).leader.state == l.state
    ensures var l' := Step(cfg, l, e).leader;
      && Within(l.commitMap, l'.commitMap)
      && (Commits(cfg, l.state.CollectiveSigDone?, id, e) ==> id < |l'.commitMap| && l'.commitMap[id])
      && (cfg.NumSubsets() == 1 && l.commitCounter < cfg.com.quorum ==> l'.commitCounter < cfg.com.quorum)
  {
    match e
    case StartEvent(_, _) =>
    case CommitEvent(_, _, _, _) =>
    case WindowEvent(_) =>
    case ResponseEvent(_, _, _, _, _) =>
    case FailureEvent(_, _) =>
  }

  lemma FinishResets(cfg: Config, l: Leader, k: nat, generated: Bytes)
    requires SubsetsSized(cfg, l.subsets) && k < |l.subsets| && cfg.self < cfg.Size()
    ensures var l' := FinishSubset(cfg, l, k, false, generated).leader;
      l'.state == l.state || l'.commitCounter == 1
  {}

  lemma {:induction false} CountingResets(cfg: Config, l: Leader, id: nat, responses: seq<int>, upto: nat,
                                          generated: Bytes, res: Result)
    requires SubsetsSized(cfg, l.subsets) && upto <= |responses| && upto <= |l.subsets| && cfg.self < cfg.Size()
    requires res == CountResponses(cfg, l, false, id, responses, upto, generated)
    ensures res.leader.state == l.state || res.leader.commitCounter == 1
    decreases upto
  {
    if upto > 0 {
      var k := upto - 1;
      if !ResponseCounts(cfg, l.subsets[k], false, id, responses[k]) {
        CountingResets(cfg, l, id, responses, k, generated, res);
      } else {
        var sub := RecordResponse(l.subsets[k], id, responses[k]);
        var l' := l.(subsets := l.subsets[k := sub]);
        if sub.responseCounter == cfg.com.quorum {
          FinishResets(cfg, l', k, generated);
        } else {
          CountingResets(cfg, l', id, responses, k, generated, res);
        }
      }
    }
  }

  /** Commits are counted from the leader's own. */
  lemma OpeningStep(cfg: Config, l: Leader, e: Event)
    requires ValidSession(cfg) && SessionInv(cfg, l) && Enabled(cfg, l, e) && Defined(cfg, l, e)
    requires !Accepting(l.state) && (l.state.Initial? ==> l.commitCounter == 1)
    requires Advances(cfg, l, Step(cfg, l, e)) && Step(cfg, l, e).sent != Some(ConsensusFailure)
    ensures var l' := Step(cfg, l, e).leader; l'.state.Initial? || Accepting(l'.state) ==> l'.commitCounter == 1
  {
    if e.ResponseEvent? && l.state == AwaitingState(e.final) && 0 < |e.responses| <= |l.subsets| {
      var res := CountResponses(cfg, l, e.final, e.id, e.responses, |e.responses|, e.generated);
      if !e.final {
        CountingResets(cfg, l, e.id, e.responses, |e.responses|, e.generated, res);
      }
    }
  }

  /** With a single subset the challenge goes out with the quorum's last commit, so fewer are in before it. */
  lemma {:induction false} RunShort(cfg: Config, r: Run, i: nat)
    requires IsRun(cfg, r) && WithoutFailure(cfg, r) && i < |r.states|
    ensures r.states[i].state.Initial? ==> r.states[i].commitCounter == 1
    ensures cfg.NumSubsets() == 1 && Accepting(r.states[i].state) ==> r.states[i].commitCounter < cfg.com.quorum
    decreases i
  {
    if i > 0 {
      var l, e := r.states[i - 1], r.events[i - 1];
      RunShort(cfg, r, i - 1);
      RunInv(cfg, r, i - 1);
      RunAdvances(cfg, r, i - 1);
      assert StepAt(cfg, r, i - 1) && r.sent[i - 1] != Some(ConsensusFailure);
      if !Accepting(l.state) {
        OpeningStep(cfg, l, e);
      } else if r.states[i].state == l.state {
        AcceptingStep(cfg, l, e, 0);
      }
    }
  }

  lemma {:induction false} CommitsGrow(cfg: Config, r: Run, i: nat, j: nat)
    requires IsRun(cfg, r) && WithoutFailure(cfg, r) && i <= j < |r.states|
    requires Accepting(r.states[i].state) && r.states[j].state == r.states[i].state
    ensures Within(r.states[i].commitMap, r.states[j].commitMap)
    decreases j
  {
    if i < j {
      SameRound(cfg, r, i, j - 1, j);
      CommitsGrow(cfg, r, i, j - 1);
      RunInv(cfg, r, j - 1);
      assert StepAt(cfg, r, j - 1);
      AcceptingStep(cfg, r.states[j - 1], r.events[j - 1], 0);
    }
  }

  lemma CommitStays(cfg: Config, r: Run, i: nat, t: nat, j: nat, id: nat)
    requires IsRun(cfg, r) && WithoutFailure(cfg, r) && i <= t < j < |r.states|
    requires Accepting(r.states[i].state) && r.states[j].state == r.states[i].state
    requires Commits(cfg, r.states[i].state.CollectiveSigDone?, id, r.events[t])
    ensures id in Ones(r.states[j].commitMap)
  {
    SameRound(cfg, r, i, t, j);
    SameRound(cfg, r, i, t + 1, j);
    RunInv(cfg, r, t);
    assert StepAt(cfg, r, t);
    AcceptingStep(cfg, r.states[t], r.events[t], id);
    CommitsGrow(cfg, r, t + 1, j);
  }

  ghost predicate CommitsIn(cfg: Config, r: Run, i: nat, j: nat, id: nat)
    requires i <= j <= |r.events| && |r.states| == |r.events| + 1
  {
    exists t: nat :: i <= t < j && Commits(cfg, r.states[i].state.CollectiveSigDone?, id, r.events[t])
  }

  ghost function Committers(cfg: Config, r: Run, i: nat, j: nat): set<nat>
    requires i <= j <= |r.events| && |r.states| == |r.events| + 1
  {
    set id: nat | id < cfg.Size() && CommitsIn(cfg, r, i, j, id)
  }

  /**
    Enough commits between `i` and `j`: a quorum with the leader's own or, with several subsets, the end of the
    window.
  */
  ghost predicate EnoughCommit(cfg: Config, r: Run, i: nat, j: nat)
    requires i <= j <= |r.events| && |r.states| == |r.events| + 1
  {
    if cfg.NumSubsets() == 1 then |Committers(cfg, r, i, j) + {cfg.self}| >= cfg.com.quorum
    else exists t :: i <= t < j && r.events[t].WindowEvent?
  }

  /** Then the commits have been challenged at `j`, or a window closed short. */
  lemma CommitsEnd(cfg: Config, r: Run, i: nat, j: nat)
    requires IsRun(cfg, r) && WithoutFailure(cfg, r) && i <= j < |r.states| && Accepting(r.states[i].state)
    requires EnoughCommit(cfg, r, i, j)
    ensures Rank(r.states[j].state) > Rank(r.states[i].state)
  {
    RunMovesForward(cfg, r, i, j);
    if cfg.NumSubsets() == 1 {
      SingleEnds(cfg, r, i, j);
    } else {
      var t :| i <= t < j && r.events[t].WindowEvent?;
      WindowMoves(cfg, r, t);
      RunMovesForward(cfg, r, i, t);
      RunMovesForward(cfg, r, t + 1, j);
    }
  }

  lemma WindowMoves(cfg: Config, r: Run, t: nat)
    requires IsRun(cfg, r) && WithoutFailure(cfg, r) && t < |r.events| && r.events[t].WindowEvent?
    ensures Rank(r.states[t + 1].state) > Rank(r.states[t].state)
  {
    RunInv(cfg, r, t);
    assert StepAt(cfg, r, t);
  }

  lemma SingleEnds(cfg: Config, r: Run, i: nat, j: nat)
    requires IsRun(cfg, r) && WithoutFailure(cfg, r) && i <= j < |r.states| && Accepting(r.states[i].state)
    requires cfg.NumSubsets() == 1 && EnoughCommit(cfg, r, i, j)
    ensures r.states[j].state != r.states[i].state
  {
    if r.states[j].state == r.states[i].state {
      RunShort(cfg, r, j);
      RunInv(cfg, r, j);
      var commitMap := r.states[j].commitMap;
      forall id | id in Committers(cfg, r, i, j) + {cfg.self}
        ensures id in Ones(commitMap)
      {
        if id != cfg.self {
          var t: nat :| i <= t < j && Commits(cfg, r.states[i].state.CollectiveSigDone?, id, r.events[t]);
          CommitStays(cfg, r, i, t, j, id);
        }
      }
      SubsetCard(Committers(cfg, r, i, j) + {cfg.self}, Ones(commitMap));
      assert false;
    }
  }

  // ---------- both rounds ----------

  /** No commit window closes with fewer commits than a quorum. */
  ghost predicate NoShortWindow(cfg: Config, r: Run)
    requires |r.states| == |r.events| + 1
  {
    forall t :: 0 <= t < |r.events| && r.events[t].WindowEvent? ==> r.states[t].commitCounter >= cfg.com.quorum
  }

  lemma {:induction false} NoError(cfg: Config, r: Run, i: nat)
    requires IsRun(cfg, r) && WithoutFailure(cfg, r) && NoShortWindow(cfg, r) && i < |r.states|
    ensures !r.states[i].state.Error?
    decreases i
  {
    if i > 0 {
      NoError(cfg, r, i - 1);
      RunInv(cfg, r, i - 1);
      RunAdvances(cfg, r, i - 1);
      assert StepAt(cfg, r, i - 1);
    }
  }

  ghost predicate SomeSubsetAnswers(cfg: Config, r: Run, i: nat, j: nat)
    requires i <= j <= |r.events| && |r.states| == |r.events| + 1
  {
    && SubsetsSized(cfg, r.states[i].subsets)
    && exists k: nat :: k < |r.states[i].subsets| && AllAnswer(cfg, r, i, j, k)
  }

  /**
    A leader that has announced finishes both rounds once, in each, a quorum has committed and all members of one
    challenged subset have answered. Forged, late, repeated and useless messages change nothing.
  */
  lemma LeaderFinishes(cfg: Config, r: Run, i: nat, a: nat, b: nat, c: nat, d: nat)
    requires IsRun(cfg, r) && WithoutFailure(cfg, r) && NoShortWindow(cfg, r)
    requires i <= a <= b <= c <= d < |r.states| && !r.states[i].state.Initial?
    requires r.states[i].state.AnnounceDone? ==> EnoughCommit(cfg, r, i, a)
    requires r.states[a].state.ChallengeDone? ==> SomeSubsetAnswers(cfg, r, a, b)
    requires r.states[b].state.CollectiveSigDone? ==> EnoughCommit(cfg, r, b, c)
    requires r.states[c].state.FinalChallengeDone? ==> SomeSubsetAnswers(cfg, r, c, d)
    ensures r.states[d].state.Done?
  {
    CommitsPass(cfg, r, i, a, AnnounceDone);
    AnswersPass(cfg, r, a, b, ChallengeDone);
    CommitsPass(cfg, r, b, c, CollectiveSigDone);
    AnswersPass(cfg, r, c, d, FinalChallengeDone);
    NoError(cfg, r, d);
  }

  /** Past `state` there is no state between it and the next one the leader uses. */
  lemma CommitsPass(cfg: Config, r: Run, i: nat, j: nat, state: State)
    requires IsRun(cfg, r) && WithoutFailure(cfg, r) && i <= j < |r.states| && Accepting(state)
    requires Rank(r.states[i].state) >= Rank(state)
    requires r.states[i].state == state ==> EnoughCommit(cfg, r, i, j)
    ensures Rank(r.states[j].state) >= Rank(ChallengeState(state))
  {
    RunMovesForward(cfg, r, i, j);
    RunInv(cfg, r, j);
    if r.states[i].state == state {
      CommitsEnd(cfg, r, i, j);
    } else {
      RunInv(cfg, r, i);
    }
  }

  lemma AnswersPass(cfg: Config, r: Run, i: nat, j: nat, state: State)
    requires IsRun(cfg, r) && WithoutFailure(cfg, r) && i <= j < |r.states| && Challenging(state)
    requires Rank(r.states[i].state) >= Rank(state)
    requires r.states[i].state == state ==> SomeSubsetAnswers(cfg, r, i, j)
    ensures Rank(r.states[j].state) >= Rank(FinishedState(state.FinalChallengeDone?))
  {
    RunMovesForward(cfg, r, i, j);
    RunInv(cfg, r, j);
    if r.states[i].state == state {
      var k: nat :| k < |r.states[i].subsets| && AllAnswer(cfg, r, i, j, k);
      RoundEnds(cfg, r, i, j, k);
    } else {
      RunInv(cfg, r, i);
    }
  }
}
