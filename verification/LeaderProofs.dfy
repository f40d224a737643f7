/** What the leader keeps in every run of a session, and what its messages say. */
module LeaderProofs {
  import opened Options
  import opened Bitmaps
  import opened Lists
  import opened MultiSig
  import opened Consensus
  import opened LeaderModel

  // ---------- subset construction ----------

  /** What a built subset records about its members. */
  ghost predicate BuiltFrom(cfg: Config, pointMap: seq<seq<Point>>, ids: seq<nat>, i: nat, sub: Subset)
    requires OnRecord(cfg, pointMap, ids, i)
  {
    && SubsetSizes(cfg, sub)
    && Ones(sub.commitMap) == Elems(ids)
    && (forall x :: x in ids ==> sub.commitPointMap[x] == pointMap[x][i])
    && PointsOf(cfg, pointMap, ids, i, sub.commitPoints)
    && SumPoints(cfg.com.suite, sub.commitPoints) == SumBits(cfg.com.suite, sub.commitMap, sub.commitPointMap)
    && sub.responseMap == Blank(cfg.Size()) && sub.responseData == [] && sub.responseCounter == 0
  }

  ghost predicate PointsOf(cfg: Config, pointMap: seq<seq<Point>>, ids: seq<nat>, i: nat, points: seq<Point>)
    requires OnRecord(cfg, pointMap, ids, i)
  {
    |points| == |ids| && forall j :: 0 <= j < |ids| ==> ids[j] in ids && points[j] == pointMap[ids[j]][i]
  }

  lemma SumSnoc(s: Suite, ps: seq<Point>, p: Point)
    ensures SumPoints(s, ps + [p]) == s.add(SumPoints(s, ps), p)
  {
    assert (ps + [p])[..|ps|] == ps;
  }

  lemma AddMemberRecords(cfg: Config, pointMap: seq<seq<Point>>, ids: seq<nat>, x: nat, i: nat, sub: Subset)
    requires Lawful(cfg.com.suite) && OnRecord(cfg, pointMap, ids + [x], i) && x in ids + [x] && x !in ids
    requires OnRecord(cfg, pointMap, ids, i) && BuiltFrom(cfg, pointMap, ids, i, sub)
    ensures BuiltFrom(cfg, pointMap, ids + [x], i, AddMember(sub, x, pointMap[x][i]))
  {
    var p := pointMap[x][i];
    ElemsSnoc(ids, x);
    OnesOfUpdate(sub.commitMap, x);
    assert x !in Ones(sub.commitMap);
    SumBitsSet(cfg.com.suite, sub.commitMap, sub.commitPointMap, x, p);
    SumSnoc(cfg.com.suite, sub.commitPoints, p);
  }

  lemma NothingRecorded(cfg: Config, pointMap: seq<seq<Point>>, state: State, i: nat)
    requires |pointMap| == cfg.Size()
    ensures BuiltFrom(cfg, pointMap, [], i, NewSubset(cfg, state))
  {
    BlankHasNoOnes(cfg.Size());
    SumBitsBlank(cfg.com.suite, cfg.Size(), NewSubset(cfg, state).commitPointMap);
  }

  lemma BuildStep(cfg: Config, pointMap: seq<seq<Point>>, state: State, ids: seq<nat>, x: nat, i: nat)
    requires Lawful(cfg.com.suite) && OnRecord(cfg, pointMap, ids + [x], i) && x !in ids &&
      OnRecord(cfg, pointMap, ids, i)
    requires BuiltFrom(cfg, pointMap, ids, i, BuildSubset(cfg, pointMap, state, ids, i))
    requires BuildSubset(cfg, pointMap, state, ids, i).state == state
    ensures BuiltFrom(cfg, pointMap, ids + [x], i, BuildSubset(cfg, pointMap, state, ids + [x], i))
    ensures BuildSubset(cfg, pointMap, state, ids + [x], i).state == state
  {
    assert (ids + [x])[..|ids|] == ids && (ids + [x])[|ids|] == x;
    AddMemberRecords(cfg, pointMap, ids, x, i, BuildSubset(cfg, pointMap, state, ids, i));
  }

  lemma {:induction false} BuildSubsetRecords(cfg: Config, pointMap: seq<seq<Point>>, state: State, ids: seq<nat>,
                                              i: nat)
    requires Lawful(cfg.com.suite) && OnRecord(cfg, pointMap, ids, i) && Distinct(ids)
    ensures BuiltFrom(cfg, pointMap, ids, i, BuildSubset(cfg, pointMap, state, ids, i))
    ensures BuildSubset(cfg, pointMap, state, ids, i).state == state
    decreases |ids|
  {
    if ids == [] {
      NothingRecorded(cfg, pointMap, state, i);
    } else {
      var init, x := ids[..|ids| - 1], ids[|ids| - 1];
      assert ids == init + [x] && x !in init;
      assert forall y :: y in init ==> y in ids;
      BuildSubsetRecords(cfg, pointMap, state, init, i);
      BuildStep(cfg, pointMap, state, init, x, i);
    }
  }

  /** The one case in which a subset is not of quorum size: a quorum of one with guards to prefer. */
  predicate OversizedByGuards(cfg: Config, order: seq<nat>, i: nat) {
    cfg.guards.Some? && i == 0 && cfg.com.quorum == 1 && GuardsOf(order, cfg.guards.value) != []
  }

  lemma MembersAre(cfg: Config, order: seq<nat>, i: nat)
    requires 1 <= cfg.com.quorum && |order| >= cfg.com.quorum - 1
    requires Distinct(order) && cfg.self !in order
    ensures var ids := Members(cfg, order, i);
      && Distinct(ids)
      && cfg.self in ids
      && (forall x :: x in ids ==> x == cfg.self || x in order)
      && (|ids| == cfg.com.quorum <==> !OversizedByGuards(cfg, order, i))
  {
    if cfg.guards.Some? && i == 0 {
      var gs, os := GuardsOf(order, cfg.guards.value), OthersOf(order, cfg.guards.value);
      GuardsAndOthers(order, cfg.guards.value);
      var chosen := GuardsFirst(cfg.com.quorum, gs, os);
      forall j, k | 0 <= j < k < |chosen|
        ensures chosen[j] != chosen[k]
      {
        if j < |gs| <= k {
          assert chosen[j] in gs && chosen[k] in os;
        }
      }
      assert forall x :: x in chosen ==> x in gs || x in os;
    } else {
      assert forall x :: x in order[..cfg.com.quorum - 1] ==> x in order;
    }
  }

  /**
    Every subset of every shuffle: the leader and committed members only, as many as the quorum (but for a
    quorum of one with committed guards), and exactly their i-th commit points.
  */
  lemma SubsetConstruction(cfg: Config, l: Leader, shuffles: seq<seq<nat>>, i: nat)
    requires ValidConfig(cfg) && CommitsOk(cfg, l) && cfg.com.quorum <= l.commitCounter && Shuffles(cfg, l, shuffles)
    requires i < SubsetsToRun(cfg, l)
    ensures var order := Order(cfg, l, shuffles, i);
      var sub := GenerateSubsets(cfg, l, shuffles).subsets[i];
      && |order| >= cfg.com.quorum - 1
      && OnRecord(cfg, l.commitPointMap, Members(cfg, order, i), i)
      && BuiltFrom(cfg, l.commitPointMap, Members(cfg, order, i), i, sub)
      && (Count(sub.commitMap) == cfg.com.quorum <==> !OversizedByGuards(cfg, order, i))
      && sub.commitMap[cfg.self] && Ones(sub.commitMap) <= Ones(l.commitMap)
      && sub.state == l.state
  {
    var order := Order(cfg, l, shuffles, i);
    assert i > 0 ==> ShuffleAt(Peers(l.commitMap, cfg.self), shuffles, i - 1);
    PeersAre(l.commitMap, cfg.self);
    PermutationKeeps(Peers(l.commitMap, cfg.self), order);
    MembersOnRecord(cfg, l, order, i);
    assert cfg.self !in order by {
      assert cfg.self !in Elems(Peers(l.commitMap, cfg.self));
      assert cfg.self in order ==> cfg.self in Elems(order);
    }
    MembersAre(cfg, order, i);
    var ids := Members(cfg, order, i);
    BuildSubsetRecords(cfg, l.commitPointMap, l.state, ids, i);
    DistinctCard(ids);
    var sub := SubsetAt(cfg, l, shuffles, i);
    assert sub == GenerateSubsets(cfg, l, shuffles).subsets[i];
    assert cfg.self in Ones(sub.commitMap);
    forall x | x in Ones(sub.commitMap)
      ensures x in Ones(l.commitMap)
    {
      assert x in ids;
      assert x == cfg.self || x in Elems(order);
    }
  }

  lemma GuardsBeforeOthers(cfg: Config, order: seq<nat>, x: nat, guard: nat)
    requires 1 <= cfg.com.quorum <= |order| + 1 && cfg.guards.Some?
    requires x in Members(cfg, order, 0) && x != cfg.self && x >= cfg.guards.value
    requires guard in order && guard < cfg.guards.value
    ensures guard in Members(cfg, order, 0)
  {
    var gs, os := GuardsOf(order, cfg.guards.value), OthersOf(order, cfg.guards.value);
    GuardsAndOthers(order, cfg.guards.value);
    var chosen := GuardsFirst(cfg.com.quorum, gs, os);
    assert Members(cfg, order, 0) == [cfg.self] + chosen;
    assert x in chosen && x !in gs;
    assert guard in gs;
  }

  /** One subset runs unless more than one member has committed beyond the quorum; then all of them do. */
  lemma SubsetCount(cfg: Config, l: Leader, shuffles: seq<seq<nat>>)
    requires ValidConfig(cfg) && CommitsOk(cfg, l) && cfg.com.quorum <= l.commitCounter && Shuffles(cfg, l, shuffles)
    requires Accepting(l.state)
    ensures var r := Launch(cfg, l, shuffles);
      && |r.leader.subsets| == (if l.commitCounter > cfg.com.quorum + 1 then cfg.NumSubsets() else 1)
      && r.sent.Some? && r.sent.value.Challenge? && |r.sent.value.challenges| == |r.leader.subsets|
      && r.leader.running == |r.leader.subsets|
      && r.leader.commitMap == [] && r.leader.commitPointMap == [] && r.leader.commitPoints == []
  {
    PeerCount(l.commitMap, cfg.self);
    GeneratedSizes(cfg, l, shuffles);
  }

  /** `x` stands before `y`. */
  ghost predicate Before(order: seq<nat>, x: nat, y: nat) {
    exists a: nat, b: nat :: a < b < |order| && order[a] == x && order[b] == y
  }

  lemma BeforeInPrefix(order: seq<nat>, x: nat, y: nat, n: nat)
    requires Distinct(order) && Before(order, x, y) && n <= |order| && y in order[..n]
    ensures x in order[..n]
  {
    var a: nat, b: nat :| a < b < |order| && order[a] == x && order[b] == y;
    var c :| 0 <= c < n && order[..n][c] == y;
    assert order[c] == order[b] && c == b;
    assert order[..n][a] == x;
  }

  lemma BeforeInLonger(order: seq<nat>, longer: seq<nat>, x: nat, y: nat)
    requires order <= longer && Before(order, x, y)
    ensures Before(longer, x, y)
  {
    var a: nat, b: nat :| a < b < |order| && order[a] == x && order[b] == y;
    assert longer[a] == x && longer[b] == y;
  }

  lemma BeforeTheLast(order: seq<nat>, x: nat, y: nat)
    requires x in order
    ensures Before(order + [y], x, y)
  {
    var a :| 0 <= a < |order| && order[a] == x;
    assert (order + [y])[a] == x && (order + [y])[|order|] == y;
  }

  function Picked(order: seq<nat>, guards: nat, wanted: bool): seq<nat> {
    if wanted then GuardsOf(order, guards) else OthersOf(order, guards)
  }

  /** Picking out the guards, or the others, keeps their order. */
  lemma {:induction false} PickKeepsOrder(order: seq<nat>, guards: nat, x: nat, y: nat)
    requires Before(order, x, y) && (x < guards <==> y < guards)
    ensures Before(Picked(order, guards, x < guards), x, y)
    decreases |order|
  {
    var a: nat, b: nat :| a < b < |order| && order[a] == x && order[b] == y;
    var init := order[..|order| - 1];
    assert init[a] == x;
    if b < |init| {
      assert init[b] == y;
      PickKeepsOrder(init, guards, x, y);
      BeforeInLonger(Picked(init, guards, x < guards), Picked(order, guards, x < guards), x, y);
    } else {
      GuardsAndOthers(init, guards);
      BeforeTheLast(Picked(init, guards, x < guards), x, y);
    }
  }

  /** A subset takes the committed peers in the order of its shuffle: guards among guards, others among others. */
  lemma EarlierFirst(cfg: Config, l: Leader, shuffles: seq<seq<nat>>, i: nat, x: nat, y: nat)
    requires ValidConfig(cfg) && CommitsOk(cfg, l) && cfg.com.quorum <= l.commitCounter && Shuffles(cfg, l, shuffles)
    requires i < SubsetsToRun(cfg, l) && Before(Order(cfg, l, shuffles, i), x, y)
    requires i == 0 && cfg.guards.Some? ==> (x < cfg.guards.value <==> y < cfg.guards.value)
    requires y in Ones(GenerateSubsets(cfg, l, shuffles).subsets[i].commitMap) && y != cfg.self
    ensures x in Ones(GenerateSubsets(cfg, l, shuffles).subsets[i].commitMap)
  {
    var order := Order(cfg, l, shuffles, i);
    SubsetConstruction(cfg, l, shuffles, i);
    assert i > 0 ==> ShuffleAt(Peers(l.commitMap, cfg.self), shuffles, i - 1);
    PeersAre(l.commitMap, cfg.self);
    PermutationKeeps(Peers(l.commitMap, cfg.self), order);
    assert y in Elems(Members(cfg, order, i));
    if i == 0 && cfg.guards.Some? {
      PickKeepsOrder(order, cfg.guards.value, x, y);
      GuardsAndOthers(order, cfg.guards.value);
      PickedFirst(cfg, order, x, y);
    } else {
      assert y in order[..cfg.com.quorum - 1];
      BeforeInPrefix(order, x, y, cfg.com.quorum - 1);
    }
    assert x in Elems(Members(cfg, order, i));
  }

  lemma PickedFirst(cfg: Config, order: seq<nat>, x: nat, y: nat)
    requires 1 <= cfg.com.quorum && |order| >= cfg.com.quorum - 1 && cfg.guards.Some? && Distinct(order)
    requires x < cfg.guards.value <==> y < cfg.guards.value
    requires Before(Picked(order, cfg.guards.value, x < cfg.guards.value), x, y)
    requires y in Members(cfg, order, 0) && y != cfg.self
    ensures x in Members(cfg, order, 0)
  {
    var g, q := cfg.guards.value, cfg.com.quorum;
    var gs, os := GuardsOf(order, g), OthersOf(order, g);
    GuardsAndOthers(order, g);
    assert y in GuardsFirst(q, gs, os);
    if x < g {
      assert y !in os;
      if q == 1 || |gs| < q - 1 {
        assert x in gs;
      } else {
        BeforeInPrefix(gs, x, y, q - 1);
      }
    } else {
      assert y !in gs;
      assert q > 1 && |gs| < q - 1;
      BeforeInPrefix(os, x, y, q - 1 - |gs|);
    }
  }

  /** In guard mode the first subset holds a non-guard besides the leader only if it holds every committed guard. */
  lemma GuardPreference(cfg: Config, l: Leader, shuffles: seq<seq<nat>>, x: nat, guard: nat)
    requires ValidConfig(cfg) && CommitsOk(cfg, l) && cfg.com.quorum <= l.commitCounter && Shuffles(cfg, l, shuffles)
    requires cfg.guards.Some?
    requires x in Ones(GenerateSubsets(cfg, l, shuffles).subsets[0].commitMap) && x != cfg.self && x >= cfg.guards.value
    requires guard in Ones(l.commitMap) && guard < cfg.guards.value
    ensures guard in Ones(GenerateSubsets(cfg, l, shuffles).subsets[0].commitMap)
  {
    SubsetConstruction(cfg, l, shuffles, 0);
    var order := Order(cfg, l, shuffles, 0);
    assert x in Elems(Members(cfg, order, 0));
    if guard != cfg.self {
      PeersAre(l.commitMap, cfg.self);
      GuardsBeforeOthers(cfg, order, x, guard);
      assert guard in Elems(Members(cfg, order, 0));
    }
  }

  // ---------- the session invariant ----------

  /** A challenged subset. */
  ghost predicate SubsetInv(cfg: Config, sub: Subset, message: Bytes) {
    var s := cfg.com.suite;
    && SubsetSizes(cfg, sub)
    && Count(sub.commitMap) == cfg.com.quorum
    && sub.challenge == s.challenge(SumBits(s, sub.commitMap, sub.commitPointMap),
      SumBits(s, sub.commitMap, cfg.com.keys), message)
    && Within(sub.responseMap, sub.commitMap)
    && sub.responseCounter == Count(sub.responseMap) == |sub.responseData|
    && SumInts(sub.responseData) == SumIntBits(sub.responseMap, sub.responseDataMap)
    && (forall i :: 0 <= i < cfg.Size() && sub.responseMap[i] ==>
          VerifyResponse(s, sub.responseDataMap[i], sub.challenge, cfg.com.keys[i], sub.commitPointMap[i]))
  }

  predicate Challenging(state: State) {
    state.ChallengeDone? || state.FinalChallengeDone?
  }

  /** A session: a quorum of one never completes a subset, so it is left out. */
  ghost predicate ValidSession(cfg: Config) {
    ValidConfig(cfg) && 2 <= cfg.com.quorum
  }

  ghost predicate SessionInv(cfg: Config, l: Leader) {
    && SubsetsSized(cfg, l.subsets)
    && l.state !in {CommitDone, ResponseDone, FinalCommitDone, FinalResponseDone}
    && (l.state.Initial? || Accepting(l.state) ==> CommitsOk(cfg, l))
    && (l.windowOpen <==> Accepting(l.state) && cfg.NumSubsets() > 1)
    && (Challenging(l.state) ==> |l.subsets| >= 1 && SubsetsInv(cfg, l.subsets, l.message, l.state))
  }

  ghost predicate SubsetsInv(cfg: Config, subs: seq<Subset>, message: Bytes, state: State) {
    forall i :: 0 <= i < |subs| ==> SubsetInv(cfg, subs[i], message) && subs[i].state == state
  }

  /**
    A quorum of responses is the whole subset, so the key aggregated for the signature is the one hashed
    into the challenge, and the signature verifies, whoever sent the responses and in whatever order.
  */
  lemma FullSubsetSigns(cfg: Config, sub: Subset, message: Bytes)
    requires ValidConfig(cfg) && SubsetInv(cfg, sub, message) && sub.responseCounter == cfg.com.quorum
    ensures sub.responseMap == sub.commitMap
    ensures MultiSigVerify(cfg.com.suite, message, CollectiveSigOf(sub),
      SumBits(cfg.com.suite, sub.responseMap, cfg.com.keys))
  {
    FullWithin(sub.responseMap, sub.commitMap);
    CoSignatureVerifies(cfg.com.suite, message, sub.commitMap, sub.responseDataMap, cfg.com.keys, sub.commitPointMap,
      sub.challenge);
  }

  lemma RecordResponseKeeps(cfg: Config, sub: Subset, message: Bytes, final: bool, id: nat, response: int)
    requires ValidConfig(cfg) && SubsetInv(cfg, sub, message) && ResponseCounts(cfg, sub, final, id, response)
    ensures SubsetInv(cfg, RecordResponse(sub, id, response), message)
  {
    OnesOfUpdate(sub.responseMap, id);
    SumIntBitsSet(sub.responseMap, sub.responseDataMap, id, response);
    assert (sub.responseData + [response])[..|sub.responseData|] == sub.responseData;
  }

  lemma FreshInv(cfg: Config)
    requires ValidConfig(cfg)
    ensures SessionInv(cfg, Fresh(cfg))
  {
    BlankHasNoOnes(cfg.Size());
    OnesOfUpdate(Blank(cfg.Size()), cfg.self);
  }

  /** A subset before its challenge, holding `own` as the leader's commit. */
  ghost predicate Unchallenged(cfg: Config, sub: Subset, own: Point) {
    && SubsetSizes(cfg, sub) && cfg.self < cfg.Size()
    && Count(sub.commitMap) == cfg.com.quorum
    && sub.commitMap[cfg.self] && sub.commitPointMap[cfg.self] == own
    && SumPoints(cfg.com.suite, sub.commitPoints) == SumBits(cfg.com.suite, sub.commitMap, sub.commitPointMap)
    && sub.responseMap == Blank(cfg.Size()) && sub.responseData == [] && sub.responseCounter == 0
  }

  lemma ChallengedKeeps(cfg: Config, sub: Subset, message: Bytes, state: State, secret: int)
    requires ValidConfig(cfg) && Unchallenged(cfg, sub, cfg.com.suite.mul(secret, cfg.com.suite.g))
    ensures SubsetInv(cfg, Challenged(cfg, message, sub, state, secret), message)
  {
    var sub' := Challenged(cfg, message, sub, state, secret);
    BlankHasNoOnes(cfg.Size());
    OnesOfUpdate(sub.responseMap, cfg.self);
    assert sub'.responseData[..0] == [];
    SumIntBitsBlank(cfg.Size(), sub.responseDataMap);
    SumIntBitsSet(sub.responseMap, sub.responseDataMap, cfg.self, sub'.responseDataMap[cfg.self]);
    HonestResponseVerifies(cfg.com.suite, secret, sub'.challenge, cfg.privKey);
  }

  lemma SubsetsUnchallenged(cfg: Config, l: Leader, shuffles: seq<seq<nat>>, i: nat)
    requires ValidSession(cfg) && CommitsOk(cfg, l) && cfg.com.quorum <= l.commitCounter
    requires Shuffles(cfg, l, shuffles) && i < SubsetsToRun(cfg, l)
    ensures var sub := SubsetAt(cfg, l, shuffles, i);
      Unchallenged(cfg, sub, OwnCommits(cfg)[i]) && sub.state == l.state
  {
    SubsetConstruction(cfg, l, shuffles, i);
    assert SubsetAt(cfg, l, shuffles, i) == GenerateSubsets(cfg, l, shuffles).subsets[i];
    assert cfg.self in Members(cfg, Order(cfg, l, shuffles, i), i);
  }

  lemma ChallengedInv(cfg: Config, l: Leader, shuffles: seq<seq<nat>>, i: nat)
    requires ValidSession(cfg) && CommitsOk(cfg, l) && Accepting(l.state)
    requires cfg.com.quorum <= l.commitCounter && Shuffles(cfg, l, shuffles) && i < SubsetsToRun(cfg, l)
    ensures var sub := SubsetAt(cfg, l, shuffles, i);
      && SubsetSizes(cfg, sub)
      && var sub' := Challenged(cfg, l.message, sub, ChallengeState(l.state), cfg.secrets[i]);
      && SubsetInv(cfg, sub', l.message)
      && sub'.state == ChallengeState(l.state)
  {
    SubsetsUnchallenged(cfg, l, shuffles, i);
    ChallengedKeeps(cfg, SubsetAt(cfg, l, shuffles, i), l.message, ChallengeState(l.state), cfg.secrets[i]);
  }

  lemma LaunchInv(cfg: Config, l: Leader, shuffles: seq<seq<nat>>)
    requires ValidSession(cfg) && CommitsOk(cfg, l) && Accepting(l.state) && !l.windowOpen
    requires cfg.com.quorum <= l.commitCounter && Shuffles(cfg, l, shuffles)
    ensures SessionInv(cfg, Launch(cfg, l, shuffles).leader)
  {
    GeneratedSizes(cfg, l, shuffles);
    var l' := Launch(cfg, l, shuffles).leader;
    forall i | 0 <= i < |l'.subsets|
      ensures SubsetInv(cfg, l'.subsets[i], l'.message) && l'.subsets[i].state == l'.state
    {
      ChallengedInv(cfg, l, shuffles, i);
    }
  }

  lemma CloseRoundKeeps(cfg: Config, l: Leader, final: bool, sig: Signature, bitmap: Bitmap)
    requires ValidConfig(cfg)
    ensures var l' := CloseRound(cfg, l, final, sig, bitmap);
      && l'.subsets == l.subsets && l'.state == l.state && l'.windowOpen == l.windowOpen
      && (!final ==> CommitsOk(cfg, l'))
  {
    BlankHasNoOnes(cfg.Size());
    OnesOfUpdate(Blank(cfg.Size()), cfg.self);
  }

  /** A full subset's signature always passes the leader's own check; the other subsets are reset. */
  lemma FinishSucceeds(cfg: Config, l: Leader, k: nat, final: bool, generated: Bytes)
    requires ValidConfig(cfg) && SubsetsSized(cfg, l.subsets) &&
      SubsetsInv(cfg, l.subsets, l.message, AwaitingState(final))
    requires k < |l.subsets| && l.subsets[k].responseCounter == cfg.com.quorum
    ensures var r := FinishSubset(cfg, l, k, final, generated);
      && r.ok
      && r.leader.state == FinishedState(final)
      && |r.leader.subsets| == |l.subsets|
      && (forall i :: 0 <= i < |l.subsets| ==>
            r.leader.subsets[i].state == if i == k then FinishedState(final) else Initial)
  {
    FullSubsetSigns(cfg, l.subsets[k], l.message);
  }

  function EndedAll(l: Leader, ks: seq<nat>): (l': Leader)
    requires forall i :: 0 <= i < |ks| ==> ks[i] < |l.subsets|
    ensures |l'.subsets| == |l.subsets|
  {
    if ks == [] then l else SubsetEnded(EndedAll(l, ks[..|ks| - 1]), ks[|ks| - 1])
  }

  /** Subsets that end without a signature stop the leader exactly when the last one running does. */
  lemma {:induction false} AllSubsetsFail(l: Leader, ks: seq<nat>)
    requires forall i :: 0 <= i < |ks| ==> ks[i] < |l.subsets|
    requires forall k :: 0 <= k < |l.subsets| ==> l.subsets[k].state !in {CollectiveSigDone, Done}
    requires |ks| <= l.running && !l.state.Error?
    ensures EndedAll(l, ks) ==
      l.(running := l.running - |ks|, state := if |ks| == l.running > 0 then Error else l.state)
    decreases |ks|
  {
    if ks != [] {
      AllSubsetsFail(l, ks[..|ks| - 1]);
    }
  }

  lemma EndedSizes(cfg: Config, l: Leader, k: nat)
    requires SubsetsSized(cfg, l.subsets) && k < |l.subsets| && l.subsets[k].state in {CollectiveSigDone, Done}
    ensures var l' := SubsetEnded(l, k);
      && SubsetsSized(cfg, l'.subsets)
      && l' == l.(subsets := l'.subsets, state := l.subsets[k].state)
  {}

  lemma FinishSubsetInv(cfg: Config, l: Leader, k: nat, final: bool, generated: Bytes)
    requires ValidSession(cfg) && SubsetsSized(cfg, l.subsets) && SubsetsInv(cfg, l.subsets, l.message, l.state)
    requires l.state == AwaitingState(final) && !l.windowOpen
    requires k < |l.subsets| && l.subsets[k].responseCounter == cfg.com.quorum
    ensures SessionInv(cfg, FinishSubset(cfg, l, k, final, generated).leader)
  {
    var sub := l.subsets[k];
    FullSubsetSigns(cfg, sub, l.message);
    var sig := CollectiveSigOf(sub);
    var l1 := Signed(l, k, final, sub.(collectiveSig := sig), generated);
    CloseRoundKeeps(cfg, l1, final, sig, sub.responseMap);
    var l2 := CloseRound(cfg, l1, final, sig, sub.responseMap);
    EndedSizes(cfg, l2, k);
  }

  lemma RecordKeepsSubsets(cfg: Config, subs: seq<Subset>, message: Bytes, final: bool, k: nat, id: nat, response: int)
    requires ValidConfig(cfg) && SubsetsSized(cfg, subs) && SubsetsInv(cfg, subs, message, AwaitingState(final)) &&
      k < |subs|
    requires ResponseCounts(cfg, subs[k], final, id, response)
    ensures var subs' := subs[k := RecordResponse(subs[k], id, response)];
      SubsetsSized(cfg, subs') && SubsetsInv(cfg, subs', message, AwaitingState(final))
  {
    RecordResponseKeeps(cfg, subs[k], message, final, id, response);
  }

  lemma {:induction false} CountResponsesInv(cfg: Config, l: Leader, final: bool, id: nat, responses: seq<int>,
                                             upto: nat, generated: Bytes, res: Result)
    requires ValidSession(cfg) && SubsetsSized(cfg, l.subsets) && SubsetsInv(cfg, l.subsets, l.message, l.state)
    requires l.state == AwaitingState(final) && !l.windowOpen && |l.subsets| >= 1
    requires upto <= |responses| && upto <= |l.subsets|
    requires res == CountResponses(cfg, l, final, id, responses, upto, generated)
    ensures SessionInv(cfg, res.leader)
    decreases upto
  {
    if upto > 0 {
      var k := upto - 1;
      if !ResponseCounts(cfg, l.subsets[k], final, id, responses[k]) {
        CountResponsesInv(cfg, l, final, id, responses, k, generated, res);
      } else {
        RecordKeepsSubsets(cfg, l.subsets, l.message, final, k, id, responses[k]);
        var sub := RecordResponse(l.subsets[k], id, responses[k]);
        var l' := l.(subsets := l.subsets[k := sub]);
        if sub.responseCounter == cfg.com.quorum {
          FinishSubsetInv(cfg, l', k, final, generated);
        } else {
          CountResponsesInv(cfg, l', final, id, responses, k, generated, res);
        }
      }
    }
  }
}
