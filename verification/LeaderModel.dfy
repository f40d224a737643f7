/**
  `ConsensusLeader` as functions on values. One accepted message, one expired commit window and one
  `StartConsensus` call are each one step.
*/
module LeaderModel {
  import opened Options
  import opened Bitmaps
  import opened Lists
  import opened MultiSig
  import opened Consensus

  /**
    What a session fixes: the committee, the leader's position and key, one commit secret per subset,
    and the number of DS guards when this is a DS consensus in guard mode.
  */
  datatype Config = Config(com: Committee, self: nat, privKey: int, secrets: seq<int>, guards: Option<nat>) {
    function Size(): nat { |com.keys| }
    function NumSubsets(): nat { |secrets| }
  }

  ghost predicate ValidConfig(cfg: Config) {
    && ValidCommittee(cfg.com)
    && cfg.self < cfg.Size()
    && 1 <= cfg.NumSubsets()
    && cfg.com.keys[cfg.self] == cfg.com.suite.mul(cfg.privKey, cfg.com.suite.g)
  }

  /** `ConsensusSubset`. */
  datatype Subset = Subset(
    commitMap: Bitmap,
    commitPointMap: seq<Point>,
    commitPoints: seq<Point>,
    responseCounter: nat,
    challenge: int,
    responseDataMap: seq<int>,
    responseMap: Bitmap,
    responseData: seq<int>,
    collectiveSig: Signature,
    state: State)

  /** The fields of the leader; `windowOpen` says that a thread is waiting for the commit window to close. */
  datatype Leader = Leader(
    state: State,
    message: Bytes,
    hasGenerator: bool,
    windowOpen: bool,
    commitCounter: nat,
    commitMap: Bitmap,
    commitPointMap: seq<seq<Point>>,
    commitPoints: seq<seq<Point>>,
    failureCounter: nat,
    failureMap: map<nat, Bytes>,
    subsets: seq<Subset>,
    running: int,
    collectiveSig: Signature,
    cs1: Signature,
    b1: Bitmap,
    cs2: Signature,
    b2: Bitmap)

  datatype Result = Result(leader: Leader, sent: Option<LeaderMsg>, ok: bool)

  function OwnCommits(cfg: Config): seq<Point> {
    seq(|cfg.secrets|, i requires 0 <= i < |cfg.secrets| => cfg.com.suite.mul(cfg.secrets[i], cfg.com.suite.g))
  }

  function Fresh(cfg: Config): Leader
    requires cfg.self < cfg.Size()
  {
    Leader(Initial, [], false, false,
           1, Blank(cfg.Size())[cfg.self := true],
           seq(cfg.Size(), _ => seq(cfg.NumSubsets(), _ => cfg.com.suite.zero))[cfg.self := OwnCommits(cfg)],
           [OwnCommits(cfg)],
           0, map[], [], 0, NO_SIG, NO_SIG, [], NO_SIG, [])
  }

  /** `StartConsensus`; the announcement generator produces `message`. */
  function Start(cfg: Config, l: Leader, message: Bytes, hasGenerator: bool): Result {
    if !l.state.Initial? then Result(l, None, false)
    else Result(l.(state := AnnounceDone, message := message, hasGenerator := hasGenerator, failureCounter := 0,
                   windowOpen := cfg.NumSubsets() > 1 || l.windowOpen),
                Some(Announce(message)), true)
  }

  // ---------- choosing the subsets ----------

  /** The members other than `self` who committed, in index order. */
  function Peers(b: Bitmap, self: nat): seq<nat> {
    if b == [] then []
    else
      var i := |b| - 1;
      Peers(b[..i], self) + if b[i] && i != self then [i] else []
  }

  function GuardsOf(order: seq<nat>, guards: nat): seq<nat> {
    if order == [] then []
    else
      var x := order[|order| - 1];
      GuardsOf(order[..|order| - 1], guards) + if x < guards then [x] else []
  }

  function OthersOf(order: seq<nat>, guards: nat): seq<nat> {
    if order == [] then []
    else
      var x := order[|order| - 1];
      OthersOf(order[..|order| - 1], guards) + if x < guards then [] else [x]
  }

  /** Guards first, others only to fill up; a quorum of one skips past the equality test and takes every guard. */
  function GuardsFirst(quorum: nat, gs: seq<nat>, os: seq<nat>): seq<nat>
    requires 1 <= quorum && |gs| + |os| >= quorum - 1
  {
    if quorum == 1 then gs
    else if |gs| >= quorum - 1 then gs[..quorum - 1]
    else gs + os[..quorum - 1 - |gs|]
  }

  lemma {:induction false} GuardsAndOthers(order: seq<nat>, guards: nat)
    ensures |GuardsOf(order, guards)| + |OthersOf(order, guards)| == |order|
    ensures forall x :: x in GuardsOf(order, guards) <==> x in order && x < guards
    ensures forall x :: x in OthersOf(order, guards) <==> x in order && x >= guards
    ensures Distinct(order) ==> Distinct(GuardsOf(order, guards)) && Distinct(OthersOf(order, guards))
  {
    if order != [] {
      var init, x := order[..|order| - 1], order[|order| - 1];
      GuardsAndOthers(init, guards);
      assert order == init + [x];
      if Distinct(order) {
        assert x !in init;
        if x < guards {
          DistinctSnoc(GuardsOf(init, guards), x);
        } else {
          DistinctSnoc(OthersOf(init, guards), x);
        }
      }
    }
  }

  /** The members of subset `i` when the committed peers stand in `order`. */
  function Members(cfg: Config, order: seq<nat>, i: nat): seq<nat>
    requires 1 <= cfg.com.quorum && |order| >= cfg.com.quorum - 1
  {
    if cfg.guards.Some? && i == 0 then
      GuardsAndOthers(order, cfg.guards.value);
      [cfg.self] + GuardsFirst(cfg.com.quorum, GuardsOf(order, cfg.guards.value), OthersOf(order, cfg.guards.value))
    else
      [cfg.self] + order[..cfg.com.quorum - 1]
  }

  function NewSubset(cfg: Config, state: State): Subset {
    var n := cfg.Size();
    Subset(Blank(n), seq(n, _ => cfg.com.suite.zero), [], 0, 0, seq(n, _ => 0), Blank(n), [], NO_SIG, state)
  }

  function AddMember(sub: Subset, index: nat, commit: Point): Subset
    requires index < |sub.commitMap| && index < |sub.commitPointMap|
  {
    sub.(commitMap := sub.commitMap[index := true],
         commitPointMap := sub.commitPointMap[index := commit],
         commitPoints := sub.commitPoints + [commit])
  }

  /** The i-th commit point of every listed member is on record. */
  ghost predicate OnRecord(cfg: Config, pointMap: seq<seq<Point>>, ids: seq<nat>, i: nat) {
    |pointMap| == cfg.Size() && forall x :: x in ids ==> x < cfg.Size() && i < |pointMap[x]|
  }

  function BuildSubset(cfg: Config, pointMap: seq<seq<Point>>, state: State, ids: seq<nat>, i: nat): (sub: Subset)
    requires OnRecord(cfg, pointMap, ids, i)
    ensures |sub.commitMap| == cfg.Size() && |sub.commitPointMap| == cfg.Size()
  {
    if ids == [] then NewSubset(cfg, state)
    else
      var x := ids[|ids| - 1];
      assert x in ids;
      AddMember(BuildSubset(cfg, pointMap, state, ids[..|ids| - 1], i), x, pointMap[x][i])
  }

  /** The commit phase's bookkeeping: counter, bitmap, both lists of points. */
  ghost predicate CommitsOk(cfg: Config, l: Leader) {
    && cfg.self < cfg.Size()
    && |l.commitMap| == |l.commitPointMap| == cfg.Size()
    && l.commitMap[cfg.self] && l.commitPointMap[cfg.self] == OwnCommits(cfg)
    && (forall i :: 0 <= i < cfg.Size() && l.commitMap[i] ==> |l.commitPointMap[i]| == cfg.NumSubsets())
    && l.commitCounter == Count(l.commitMap) == |l.commitPoints|
  }

  /** After each subset the peers are reshuffled; `shuffles[i]` is the order that shuffle leaves. */
  ghost predicate Shuffles(cfg: Config, l: Leader, shuffles: seq<seq<nat>>) {
    |shuffles| == cfg.NumSubsets()
    && forall i: nat {:trigger ShuffleAt(Peers(l.commitMap, cfg.self), shuffles, i)} :: i < |shuffles| ==>
         ShuffleAt(Peers(l.commitMap, cfg.self), shuffles, i)
  }

  ghost predicate ShuffleAt(peers: seq<nat>, shuffles: seq<seq<nat>>, i: nat)
    requires i < |shuffles|
  {
    Permutes(peers, shuffles[i])
  }

  function Order(cfg: Config, l: Leader, shuffles: seq<seq<nat>>, i: nat): seq<nat>
    requires i <= |shuffles|
  {
    if i == 0 then Peers(l.commitMap, cfg.self) else shuffles[i - 1]
  }

  function SubsetsToRun(cfg: Config, l: Leader): nat {
    if |Peers(l.commitMap, cfg.self)| <= cfg.com.quorum then 1 else cfg.NumSubsets()
  }

  lemma {:induction false} PeersAre(b: Bitmap, self: nat)
    ensures forall x :: x in Peers(b, self) <==> x in Ones(b) && x != self
    ensures Distinct(Peers(b, self))
  {
    if b != [] {
      var i := |b| - 1;
      PeersAre(b[..i], self);
      assert forall x :: x in Ones(b[..i]) <==> x in Ones(b) && x != i;
      if b[i] && i != self {
        DistinctSnoc(Peers(b[..i], self), i);
      }
    }
  }

  lemma PeerCount(b: Bitmap, self: nat)
    requires self < |b| && b[self]
    ensures |Peers(b, self)| == Count(b) - 1
  {
    PeersAre(b, self);
    DistinctCard(Peers(b, self));
    assert Elems(Peers(b, self)) == Ones(b) - {self};
  }

  /** Any order of the committed peers yields members whose points are on record. */
  lemma MembersOnRecord(cfg: Config, l: Leader, order: seq<nat>, i: nat)
    requires CommitsOk(cfg, l) && 1 <= cfg.com.quorum <= Count(l.commitMap) && i < cfg.NumSubsets()
    requires Permutes(Peers(l.commitMap, cfg.self), order)
    ensures |order| >= cfg.com.quorum - 1
    ensures OnRecord(cfg, l.commitPointMap, Members(cfg, order, i), i)
  {
    PeerCount(l.commitMap, cfg.self);
    PeersAre(l.commitMap, cfg.self);
    PermutationKeeps(Peers(l.commitMap, cfg.self), order);
    if cfg.guards.Some? {
      GuardsAndOthers(order, cfg.guards.value);
    }
    forall x | x in Members(cfg, order, i)
      ensures x < cfg.Size() && |l.commitPointMap[x]| == cfg.NumSubsets()
    {
      assert x == cfg.self || x in Elems(order);
    }
  }

  /** `GenerateConsensusSubsets`. */
  function GenerateSubsets(cfg: Config, l: Leader, shuffles: seq<seq<nat>>): Leader
    requires CommitsOk(cfg, l) && 1 <= cfg.com.quorum <= l.commitCounter && 1 <= cfg.NumSubsets()
    requires Shuffles(cfg, l, shuffles)
  {
    l.(subsets := seq(SubsetsToRun(cfg, l), i requires 0 <= i < SubsetsToRun(cfg, l) => SubsetAt(cfg, l, shuffles, i)),
       commitPointMap := [], commitPoints := [], commitMap := [])
  }

  function SubsetAt(cfg: Config, l: Leader, shuffles: seq<seq<nat>>, i: nat): Subset
    requires CommitsOk(cfg, l) && 1 <= cfg.com.quorum <= l.commitCounter && i < cfg.NumSubsets()
    requires Shuffles(cfg, l, shuffles)
  {
    var order := Order(cfg, l, shuffles, i);
    assert i > 0 ==> ShuffleAt(Peers(l.commitMap, cfg.self), shuffles, i - 1);
    MembersOnRecord(cfg, l, order, i);
    BuildSubset(cfg, l.commitPointMap, l.state, Members(cfg, order, i), i)
  }

  // ---------- challenging ----------

  /** `SetStateSubset`. */
  function Raise(sub: Subset, state: State): Subset {
    if state.Initial? || Rank(state) > Rank(sub.state) then sub.(state := state) else sub
  }

  ghost predicate SubsetSizes(cfg: Config, sub: Subset) {
    && |sub.commitMap| == |sub.commitPointMap| == cfg.Size()
    && |sub.responseDataMap| == |sub.responseMap| == cfg.Size()
  }

  ghost predicate SubsetsSized(cfg: Config, subs: seq<Subset>) {
    |subs| <= cfg.NumSubsets() && forall i :: 0 <= i < |subs| ==> SubsetSizes(cfg, subs[i])
  }

  function InfoFor(cfg: Config, message: Bytes, sub: Subset): ChallengeInfo
    requires |sub.commitMap| == cfg.Size()
  {
    var s := cfg.com.suite;
    var commit, key := SumPoints(s, sub.commitPoints), SumBits(s, sub.commitMap, cfg.com.keys);
    ChallengeInfo(Some(commit), key, Some(s.challenge(commit, key, message)))
  }

  /** A subset after its challenge went out: the leader's own response is the first one in. */
  function Challenged(cfg: Config, message: Bytes, sub: Subset, state: State, secret: int): Subset
    requires SubsetSizes(cfg, sub) && cfg.self < cfg.Size()
  {
    var c := InfoFor(cfg, message, sub).challenge.value;
    var r := Respond(secret, c, cfg.privKey);
    Raise(sub.(challenge := c), state).(
      responseData := sub.responseData + [r],
      responseDataMap := sub.responseDataMap[cfg.self := r],
      responseMap := sub.responseMap[cfg.self := true],
      responseCounter := 1)
  }

  function ChallengeState(state: State): State {
    match state
    case AnnounceDone => ChallengeDone
    case CollectiveSigDone => FinalChallengeDone
    case _ => state
  }

  /** `StartConsensusSubsets`. */
  function StartSubsets(cfg: Config, l: Leader): Result
    requires SubsetsSized(cfg, l.subsets) && cfg.self < cfg.Size()
  {
    if !l.state.AnnounceDone? && !l.state.CollectiveSigDone? then Result(l, None, false)
    else
      var state := ChallengeState(l.state);
      var subs := l.subsets;
      Result(l.(state := state, running := |subs|,
                subsets := seq(|subs|, i requires 0 <= i < |subs| =>
                                 Challenged(cfg, l.message, subs[i], state, cfg.secrets[i]))),
             Some(Challenge(state.FinalChallengeDone?,
                            seq(|subs|, i requires 0 <= i < |subs| => InfoFor(cfg, l.message, subs[i])))),
             true)
  }

  lemma {:induction false} BuiltSizes(cfg: Config, pointMap: seq<seq<Point>>, state: State, ids: seq<nat>, i: nat)
    requires OnRecord(cfg, pointMap, ids, i)
    ensures SubsetSizes(cfg, BuildSubset(cfg, pointMap, state, ids, i))
    decreases |ids|
  {
    if ids != [] {
      BuiltSizes(cfg, pointMap, state, ids[..|ids| - 1], i);
    }
  }

  lemma GeneratedSizes(cfg: Config, l: Leader, shuffles: seq<seq<nat>>)
    requires CommitsOk(cfg, l) && 1 <= cfg.com.quorum <= l.commitCounter && 1 <= cfg.NumSubsets()
    requires Shuffles(cfg, l, shuffles)
    ensures SubsetsSized(cfg, GenerateSubsets(cfg, l, shuffles).subsets)
  {
    var subs := GenerateSubsets(cfg, l, shuffles).subsets;
    forall i | 0 <= i < |subs|
      ensures SubsetSizes(cfg, subs[i])
    {
      var order := Order(cfg, l, shuffles, i);
      assert i > 0 ==> ShuffleAt(Peers(l.commitMap, cfg.self), shuffles, i - 1);
      MembersOnRecord(cfg, l, order, i);
      BuiltSizes(cfg, l.commitPointMap, l.state, Members(cfg, order, i), i);
    }
  }

  /** Choosing the subsets and challenging them. */
  function Launch(cfg: Config, l: Leader, shuffles: seq<seq<nat>>): Result
    requires CommitsOk(cfg, l) && 1 <= cfg.com.quorum <= l.commitCounter && 1 <= cfg.NumSubsets()
    requires Shuffles(cfg, l, shuffles)
  {
    GeneratedSizes(cfg, l, shuffles);
    StartSubsets(cfg, GenerateSubsets(cfg, l, shuffles))
  }

  // ---------- commits ----------

  predicate CommitsVerify(s: Suite, infos: seq<CommitInfo>) {
    forall i :: 0 <= i < |infos| ==> infos[i].hash == s.commitHash(infos[i].commit)
  }

  /** The states in which commits are taken. */
  predicate Accepting(state: State) {
    state.AnnounceDone? || state.CollectiveSigDone?
  }

  /** The checks a commit message has to pass; `genuine` says that it came from that member's address. */
  predicate CommitAccepted(cfg: Config, l: Leader, final: bool, id: nat, genuine: bool, infos: seq<CommitInfo>)
    requires Accepting(l.state) ==> CommitsOk(cfg, l)
  {
    && l.state == (if final then CollectiveSigDone else AnnounceDone)
    && id < cfg.Size() && genuine && |infos| == cfg.NumSubsets() && !l.commitMap[id]
    && CommitsVerify(cfg.com.suite, infos)
  }

  function RecordCommit(l: Leader, id: nat, infos: seq<CommitInfo>): Leader
    requires id < |l.commitMap| && id < |l.commitPointMap|
  {
    var points := seq(|infos|, i requires 0 <= i < |infos| => infos[i].commit);
    l.(commitPoints := l.commitPoints + [points],
       commitPointMap := l.commitPointMap[id := points],
       commitMap := l.commitMap[id := true],
       commitCounter := l.commitCounter + 1)
  }

  lemma RecordKeepsCommitsOk(cfg: Config, l: Leader, id: nat, infos: seq<CommitInfo>)
    requires CommitsOk(cfg, l) && id < cfg.Size() && !l.commitMap[id] && |infos| == cfg.NumSubsets()
    ensures CommitsOk(cfg, RecordCommit(l, id, infos))
  {
    OnesOfUpdate(l.commitMap, id);
  }

  /** `ProcessMessageCommitCore`; with a single subset the order left by the shuffle is never read. */
  function ProcessCommit(cfg: Config, l: Leader, final: bool, id: nat, genuine: bool, infos: seq<CommitInfo>): Result
    requires ValidConfig(cfg)
    requires Accepting(l.state) ==> CommitsOk(cfg, l)
  {
    if !CommitAccepted(cfg, l, final, id, genuine, infos) then Result(l, None, false)
    else
      var l' := RecordCommit(l, id, infos);
      RecordKeepsCommitsOk(cfg, l, id, infos);
      if cfg.NumSubsets() > 1 || l'.commitCounter != cfg.com.quorum then Result(l', None, true)
      else
        var r := Launch(cfg, l', [Peers(l'.commitMap, cfg.self)]);
        Result(r.leader, r.sent, true)
  }

  /** The waiting thread finds the commit window closed (or enough commits in). */
  function CloseWindow(cfg: Config, l: Leader, shuffles: seq<seq<nat>>): Result
    requires ValidConfig(cfg) && CommitsOk(cfg, l)
    requires Shuffles(cfg, l, shuffles)
  {
    var l' := l.(windowOpen := false);
    if l.commitCounter < cfg.com.quorum then Result(l'.(state := Error), None, false)
    else Launch(cfg, l', shuffles)
  }

  /** `ProcessMessageCommitFailure`. */
  function ProcessCommitFailure(cfg: Config, l: Leader, id: nat, error: Bytes): Result
    requires cfg.com.quorum <= cfg.Size()
  {
    if l.state !in {Initial, AnnounceDone, ChallengeDone, CollectiveSigDone, FinalChallengeDone, Done} then
      Result(l, None, false)
    else if id >= cfg.Size() || id in l.failureMap then Result(l, None, false)
    else
      var l' := l.(failureCounter := l.failureCounter + 1, failureMap := l.failureMap[id := error]);
      if l'.failureCounter == cfg.Size() - cfg.com.quorum + 1 then
        Result(l'.(state := Initial), Some(ConsensusFailure), true)
      else Result(l', None, true)
  }

  // ---------- responses ----------

  function AwaitingState(final: bool): State {
    if final then FinalChallengeDone else ChallengeDone
  }

  function FinishedState(final: bool): State {
    if final then Done else CollectiveSigDone
  }

  /** Why a response is counted for a subset; every failed test skips the subset. */
  predicate ResponseCounts(cfg: Config, sub: Subset, final: bool, id: nat, response: int)
    requires SubsetSizes(cfg, sub)
  {
    && sub.state == AwaitingState(final)
    && id < |sub.responseDataMap|
    && sub.commitMap[id] && !sub.responseMap[id]
    && VerifyResponse(cfg.com.suite, response, sub.challenge, cfg.com.keys[id], sub.commitPointMap[id])
  }

  function RecordResponse(sub: Subset, id: nat, response: int): Subset
    requires id < |sub.responseDataMap| && id < |sub.responseMap|
  {
    sub.(responseData := sub.responseData + [response],
         responseDataMap := sub.responseDataMap[id := response],
         responseMap := sub.responseMap[id := true],
         responseCounter := sub.responseCounter + 1)
  }

  /** `SubsetEnded`. */
  function SubsetEnded(l: Leader, k: nat): Leader
    requires k < |l.subsets|
  {
    var sub := l.subsets[k];
    if sub.state.CollectiveSigDone? || sub.state.Done? then
      l.(subsets := seq(|l.subsets|, i requires 0 <= i < |l.subsets| =>
                          if i == k then l.subsets[i] else Raise(l.subsets[i], Initial)),
         state := sub.state)
    else if l.running - 1 == 0 then l.(running := 0, state := Error)
    else l.(running := l.running - 1)
  }

  function CollectiveSigOf(sub: Subset): Signature {
    Signature(sub.challenge, SumInts(sub.responseData))
  }

  /** The second round starts from the leader's own commits again. */
  function ResetCommits(cfg: Config, l: Leader): Leader
    requires cfg.self < cfg.Size()
  {
    l.(commitMap := Blank(cfg.Size())[cfg.self := true],
       commitPointMap := ResizedPointMap(cfg, l.commitPointMap)[cfg.self := OwnCommits(cfg)],
       commitPoints := [OwnCommits(cfg)],
       commitCounter := 1, failureCounter := 0, failureMap := map[])
  }

  /** `resize`: rows kept, empty rows added. */
  function ResizedPointMap(cfg: Config, pointMap: seq<seq<Point>>): (r: seq<seq<Point>>)
    ensures |r| == cfg.Size()
  {
    seq(cfg.Size(), i requires i >= 0 => if i < |pointMap| then pointMap[i] else [])
  }

  /**
    What a finished round writes: the signature and its bitmap, and after round one the next message and commit phase.
  */
  function CloseRound(cfg: Config, l: Leader, final: bool, sig: Signature, bitmap: Bitmap): Leader
    requires cfg.self < cfg.Size()
  {
    if final then l.(cs2 := sig, b2 := bitmap)
    else ResetCommits(cfg, l.(message := Extended(cfg.com.suite, l.message, sig, bitmap), cs1 := sig, b1 := bitmap))
  }

  /** The tail of `ProcessMessageResponseCore`, once subset `k` is signed. */
  function Conclude(cfg: Config, l: Leader, k: nat, final: bool): Leader
    requires k < |l.subsets| && cfg.self < cfg.Size()
  {
    var l' := SubsetEnded(CloseRound(cfg, l, final, l.subsets[k].collectiveSig, l.subsets[k].responseMap), k);
    l'.(windowOpen := if l'.state.CollectiveSigDone? && cfg.NumSubsets() > 1 then true else l'.windowOpen)
  }

  /**
    Subset `k` holds a quorum of responses: `GenerateCollectiveSigMessage` and what follows it. A new announcement
    replaces the message after the signature was verified.
  */
  function FinishSubset(cfg: Config, l: Leader, k: nat, final: bool, generated: Bytes): Result
    requires SubsetsSized(cfg, l.subsets) && k < |l.subsets| && cfg.self < cfg.Size()
  {
    var s := cfg.com.suite;
    var sub := l.subsets[k];
    var sig := CollectiveSigOf(sub);
    var signed := sub.(collectiveSig := sig);
    if !MultiSigVerify(s, l.message, sig, SumBits(s, sub.responseMap, cfg.com.keys)) then
      Result(l.(subsets := l.subsets[k := Raise(signed, Error)]), None, false)
    else
      Result(Conclude(cfg, Signed(l, k, final, signed, generated), k, final),
             Some(CollectiveSig(final, sig, sub.responseMap, if l.hasGenerator then Some(generated) else None)),
             true)
  }

  function Signed(l: Leader, k: nat, final: bool, signed: Subset, generated: Bytes): Leader
    requires k < |l.subsets|
  {
    l.(subsets := l.subsets[k := Raise(signed, FinishedState(final))], state := FinishedState(final),
       collectiveSig := signed.collectiveSig, message := if l.hasGenerator then generated else l.message)
  }

  /** The loop over the responses of one message, from the highest subset down. */
  function CountResponses(cfg: Config, l: Leader, final: bool, id: nat, responses: seq<int>, upto: nat,
                          generated: Bytes): Result
    requires SubsetsSized(cfg, l.subsets) && upto <= |responses| && upto <= |l.subsets| && cfg.self < cfg.Size()
    decreases upto
  {
    if upto == 0 then Result(l, None, true)
    else
      var k := upto - 1;
      if !ResponseCounts(cfg, l.subsets[k], final, id, responses[k]) then
        CountResponses(cfg, l, final, id, responses, k, generated)
      else
        var sub := RecordResponse(l.subsets[k], id, responses[k]);
        var l' := l.(subsets := l.subsets[k := sub]);
        if sub.responseCounter == cfg.com.quorum then FinishSubset(cfg, l', k, final, generated)
        else CountResponses(cfg, l', final, id, responses, k, generated)
  }

  /** `ProcessMessageResponseCore`. */
  function ProcessResponse(cfg: Config, l: Leader, final: bool, id: nat, genuine: bool, responses: seq<int>,
                           generated: Bytes): Result
    requires SubsetsSized(cfg, l.subsets) && cfg.self < cfg.Size()
  {
    if l.state != AwaitingState(final) || id >= cfg.Size() || !genuine
       || |responses| > |l.subsets| || |responses| == 0 then Result(l, None, false)
    else CountResponses(cfg, l, final, id, responses, |responses|, generated)
  }
}
