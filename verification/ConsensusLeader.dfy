/** The leader object: methods that update fields and loop, each proved against its function in `LeaderModel`. */
module LeaderObject {
  import opened Options
  import opened Bitmaps
  import opened Lists
  import opened MultiSig
  import opened Consensus
  import opened LeaderModel

  lemma BuildSnoc(cfg: Config, pointMap: seq<seq<Point>>, state: State, ids: seq<nat>, x: nat, i: nat)
    requires OnRecord(cfg, pointMap, ids + [x], i) && OnRecord(cfg, pointMap, ids, i)
    ensures x in ids + [x]
    ensures BuildSubset(cfg, pointMap, state, ids + [x], i) ==
      AddMember(BuildSubset(cfg, pointMap, state, ids, i), x, pointMap[x][i])
  {
    assert (ids + [x])[..|ids|] == ids;
    assert (ids + [x])[|ids|] == x;
  }

  lemma {:induction false} GuardsOfPrefix(order: seq<nat>, guards: nat, k: nat)
    requires k <= |order|
    ensures GuardsOf(order[..k], guards) <= GuardsOf(order, guards)
  {
    if k < |order| {
      var init := order[..|order| - 1];
      GuardsOfPrefix(init, guards, k);
      assert init[..k] == order[..k];
    } else {
      assert order[..k] == order;
    }
  }

  lemma SplitSnoc(order: seq<nat>, guards: nat, j: nat)
    requires j < |order|
    ensures var x := order[j];
      && GuardsOf(order[..j + 1], guards) == GuardsOf(order[..j], guards) + (if x < guards then [x] else [])
      && OthersOf(order[..j + 1], guards) == OthersOf(order[..j], guards) + (if x < guards then [] else [x])
  {
    assert order[..j + 1][..j] == order[..j];
  }

  class ConsensusLeader {
    const cfg: Config
    var state: State
    var message: Bytes
    var hasGenerator: bool
    var windowOpen: bool
    var commitCounter: nat
    var commitMap: Bitmap
    var commitPointMap: seq<seq<Point>>
    var commitPoints: seq<seq<Point>>
    var failureCounter: nat
    var failureMap: map<nat, Bytes>
    var subsets: seq<Subset>
    var running: int
    var collectiveSig: Signature
    var cs1: Signature
    var b1: Bitmap
    var cs2: Signature
    var b2: Bitmap

    ghost function View(): Leader
      reads this
    {
      Leader(state, message, hasGenerator, windowOpen, commitCounter, commitMap, commitPointMap, commitPoints,
             failureCounter, failureMap, subsets, running, collectiveSig, cs1, b1, cs2, b2)
    }

    constructor (cfg: Config)
      requires ValidConfig(cfg)
      ensures this.cfg == cfg && View() == Fresh(cfg)
    {
      this.cfg := cfg;
      state, message, hasGenerator, windowOpen := Initial, [], false, false;
      failureCounter, failureMap, subsets, running := 0, map[], [], 0;
      collectiveSig, cs1, b1, cs2, b2 := NO_SIG, NO_SIG, [], NO_SIG, [];
      var myCommits: seq<Point> := [];
      for i := 0 to |cfg.secrets|
        invariant |myCommits| == i
        invariant forall j :: 0 <= j < i ==> myCommits[j] == OwnCommits(cfg)[j]
      {
        myCommits := myCommits + [cfg.com.suite.mul(cfg.secrets[i], cfg.com.suite.g)];
      }
      assert myCommits == OwnCommits(cfg);
      commitMap := Blank(cfg.Size())[cfg.self := true];
      commitPointMap := seq(cfg.Size(), _ => seq(cfg.NumSubsets(), _ => cfg.com.suite.zero))[cfg.self := myCommits];
      commitPoints := [myCommits];
      commitCounter := 1;
    }

    method StartConsensus(announced: Bytes, generator: bool) returns (ok: bool, sent: Option<LeaderMsg>)
      modifies this
      ensures Result(View(), sent, ok) == Start(cfg, old(View()), announced, generator)
    {
      if !state.Initial? {
        return false, None;
      }
      message, hasGenerator := announced, generator;
      state := AnnounceDone;
      failureCounter := 0;
      if cfg.NumSubsets() > 1 {
        windowOpen := true;
      }
      return true, Some(Announce(announced));
    }

    /** Takes committed guards in order until the quorum is reached; sets the others aside. */
    method TakeGuards(start: Subset, order: seq<nat>, limit: nat, i: nat)
      returns (sub: Subset, subsetPeers: nat, others: seq<nat>, ghost gs: seq<nat>)
      requires OnRecord(cfg, commitPointMap, [cfg.self], i) && OnRecord(cfg, commitPointMap, order, i)
      requires start == BuildSubset(cfg, commitPointMap, state, [cfg.self], i)
      ensures subsetPeers == 1 + |gs| && gs <= GuardsOf(order, limit)
      ensures (1 < cfg.com.quorum == subsetPeers)
           || (gs == GuardsOf(order, limit) && others == OthersOf(order, limit) &&
             (1 < cfg.com.quorum ==> subsetPeers < cfg.com.quorum))
      ensures OnRecord(cfg, commitPointMap, [cfg.self] + gs, i)
      ensures sub == BuildSubset(cfg, commitPointMap, state, [cfg.self] + gs, i)
    {
      sub, subsetPeers, others, gs := start, 1, [], [];
      ghost var ids := [cfg.self];
      var j := 0;
      while j < |order|
        invariant j <= |order|
        invariant gs == GuardsOf(order[..j], limit) && others == OthersOf(order[..j], limit)
        invariant subsetPeers == 1 + |gs| && (1 < cfg.com.quorum ==> subsetPeers < cfg.com.quorum)
        invariant ids == [cfg.self] + gs
        invariant OnRecord(cfg, commitPointMap, ids, i) && sub == BuildSubset(cfg, commitPointMap, state, ids, i)
      {
        var index := order[j];
        SplitSnoc(order, limit, j);
        if index < limit {
          assert index in order;
          sub := AppendMember(sub, ids, index, i);
          gs, ids := gs + [index], ids + [index];
          subsetPeers := subsetPeers + 1;
          if subsetPeers == cfg.com.quorum {
            GuardsOfPrefix(order, limit, j + 1);
            assert ids == [cfg.self] + gs;
            return;
          }
        } else {
          others := others + [index];
        }
        j := j + 1;
      }
      assert order[..|order|] == order;
    }

    /** The three writes that put one more member into a subset. */
    method AppendMember(sub: Subset, ghost ids: seq<nat>, index: nat, i: nat) returns (sub': Subset)
      requires OnRecord(cfg, commitPointMap, ids, i) && index < cfg.Size() == |commitPointMap| &&
        i < |commitPointMap[index]|
      requires sub == BuildSubset(cfg, commitPointMap, state, ids, i)
      ensures OnRecord(cfg, commitPointMap, ids + [index], i)
      ensures sub' == BuildSubset(cfg, commitPointMap, state, ids + [index], i)
    {
      sub' := sub.(commitPointMap := sub.commitPointMap[index := commitPointMap[index][i]],
                   commitPoints := sub.commitPoints + [commitPointMap[index][i]],
                   commitMap := sub.commitMap[index := true]);
      BuildSnoc(cfg, commitPointMap, state, ids, index, i);
    }

    /** Adds the first `count` of `list`. */
    method TakeFirst(start: Subset, ghost ids: seq<nat>, list: seq<nat>, count: nat, i: nat) returns (sub: Subset)
      requires count <= |list| && OnRecord(cfg, commitPointMap, ids, i) && OnRecord(cfg, commitPointMap, list, i)
      requires start == BuildSubset(cfg, commitPointMap, state, ids, i)
      ensures OnRecord(cfg, commitPointMap, ids + list[..count], i)
      ensures sub == BuildSubset(cfg, commitPointMap, state, ids + list[..count], i)
    {
      sub := start;
      assert ids + list[..0] == ids;
      for j := 0 to count
        invariant OnRecord(cfg, commitPointMap, ids + list[..j], i)
        invariant sub == BuildSubset(cfg, commitPointMap, state, ids + list[..j], i)
      {
        assert ids + list[..j + 1] == (ids + list[..j]) + [list[j]];
        assert list[j] in list;
        sub := AppendMember(sub, ids + list[..j], list[j], i);
      }
    }

    /** The guard-mode branch of the first subset. */
    method GuardsThenOthers(start: Subset, order: seq<nat>, limit: nat, i: nat)
      returns (sub: Subset, ghost ids: seq<nat>)
      requires 1 <= cfg.com.quorum <= |order| + 1
      requires OnRecord(cfg, commitPointMap, [cfg.self], i) && OnRecord(cfg, commitPointMap, order, i)
      requires start == BuildSubset(cfg, commitPointMap, state, [cfg.self], i)
      ensures |GuardsOf(order, limit)| + |OthersOf(order, limit)| >= cfg.com.quorum - 1
      ensures ids == [cfg.self] + GuardsFirst(cfg.com.quorum, GuardsOf(order, limit), OthersOf(order, limit))
      ensures OnRecord(cfg, commitPointMap, ids, i) && sub == BuildSubset(cfg, commitPointMap, state, ids, i)
    {
      OthersOnRecord(cfg, commitPointMap, order, limit, i);
      var subsetPeers, others;
      ghost var gs;
      sub, subsetPeers, others, gs := TakeGuards(start, order, limit, i);
      GuardsSplit(cfg.com.quorum, gs, GuardsOf(order, limit), OthersOf(order, limit));
      ids := [cfg.self] + gs;
      if subsetPeers < cfg.com.quorum {
        ghost var rest := others[..cfg.com.quorum - subsetPeers];
        assert ids + rest == [cfg.self] + (gs + rest);
        sub := TakeFirst(sub, ids, others, cfg.com.quorum - subsetPeers, i);
        ids := ids + rest;
      }
    }

    static lemma OthersOnRecord(cfg: Config, pointMap: seq<seq<Point>>, order: seq<nat>, limit: nat, i: nat)
      requires OnRecord(cfg, pointMap, order, i)
      ensures |GuardsOf(order, limit)| + |OthersOf(order, limit)| == |order|
      ensures OnRecord(cfg, pointMap, OthersOf(order, limit), i)
    {
      GuardsAndOthers(order, limit);
    }

    static lemma GuardsSplit(q: nat, gs: seq<nat>, guards: seq<nat>, others: seq<nat>)
      requires 1 <= q <= |guards| + |others| + 1 && gs <= guards
      requires (1 < q == 1 + |gs|) || (gs == guards && (1 < q ==> 1 + |gs| < q))
      ensures GuardsFirst(q, guards, others) == if 1 + |gs| < q then gs + others[..q - (1 + |gs|)] else gs
    {
      if 1 < q == 1 + |gs| {
        assert gs == guards[..|gs|];
      }
    }

    /** One iteration of the subset loop: the leader first, then guards before others or simply the first peers. */
    method ChooseSubset(order: seq<nat>, i: nat) returns (sub: Subset)
      requires ValidConfig(cfg) && |order| >= cfg.com.quorum - 1
      requires OnRecord(cfg, commitPointMap, [cfg.self] + order, i)
      ensures OnRecord(cfg, commitPointMap, Members(cfg, order, i), i)
      ensures sub == BuildSubset(cfg, commitPointMap, state, Members(cfg, order, i), i)
    {
      assert cfg.self in [cfg.self] + order && forall x :: x in order ==> x in [cfg.self] + order;
      assert [] + [cfg.self] == [cfg.self];
      sub := AppendMember(NewSubset(cfg, state), [], cfg.self, i);
      if cfg.guards.Some? && i == 0 {
        ghost var ids;
        sub, ids := GuardsThenOthers(sub, order, cfg.guards.value, i);
      } else {
        sub := TakeFirst(sub, [cfg.self], order, cfg.com.quorum - 1, i);
      }
    }

    method CommittedPeers() returns (peers: seq<nat>)
      ensures peers == Peers(commitMap, cfg.self)
    {
      peers := [];
      for index := 0 to |commitMap|
        invariant peers == Peers(commitMap[..index], cfg.self)
      {
        assert commitMap[..index + 1][..index] == commitMap[..index];
        if commitMap[index] && index != cfg.self {
          peers := peers + [index];
        }
      }
      assert commitMap[..|commitMap|] == commitMap;
    }

    method ChooseAt(ghost l: Leader, ghost shuffles: seq<seq<nat>>, order: seq<nat>, i: nat) returns (sub: Subset)
      requires ValidConfig(cfg) && l == View() && CommitsOk(cfg, l) && cfg.com.quorum <= l.commitCounter
      requires Shuffles(cfg, l, shuffles) && i < SubsetsToRun(cfg, l) && order == Order(cfg, l, shuffles, i)
      ensures sub == GenerateSubsets(cfg, l, shuffles).subsets[i]
    {
      assert i > 0 ==> ShuffleAt(Peers(l.commitMap, cfg.self), shuffles, i - 1);
      PeersOnRecord(cfg, l, order, i);
      sub := ChooseSubset(order, i);
      assert sub == SubsetAt(cfg, l, shuffles, i);
    }

    /** The subset loop; the peers are reshuffled after every subset. */
    method ChooseSubsets(ghost l: Leader, shuffles: seq<seq<nat>>) returns (chosen: seq<Subset>)
      requires ValidConfig(cfg) && l == View() && CommitsOk(cfg, l) && cfg.com.quorum <= l.commitCounter
      requires Shuffles(cfg, l, shuffles)
      ensures chosen == GenerateSubsets(cfg, l, shuffles).subsets
    {
      var peers := CommittedPeers();
      var num := if |peers| <= cfg.com.quorum then 1 else cfg.NumSubsets();
      ghost var all := GenerateSubsets(cfg, l, shuffles).subsets;
      chosen := [];
      for i := 0 to num
        invariant peers == Order(cfg, l, shuffles, i) && chosen == all[..i]
      {
        var sub := ChooseAt(l, shuffles, peers, i);
        chosen := chosen + [sub];
        peers := shuffles[i];
      }
    }

    method GenerateConsensusSubsets(shuffles: seq<seq<nat>>)
      requires ValidConfig(cfg) && CommitsOk(cfg, View()) && cfg.com.quorum <= commitCounter
      requires Shuffles(cfg, View(), shuffles)
      modifies this
      ensures View() == GenerateSubsets(cfg, old(View()), shuffles)
    {
      subsets := ChooseSubsets(View(), shuffles);
      commitPointMap, commitPoints, commitMap := [], [], [];
    }

    static lemma PeersOnRecord(cfg: Config, l: Leader, order: seq<nat>, i: nat)
      requires CommitsOk(cfg, l) && 1 <= cfg.com.quorum <= Count(l.commitMap) && i < cfg.NumSubsets()
      requires Permutes(Peers(l.commitMap, cfg.self), order)
      ensures |order| >= cfg.com.quorum - 1 && OnRecord(cfg, l.commitPointMap, [cfg.self] + order, i)
    {
      PeerCount(l.commitMap, cfg.self);
      PeersAre(l.commitMap, cfg.self);
      PermutationKeeps(Peers(l.commitMap, cfg.self), order);
      forall x | x in [cfg.self] + order
        ensures x < cfg.Size() && |l.commitPointMap[x]| == cfg.NumSubsets()
      {
        assert x == cfg.self || x in Elems(order);
      }
    }

    method SetStateSubset(k: nat, newState: State)
      requires k < |subsets|
      modifies this`subsets
      ensures subsets == old(subsets)[k := Raise(old(subsets)[k], newState)]
    {
      if newState.Initial? || Rank(newState) > Rank(subsets[k].state) {
        subsets := subsets[k := subsets[k].(state := newState)];
      }
    }

    method GenerateChallengeMessage() returns (infos: seq<ChallengeInfo>)
      requires SubsetsSized(cfg, subsets)
      modifies this`subsets
      ensures |infos| == |subsets| == |old(subsets)|
      ensures forall i :: 0 <= i < |infos| ==>
        infos[i] == InfoFor(cfg, message, old(subsets)[i]) &&
          subsets[i] == old(subsets)[i].(challenge := infos[i].challenge.value)
    {
      infos := [];
      for i := 0 to |subsets|
        invariant |infos| == i && |subsets| == |old(subsets)|
        invariant forall j :: 0 <= j < i ==>
          infos[j] == InfoFor(cfg, message, old(subsets)[j]) &&
            subsets[j] == old(subsets)[j].(challenge := infos[j].challenge.value)
        invariant forall j :: i <= j < |subsets| ==> subsets[j] == old(subsets)[j]
      {
        var commit := Sum(cfg.com.suite, subsets[i].commitPoints);
        var key := AggregateKeys(cfg.com, subsets[i].commitMap);
        var challenge := cfg.com.suite.challenge(commit, key, message);
        subsets := subsets[i := subsets[i].(challenge := challenge)];
        infos := infos + [ChallengeInfo(Some(commit), key, Some(challenge))];
      }
    }

    method StartConsensusSubsets() returns (ok: bool, sent: Option<LeaderMsg>)
      requires SubsetsSized(cfg, subsets) && cfg.self < cfg.Size()
      modifies this
      ensures Result(View(), sent, ok) == StartSubsets(cfg, old(View()))
    {
      if state.AnnounceDone? {
        state := ChallengeDone;
      } else if state.CollectiveSigDone? {
        state := FinalChallengeDone;
      } else {
        return false, None;
      }
      running := |subsets|;
      var infos := GenerateChallengeMessage();
      AddOwnResponses();
      ok, sent := true, Some(Challenge(state.FinalChallengeDone?, infos));
      assert subsets == StartSubsets(cfg, old(View())).leader.subsets;
      assert infos == StartSubsets(cfg, old(View())).sent.value.challenges;
    }

    function WithOwnResponse(sub: Subset, newState: State, secret: int): Subset
      requires SubsetSizes(cfg, sub) && cfg.self < cfg.Size()
    {
      var r := Respond(secret, sub.challenge, cfg.privKey);
      Raise(sub, newState).(responseData := sub.responseData + [r],
                            responseDataMap := sub.responseDataMap[cfg.self := r],
                            responseMap := sub.responseMap[cfg.self := true],
                            responseCounter := 1)
    }

    method AddOwnResponses()
      requires SubsetsSized(cfg, subsets) && cfg.self < cfg.Size()
      modifies this`subsets
      ensures |subsets| == |old(subsets)|
      ensures forall i :: 0 <= i < |subsets| ==> subsets[i] == WithOwnResponse(old(subsets)[i], state, cfg.secrets[i])
    {
      for i := 0 to |subsets|
        invariant |subsets| == |old(subsets)|
        invariant forall j :: 0 <= j < i ==> subsets[j] == WithOwnResponse(old(subsets)[j], state, cfg.secrets[j])
        invariant forall j :: i <= j < |subsets| ==> subsets[j] == old(subsets)[j]
      {
        SetStateSubset(i, state);
        var sub := subsets[i];
        var r := Respond(cfg.secrets[i], sub.challenge, cfg.privKey);
        subsets := subsets[i := sub.(responseData := sub.responseData + [r],
                                     responseDataMap := sub.responseDataMap[cfg.self := r],
                                     responseMap := sub.responseMap[cfg.self := true],
                                     responseCounter := 1)];
      }
    }

    /** Checks every commit against its hash and collects the points. */
    method CheckCommits(infos: seq<CommitInfo>) returns (ok: bool, points: seq<Point>)
      ensures ok == CommitsVerify(cfg.com.suite, infos)
      ensures ok ==> points == seq(|infos|, i requires 0 <= i < |infos| => infos[i].commit)
    {
      points := [];
      for i := 0 to |infos|
        invariant |points| == i && forall j :: 0 <= j < i ==> points[j] == infos[j].commit
        invariant CommitsVerify(cfg.com.suite, infos[..i])
      {
        if cfg.com.suite.commitHash(infos[i].commit) != infos[i].hash {
          return false, [];
        }
        points := points + [infos[i].commit];
      }
      assert infos[..|infos|] == infos;
      ok := true;
    }

    method StoreCommit(id: nat, points: seq<Point>, ghost infos: seq<CommitInfo>)
      requires id < |commitMap| && id < |commitPointMap|
      requires points == seq(|infos|, i requires 0 <= i < |infos| => infos[i].commit)
      modifies this
      ensures View() == RecordCommit(old(View()), id, infos)
    {
      commitPoints := commitPoints + [points];
      commitPointMap := commitPointMap[id := points];
      commitMap := commitMap[id := true];
      commitCounter := commitCounter + 1;
    }

    method LaunchSubsets(shuffles: seq<seq<nat>>) returns (ok: bool, sent: Option<LeaderMsg>)
      requires ValidConfig(cfg) && CommitsOk(cfg, View()) && cfg.com.quorum <= commitCounter &&
        Shuffles(cfg, View(), shuffles)
      modifies this
      ensures Result(View(), sent, ok) == Launch(cfg, old(View()), shuffles)
    {
      GeneratedSizes(cfg, View(), shuffles);
      GenerateConsensusSubsets(shuffles);
      ok, sent := StartConsensusSubsets();
    }

    method ProcessMessageCommit(final: bool, id: nat, genuine: bool, infos: seq<CommitInfo>)
      returns (ok: bool, sent: Option<LeaderMsg>)
      requires ValidConfig(cfg)
      requires Accepting(state) ==> CommitsOk(cfg, View())
      modifies this
      ensures Result(View(), sent, ok) == ProcessCommit(cfg, old(View()), final, id, genuine, infos)
    {
      if state != (if final then CollectiveSigDone else AnnounceDone) {
        return false, None;
      }
      if id >= cfg.Size() || !genuine || |infos| != cfg.NumSubsets() || commitMap[id] {
        return false, None;
      }
      var verified, points := CheckCommits(infos);
      if !verified {
        return false, None;
      }
      RecordKeepsCommitsOk(cfg, View(), id, infos);
      StoreCommit(id, points, infos);
      ok, sent := true, None;
      if cfg.NumSubsets() == 1 && commitCounter == cfg.com.quorum {
        var peers := CommittedPeers();
        var started;
        started, sent := LaunchSubsets([peers]);
      }
    }

    /** The thread that waits for the commit window. */
    method CommitWindowClosed(shuffles: seq<seq<nat>>) returns (ok: bool, sent: Option<LeaderMsg>)
      requires ValidConfig(cfg) && windowOpen && CommitsOk(cfg, View()) && Shuffles(cfg, View(), shuffles)
      modifies this
      ensures Result(View(), sent, ok) == CloseWindow(cfg, old(View()), shuffles)
    {
      windowOpen := false;
      if commitCounter < cfg.com.quorum {
        state := Error;
        return false, None;
      }
      ok, sent := LaunchSubsets(shuffles);
    }

    method ProcessMessageCommitFailure(id: nat, error: Bytes) returns (ok: bool, sent: Option<LeaderMsg>)
      requires cfg.com.quorum <= cfg.Size()
      modifies this
      ensures Result(View(), sent, ok) == ProcessCommitFailure(cfg, old(View()), id, error)
    {
      if state !in {Initial, AnnounceDone, ChallengeDone, CollectiveSigDone, FinalChallengeDone, Done} {
        return false, None;
      }
      if id >= cfg.Size() || id in failureMap {
        return false, None;
      }
      failureCounter := failureCounter + 1;
      failureMap := failureMap[id := error];
      if failureCounter == cfg.Size() - cfg.com.quorum + 1 {
        state := Initial;
        return true, Some(ConsensusFailure);
      }
      return true, None;
    }

    method EndSubset(k: nat)
      requires k < |subsets|
      modifies this
      ensures View() == SubsetEnded(old(View()), k)
    {
      var ended := subsets[k].state;
      if ended.CollectiveSigDone? || ended.Done? {
        for i := 0 to |subsets|
          invariant |subsets| == |old(subsets)| && subsets[k] == old(subsets)[k]
          invariant forall j :: 0 <= j < i && j != k ==> subsets[j] == Raise(old(subsets)[j], Initial)
          invariant forall j :: i <= j < |subsets| ==> subsets[j] == old(subsets)[j]
          invariant View() == old(View()).(subsets := subsets)
        {
          if i != k {
            SetStateSubset(i, Initial);
          }
        }
        state := ended;
        assert subsets == SubsetEnded(old(View()), k).subsets;
      } else {
        running := running - 1;
        if running == 0 {
          state := Error;
        }
      }
    }

    /** Aggregates, signs and verifies; the new announcement, if any, takes over only afterwards. */
    method GenerateCollectiveSigMessage(k: nat, final: bool, generated: Bytes) returns (sent: Option<LeaderMsg>)
      requires SubsetsSized(cfg, subsets) && k < |subsets|
      modifies this`subsets, this`message, this`collectiveSig
      ensures var sub := old(subsets)[k];
        var sig := CollectiveSigOf(sub);
        if MultiSigVerify(cfg.com.suite, old(message), sig, SumBits(cfg.com.suite, sub.responseMap, cfg.com.keys)) then
          && subsets == old(subsets)[k := sub.(collectiveSig := sig)]
          && message == (if hasGenerator then generated else old(message))
          && collectiveSig == sig
          && sent == Some(CollectiveSig(final, sig, sub.responseMap, if hasGenerator then Some(generated) else None))
        else
          && subsets == old(subsets)[k := Raise(sub.(collectiveSig := sig), Error)]
          && message == old(message) && collectiveSig == old(collectiveSig) && sent == None
    {
      var sub := subsets[k];
      var total := 0;
      for i := 0 to |sub.responseData|
        invariant total == SumInts(sub.responseData[..i])
      {
        assert sub.responseData[..i + 1][..i] == sub.responseData[..i];
        total := total + sub.responseData[i];
      }
      assert sub.responseData[..|sub.responseData|] == sub.responseData;
      var key := AggregateKeys(cfg.com, sub.responseMap);
      var sig := Signature(sub.challenge, total);
      subsets := subsets[k := sub.(collectiveSig := sig)];
      if !MultiSigVerify(cfg.com.suite, message, sig, key) {
        SetStateSubset(k, Error);
        return None;
      }
      var newAnnouncement := None;
      if hasGenerator {
        newAnnouncement := Some(generated);
        message := generated;
      }
      collectiveSig := sig;
      return Some(CollectiveSig(final, sig, sub.responseMap, newAnnouncement));
    }

    method CompleteSubset(k: nat, final: bool, generated: Bytes) returns (ok: bool, sent: Option<LeaderMsg>)
      requires SubsetsSized(cfg, subsets) && k < |subsets| && cfg.self < cfg.Size()
      modifies this
      ensures Result(View(), sent, ok) == FinishSubset(cfg, old(View()), k, final, generated)
    {
      ghost var l, signed := View(), subsets[k].(collectiveSig := CollectiveSigOf(subsets[k]));
      sent := GenerateCollectiveSigMessage(k, final, generated);
      if sent.None? {
        return false, None;
      }
      SetStateSubset(k, FinishedState(final));
      state := FinishedState(final);
      assert View() == Signed(l, k, final, signed, generated);
      ConcludeRound(k, final);
      ok := true;
    }

    method ConcludeRound(k: nat, final: bool)
      requires k < |subsets| && cfg.self < cfg.Size()
      modifies this
      ensures View() == Conclude(cfg, old(View()), k, final)
    {
      SaveRound(final, subsets[k].collectiveSig, subsets[k].responseMap);
      EndSubset(k);
      if state.CollectiveSigDone? && cfg.NumSubsets() > 1 {
        windowOpen := true;
      }
    }

    /** Stores the signature of the round; after round one, extends the message and starts the commit phase again. */
    method SaveRound(final: bool, sig: Signature, bitmap: Bitmap)
      requires cfg.self < cfg.Size()
      modifies this
      ensures View() == CloseRound(cfg, old(View()), final, sig, bitmap)
    {
      if !final {
        message := message + cfg.com.suite.serialize(sig) + BitVectorBytes(bitmap);
        cs1, b1 := sig, bitmap;
        commitMap := Blank(cfg.Size())[cfg.self := true];
        var own := OwnCommits(cfg);
        commitPointMap := ResizedPointMap(cfg, commitPointMap)[cfg.self := own];
        commitPoints := [own];
        commitCounter, failureCounter, failureMap := 1, 0, map[];
      } else {
        cs2, b2 := sig, bitmap;
      }
    }

    method ProcessMessageResponse(final: bool, id: nat, genuine: bool, responses: seq<int>, generated: Bytes)
      returns (ok: bool, sent: Option<LeaderMsg>)
      requires SubsetsSized(cfg, subsets) && cfg.self < cfg.Size()
      modifies this
      ensures Result(View(), sent, ok) == ProcessResponse(cfg, old(View()), final, id, genuine, responses, generated)
    {
      if state != AwaitingState(final) || id >= cfg.Size() || !genuine || |responses| > |subsets| || |responses| == 0 {
        return false, None;
      }
      var k: nat := |responses|;
      while k > 0
        invariant SubsetsSized(cfg, subsets) && k <= |responses| <= |subsets|
        invariant CountResponses(cfg, View(), final, id, responses, k, generated)
               == CountResponses(cfg, old(View()), final, id, responses, |responses|, generated)
      {
        k := k - 1;
        var sub := subsets[k];
        if sub.state != AwaitingState(final) || id >= |sub.responseDataMap|
           || !sub.commitMap[id] || sub.responseMap[id] {
          continue;
        }
        if !VerifyResponse(cfg.com.suite, responses[k], sub.challenge, cfg.com.keys[id], sub.commitPointMap[id]) {
          continue;
        }
        subsets := subsets[k := sub.(responseData := sub.responseData + [responses[k]],
                                     responseDataMap := sub.responseDataMap[id := responses[k]],
                                     responseMap := sub.responseMap[id := true],
                                     responseCounter := sub.responseCounter + 1)];
        if subsets[k].responseCounter == cfg.com.quorum {
          ok, sent := CompleteSubset(k, final, generated);
          return;
        }
      }
      return true, None;
    }
  }
}
