module Options {
  datatype Option<+T> = None | Some(value: T)
}

/** What leader and backups share: states, messages, the quorum size and quorum intersection. */
module Consensus {
  import opened Options
  import opened Arithmetic
  import opened Bitmaps
  import opened MultiSig

  datatype State =
    | Initial
    | AnnounceDone
    | CommitDone
    | ChallengeDone
    | ResponseDone
    | CollectiveSigDone
    | FinalCommitDone
    | FinalChallengeDone
    | FinalResponseDone
    | Done
    | Error

  /** The enumeration value; `State` values are compared with `>` in the source. */
  function Rank(s: State): nat {
    match s
    case Initial => 0
    case AnnounceDone => 1
    case CommitDone => 2
    case ChallengeDone => 3
    case ResponseDone => 4
    case CollectiveSigDone => 5
    case FinalCommitDone => 6
    case FinalChallengeDone => 7
    case FinalResponseDone => 8
    case Done => 9
    case Error => 10
  }

  /** Public keys in committee order and the number of responses a signature needs. */
  datatype Committee = Committee(suite: Suite, keys: seq<Point>, quorum: nat)

  ghost predicate ValidCommittee(com: Committee) {
    Lawful(com.suite) && 1 <= com.quorum <= |com.keys|
  }

  // ---------- messages, after parsing and authentication ----------

  datatype CommitInfo = CommitInfo(commit: Point, hash: int)

  /** `None` stands for a value that did not deserialise (`!Initialized()`). */
  datatype ChallengeInfo = ChallengeInfo(aggregatedCommit: Option<Point>, aggregatedKey: Point, challenge: Option<int>)

  /** An announcement carries what its validator extracts from it: the message to co-sign. */
  datatype LeaderMsg =
    | Announce(message: Bytes)
    | Challenge(final: bool, challenges: seq<ChallengeInfo>)
    | CollectiveSig(final: bool, sig: Signature, bitmap: Bitmap, newMessage: Option<Bytes>)
    | ConsensusFailure

  datatype BackupMsg =
    | Commit(final: bool, commits: seq<CommitInfo>)
    | CommitFailure(error: Bytes)
    | Response(final: bool, responses: seq<int>)

  /** The message of the second round: a base, the first collective signature, its bitmap. */
  function Extended(s: Suite, base: Bytes, sig: Signature, bitmap: Bitmap): Bytes {
    base + s.serialize(sig) + BitVectorBytes(bitmap)
  }

  /** Whether a challenge entry is the one computed over `message`. */
  predicate ChallengeFor(s: Suite, info: ChallengeInfo, message: Bytes) {
    && info.aggregatedCommit.Some? && info.challenge.Some?
    && info.challenge.value == s.challenge(info.aggregatedCommit.value, info.aggregatedKey, message)
  }

  /** `ConsensusCommon::CanProcessMessage`, for a message with a type byte. */
  predicate CanProcess(state: State, msg: LeaderMsg) {
    if msg.CollectiveSig? && !msg.final then !state.Initial?
    else if msg.CollectiveSig? then !state.Initial? && !state.CommitDone? && !state.ResponseDone?
    else true
  }

  /** `AggregateKeys`: collect the keys at the set positions, then add them up. */
  method AggregateKeys(com: Committee, peerMap: Bitmap) returns (key: Point)
    requires |peerMap| <= |com.keys|
    ensures key == SumBits(com.suite, peerMap, com.keys)
  {
    var keys: seq<Point> := [];
    for i := 0 to |peerMap|
      invariant SumPoints(com.suite, keys) == SumBits(com.suite, peerMap[..i], com.keys)
    {
      assert peerMap[..i + 1][..i] == peerMap[..i];
      if peerMap[i] {
        assert (keys + [com.keys[i]])[..|keys|] == keys;
        keys := keys + [com.keys[i]];
      }
    }
    assert peerMap[..|peerMap|] == peerMap;
    key := Sum(com.suite, keys);
  }

  method Sum(s: Suite, ps: seq<Point>) returns (total: Point)
    ensures total == SumPoints(s, ps)
  {
    total := s.zero;
    for i := 0 to |ps|
      invariant total == SumPoints(s, ps[..i])
    {
      assert ps[..i + 1][..i] == ps[..i];
      total := s.add(total, ps[i]);
    }
    assert ps[..|ps|] == ps;
  }

  // ---------- quorums ----------

  /** `ceil(size * TOLERANCE_FRACTION)` for the fraction num/den. */
  function NumForConsensus(size: nat, num: nat, den: nat): nat
    requires 0 < den
  {
    Floor(Times(size, num) + den - 1, den)
  }

  /** The quorum is the least number of members that make up the tolerance fraction. */
  lemma QuorumIsLeast(size: nat, num: nat, den: nat, k: nat)
    requires 0 < den
    ensures Times(k, den) >= Times(size, num) <==> k >= NumForConsensus(size, num, den)
  {
    var q := NumForConsensus(size, num, den);
    DivMod(Times(size, num) + den - 1, den);
    if k >= q {
      TimesMonotone(q, k, den);
    } else {
      TimesMonotone(k, q, den);
    }
  }

  /** It lies within the committee because the tolerance fraction is at most one. */
  lemma QuorumFits(size: nat, num: nat, den: nat)
    requires 0 < num <= den && 0 < size
    ensures 1 <= NumForConsensus(size, num, den) <= size
  {
    TimesAbove(size, num);
    QuorumIsLeast(size, num, den, 0);
    TimesGrows(size, num, den);
    QuorumIsLeast(size, num, den, size);
  }

  /** Any two quorums of `q` out of `n` members share a member outside `faulty`. */
  ghost predicate QuorumsShareHonest(n: nat, q: nat, faulty: set<nat>) {
    forall a: Bitmap, b: Bitmap :: |a| == n && |b| == n && Count(a) >= q && Count(b) >= q ==>
      exists i :: i in Ones(a) && i in Ones(b) && i !in faulty
  }

  lemma QuorumOverlap(n: nat, q: nat, faulty: set<nat>, a: Bitmap, b: Bitmap)
    requires |a| <= n && |b| <= n && Count(a) >= q && Count(b) >= q
    requires |faulty| + n < 2 * q
    ensures exists i :: i in Ones(a) && i in Ones(b) && i !in faulty
  {
    CountBound(a);
    CountBound(b);
    var x, y := Ones(a), Ones(b);
    assert x + y <= Below(n);
    SubsetCard(x + y, Below(n));
    assert |x + y| == |x| + |y| - |x * y|;
    if x * y <= faulty {
      SubsetCard(x * y, faulty);
    } else {
      var i :| i in x * y && i !in faulty;
      assert i in x && i in y;
    }
  }

  function SetBits(n: nat, s: set<nat>): (b: Bitmap)
    ensures |b| == n && Ones(b) == s * Below(n)
  {
    seq(n, i => i in s)
  }

  lemma {:induction false} TakeSubset(s: set<nat>, k: nat) returns (t: set<nat>)
    requires k <= |s|
    ensures t <= s && |t| == k
  {
    if k == 0 {
      t := {};
    } else {
      var x :| x in s;
      var t' := TakeSubset(s - {x}, k - 1);
      t := t' + {x};
    }
  }

  /** With 2q - n faulty members or more, two quorums can meet in faulty members only. */
  lemma FaultyOverlap(n: nat, q: nat, faulty: set<nat>) returns (a: Bitmap, b: Bitmap)
    requires q <= n && faulty <= Below(n) && |faulty| + n >= 2 * q
    ensures |a| == n && |b| == n && Count(a) >= q && Count(b) >= q
    ensures Ones(a) * Ones(b) <= faulty
  {
    var honest := Below(n) - faulty;
    assert |honest| == n - |faulty|;
    if |faulty| >= q {
      a, b := SetBits(n, faulty), SetBits(n, faulty);
      assert faulty * Below(n) == faulty;
    } else {
      var k := q - |faulty|;
      var x := TakeSubset(honest, k);
      assert |honest - x| == |honest| - k;
      var y := TakeSubset(honest - x, k);
      a, b := SetBits(n, faulty + x), SetBits(n, faulty + y);
      assert (faulty + x) * Below(n) == faulty + x && (faulty + y) * Below(n) == faulty + y;
      assert |faulty + x| == |faulty| + k && |faulty + y| == |faulty| + k;
    }
  }

  /** Quorums share an honest member if and only if fewer than 2q - n members are faulty. */
  lemma QuorumsShareHonestIff(n: nat, q: nat, faulty: set<nat>)
    requires q <= n && faulty <= Below(n)
    ensures QuorumsShareHonest(n, q, faulty) <==> |faulty| + n < 2 * q
  {
    if |faulty| + n < 2 * q {
      forall a: Bitmap, b: Bitmap | |a| == n && |b| == n && Count(a) >= q && Count(b) >= q
        ensures exists i :: i in Ones(a) && i in Ones(b) && i !in faulty
      {
        QuorumOverlap(n, q, faulty, a, b);
      }
    } else {
      var a, b := FaultyOverlap(n, q, faulty);
      assert forall i :: i in Ones(a) && i in Ones(b) ==> i in Ones(a) * Ones(b);
    }
  }

  lemma {:induction false} TwoThirds(n: nat, num: nat, den: nat)
    requires 3 * num >= 2 * den
    ensures 3 * Times(n, num) >= 2 * Times(n, den)
  {
    if n > 0 {
      TwoThirds(n - 1, num, den);
    }
  }

  /** Fewer than a third faulty is enough once the tolerance fraction is at least two thirds. */
  lemma ThirdIsEnough(n: nat, num: nat, den: nat, f: nat)
    requires 0 < den && 3 * num >= 2 * den && 3 * f < n
    ensures f + n < 2 * NumForConsensus(n, num, den)
  {
    var q := NumForConsensus(n, num, den);
    QuorumIsLeast(n, num, den, q);
    TwoThirds(n, num, den);
    TimesAdd(q, q, den);
    TimesAdd(q + q, q, den);
    TimesAdd(n, n, den);
    if 3 * q < 2 * n {
      TimesMonotone(3 * q, 2 * n, den);
    }
  }
}
