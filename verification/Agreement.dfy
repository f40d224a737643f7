/** Agreement between the members of one committee, honest and faulty, over whole runs. */
module Agreement {
  import opened Bitmaps
  import opened MultiSig
  import opened Consensus
  import LM = LeaderModel
  import LR = LeaderRuns
  import BM = BackupModel
  import BR = BackupRuns

  /** A member behaves as a run of one of the two classes, or in any way at all. */
  datatype Member =
    | LeaderMember(leaderCfg: LM.Config, leaderRun: LR.Run)
    | BackupMember(backupCfg: BM.Config, backupRun: BR.Run)
    | FaultyMember

  /** Runs of one session: no consensus failure resets them. */
  ghost predicate Genuine(com: Committee, m: Member) {
    match m
    case LeaderMember(cfg, r) => cfg.com == com && LR.IsRun(cfg, r) && LR.WithoutFailure(cfg, r)
    case BackupMember(cfg, r) => cfg.com == com && BR.IsRun(cfg, r) && BR.WithoutFailure(r)
    case FaultyMember => true
  }

  function Faulty(world: seq<Member>): set<nat> {
    set i: nat | i < |world| && world[i].FaultyMember?
  }

  ghost predicate LeaderSignsAt(cfg: LM.Config, r: LR.Run, i: nat, final: bool, message: Bytes)
    requires LR.IsRun(cfg, r)
  {
    LR.SendsChallenge(cfg, r, i, final) && r.states[i].message == message
  }

  ghost predicate BackupSignsAt(cfg: BM.Config, r: BR.Run, i: nat, final: bool, message: Bytes)
    requires BR.IsRun(cfg, r)
  {
    BR.SendsResponse(cfg, r, i, final) && r.states[i].message == message
  }

  /**
    An honest member computes responses for `message` in this round: a backup when it answers, the leader when it
    challenges.
  */
  ghost predicate Signs(com: Committee, m: Member, final: bool, message: Bytes)
    requires Genuine(com, m) && !m.FaultyMember?
  {
    match m
    case LeaderMember(cfg, r) => exists i: nat :: LeaderSignsAt(cfg, r, i, final, message)
    case BackupMember(cfg, r) => exists i: nat :: BackupSignsAt(cfg, r, i, final, message)
  }

  /** An honest member signs at most one message per round. */
  lemma SignsOneMessage(com: Committee, m: Member, final: bool, m1: Bytes, m2: Bytes)
    requires Genuine(com, m) && !m.FaultyMember?
    requires Signs(com, m, final, m1) && Signs(com, m, final, m2)
    ensures m1 == m2
  {
    match m
    case LeaderMember(cfg, r) =>
      var i: nat :| LeaderSignsAt(cfg, r, i, final, m1);
      var j: nat :| LeaderSignsAt(cfg, r, j, final, m2);
      LR.ChallengesOnce(cfg, r, i, j, final);
    case BackupMember(cfg, r) =>
      var i: nat :| BackupSignsAt(cfg, r, i, final, m1);
      var j: nat :| BackupSignsAt(cfg, r, j, final, m2);
      BR.RespondsOnce(cfg, r, i, j, final);
  }

  /** A message of the form the second round signs. */
  ghost predicate IsExtension(com: Committee, message: Bytes) {
    exists base: Bytes, sig: Signature, bitmap: Bitmap ::
      |bitmap| <= |com.keys| && message == Extended(com.suite, base, sig, bitmap)
  }

  /** In the second round an honest member signs extensions only. */
  lemma SecondRoundExtends(com: Committee, m: Member, message: Bytes)
    requires Genuine(com, m) && !m.FaultyMember? && Signs(com, m, true, message)
    ensures IsExtension(com, message)
  {
    match m
    case LeaderMember(cfg, r) =>
      var i: nat :| LeaderSignsAt(cfg, r, i, true, message);
      LR.RunAdvances(cfg, r, i);
      LR.RunFollowsScript(cfg, r, i);
    case BackupMember(cfg, r) =>
      var i: nat :| BackupSignsAt(cfg, r, i, true, message);
      assert BR.StepAt(cfg, r, i);
      var a, c := BR.Origin(cfg, r, i);
  }

  /**
    The rounds are separated: no honest member signs an extension in the first round. The challenge hashes no round, so
    this is up to the validators of announcements.
  */
  ghost predicate Separated(com: Committee, world: seq<Member>)
    requires forall i :: 0 <= i < |world| ==> Genuine(com, world[i])
  {
    forall i: nat, message: Bytes :: i < |world| && !world[i].FaultyMember? && Signs(com, world[i], false, message) ==>
      !IsExtension(com, message)
  }

  /** A message with a collective signature on it. */
  datatype Claim = Claim(message: Bytes, sig: Signature, bitmap: Bitmap)

  ghost predicate Verifies(com: Committee, c: Claim) {
    |c.bitmap| <= |com.keys| && MultiSigVerify(com.suite, c.message, c.sig, SumBits(com.suite, c.bitmap, com.keys))
  }

  /** Every honest member in the bitmap signed the message, in one round or the other. */
  ghost predicate Backed(com: Committee, world: seq<Member>, c: Claim)
    requires forall i :: 0 <= i < |world| ==> Genuine(com, world[i])
  {
    forall i: nat :: i in Ones(c.bitmap) && i < |world| && !world[i].FaultyMember? ==>
      Signs(com, world[i], false, c.message) || Signs(com, world[i], true, c.message)
  }

  /** The scheme is unforgeable: a signature that verifies is backed by the honest members of its bitmap. */
  ghost predicate Unforged(com: Committee, world: seq<Member>, c: Claim)
    requires forall i :: 0 <= i < |world| ==> Genuine(com, world[i])
  {
    Verifies(com, c) ==> Backed(com, world, c)
  }

  /** With separated rounds, an honest member signed a message in the round its form belongs to. */
  lemma RoundOfMessage(com: Committee, world: seq<Member>, i: nat, message: Bytes)
    requires forall k :: 0 <= k < |world| ==> Genuine(com, world[k])
    requires Separated(com, world) && i < |world| && !world[i].FaultyMember?
    requires Signs(com, world[i], false, message) || Signs(com, world[i], true, message)
    ensures Signs(com, world[i], IsExtension(com, message), message)
  {
    if Signs(com, world[i], true, message) {
      SecondRoundExtends(com, world[i], message);
    }
  }

  /**
    Agreement: with fewer than 2t - n faulty members, two verifying collective signatures with t bits each on messages
    of the same round are on the same message, whoever leads and whatever the network does.
  */
  lemma SameRoundSameMessage(com: Committee, world: seq<Member>, t: nat, c1: Claim, c2: Claim)
    requires |world| == |com.keys| && forall i :: 0 <= i < |world| ==> Genuine(com, world[i])
    requires |Faulty(world)| + |world| < 2 * t && Separated(com, world)
    requires IsExtension(com, c1.message) <==> IsExtension(com, c2.message)
    requires Verifies(com, c1) && Count(c1.bitmap) >= t && Unforged(com, world, c1)
    requires Verifies(com, c2) && Count(c2.bitmap) >= t && Unforged(com, world, c2)
    ensures c1.message == c2.message
  {
    QuorumOverlap(|world|, t, Faulty(world), c1.bitmap, c2.bitmap);
    var i :| i in Ones(c1.bitmap) && i in Ones(c2.bitmap) && i !in Faulty(world);
    RoundOfMessage(com, world, i, c1.message);
    RoundOfMessage(com, world, i, c2.message);
    SignsOneMessage(com, world[i], IsExtension(com, c1.message), c1.message, c2.message);
  }

  /** What a backup at DONE accepted in the second round. */
  function FinalClaim(b: BM.Backup): Claim {
    Claim(b.message, b.cs2, b.b2)
  }

  /** Two backups that are DONE with t bits in B2 hold the same final message, with fewer than 2t - n faulty members. */
  lemma DoneBackupsAgree(com: Committee, world: seq<Member>, t: nat, i: nat, j: nat)
    requires |world| == |com.keys| && forall k :: 0 <= k < |world| ==> Genuine(com, world[k])
    requires |Faulty(world)| + |world| < 2 * t && Separated(com, world)
    requires i < |world| && world[i].BackupMember? && DoneAtEnd(com, world, i, t)
    requires j < |world| && world[j].BackupMember? && DoneAtEnd(com, world, j, t)
    ensures LastState(world[i]).message == LastState(world[j]).message
  {
    DoneHoldsExtension(com, world, i, t);
    DoneHoldsExtension(com, world, j, t);
    SameRoundSameMessage(com, world, t, FinalClaim(LastState(world[i])), FinalClaim(LastState(world[j])));
  }

  /** One third of faults is tolerated with a tolerance fraction of two thirds, if B2 has a quorum of bits. */
  lemma ThirdIsTolerated(com: Committee, num: nat, den: nat, world: seq<Member>, i: nat, j: nat)
    requires 0 < den && 3 * num >= 2 * den && com.quorum == NumForConsensus(|world|, num, den)
    requires |world| == |com.keys| && forall k :: 0 <= k < |world| ==> Genuine(com, world[k])
    requires 3 * |Faulty(world)| < |world| && Separated(com, world)
    requires i < |world| && world[i].BackupMember? && DoneAtEnd(com, world, i, com.quorum)
    requires j < |world| && world[j].BackupMember? && DoneAtEnd(com, world, j, com.quorum)
    ensures LastState(world[i]).message == LastState(world[j]).message
  {
    ThirdIsEnough(|world|, num, den, |Faulty(world)|);
    DoneBackupsAgree(com, world, com.quorum, i, j);
  }

  lemma DoneHoldsExtension(com: Committee, world: seq<Member>, i: nat, t: nat)
    requires forall k :: 0 <= k < |world| ==> Genuine(com, world[k])
    requires i < |world| && world[i].BackupMember? && DoneAtEnd(com, world, i, t)
    ensures Verifies(com, FinalClaim(LastState(world[i]))) && IsExtension(com, LastState(world[i]).message)
  {
    var r := world[i].backupRun;
    var a, c, d := BR.DoneMeansVerifiedTwice(world[i].backupCfg, r, |r.inputs|);
  }

  function LastState(m: Member): BM.Backup
    requires m.BackupMember? && |m.backupRun.states| > 0
  {
    m.backupRun.states[|m.backupRun.states| - 1]
  }

  /** The backup ends at DONE with at least `t` bits in B2, and nobody forged that signature. */
  ghost predicate DoneAtEnd(com: Committee, world: seq<Member>, i: nat, t: nat)
    requires i < |world| && world[i].BackupMember?
    requires forall k :: 0 <= k < |world| ==> Genuine(com, world[k])
  {
    assert Genuine(com, world[i]);
    var b := LastState(world[i]);
    b.state.Done? && Count(b.b2) >= t && Unforged(com, world, FinalClaim(b))
  }

  /**
    Equal second-round messages over bases of equal length carry the same bitmap B1, if signatures have one serialised
    length.
  */
  lemma SecondMessageFixesBitmap(s: Suite, base: Bytes, base': Bytes, sig: Signature, sig': Signature, b: Bitmap,
                                 b': Bitmap)
    requires Extended(s, base, sig, b) == Extended(s, base', sig', b')
    requires |base| == |base'| && |s.serialize(sig)| == |s.serialize(sig')| && |b| < 65536 && |b'| < 65536
    ensures base == base' && s.serialize(sig) == s.serialize(sig') && b == b'
  {
    var m, n, k := Extended(s, base, sig, b), |base|, |base| + |s.serialize(sig)|;
    assert m[..n] == base && m[..n] == base';
    assert m[n..k] == s.serialize(sig) && m[n..k] == s.serialize(sig');
    assert m[k..] == BitVectorBytes(b) && m[k..] == BitVectorBytes(b');
    BitVectorInjective(b, b');
  }
}
