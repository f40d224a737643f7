/**
  Where agreement ends. A backup checks no number of bits, so the bound on the faulty members that agreement needs is
  met or missed by the signatures themselves; here the runs that miss it are built.
*/
module Disagreement {
  import opened Options
  import opened Bitmaps
  import opened MultiSig
  import opened Consensus
  import opened Agreement
  import BM = BackupModel
  import BR = BackupRuns

  // ---------- signatures by any set of members ----------

  /** The private keys of the members of `signers`, at their positions. */
  ghost predicate Holds(com: Committee, privKeys: seq<int>, signers: Bitmap) {
    && |signers| <= |privKeys| == |com.keys|
    && forall i :: 0 <= i < |signers| && signers[i] ==> com.keys[i] == com.suite.mul(privKeys[i], com.suite.g)
  }

  ghost predicate HoldsAll(com: Committee, privKeys: seq<int>) {
    && |privKeys| == |com.keys|
    && forall i :: 0 <= i < |privKeys| ==> com.keys[i] == com.suite.mul(privKeys[i], com.suite.g)
  }

  function Commits(com: Committee, secret: int): (r: seq<Point>)
    ensures |r| == |com.keys|
  {
    seq(|com.keys|, _ => com.suite.mul(secret, com.suite.g))
  }

  /** The challenge the members of `signers` get for `message` when each commits to `secret`. */
  function ChallengeOf(com: Committee, secret: int, signers: Bitmap, message: Bytes): ChallengeInfo
    requires |signers| <= |com.keys|
  {
    var s := com.suite;
    var commit, key := SumBits(s, signers, Commits(com, secret)), SumBits(s, signers, com.keys);
    ChallengeInfo(Some(commit), key, Some(s.challenge(commit, key, message)))
  }

  function CoSignature(com: Committee, privKeys: seq<int>, secret: int, signers: Bitmap, message: Bytes): Signature
    requires |signers| <= |com.keys| == |privKeys|
  {
    var c := ChallengeOf(com, secret, signers, message).challenge.value;
    var rs := seq(|privKeys|, i requires 0 <= i < |privKeys| => Respond(secret, c, privKeys[i]));
    Signature(c, SumIntBits(signers, rs))
  }

  /** The members of a bitmap can sign any message together, however many they are. */
  lemma CoSignatureHolds(com: Committee, privKeys: seq<int>, secret: int, signers: Bitmap, message: Bytes)
    requires Lawful(com.suite) && Holds(com, privKeys, signers)
    ensures Verifies(com, Claim(message, CoSignature(com, privKeys, secret, signers, message), signers))
  {
    var s, c := com.suite, ChallengeOf(com, secret, signers, message).challenge.value;
    var rs := seq(|privKeys|, i requires 0 <= i < |privKeys| => Respond(secret, c, privKeys[i]));
    forall i | 0 <= i < |signers| && signers[i]
      ensures VerifyResponse(s, rs[i], c, com.keys[i], Commits(com, secret)[i])
    {
      HonestResponseVerifies(s, secret, c, privKeys[i]);
    }
    CoSignatureVerifies(s, message, signers, rs, com.keys, Commits(com, secret), c);
  }

  // ---------- runs built one message at a time ----------

  ghost predicate Session(cfg: BM.Config, r: BR.Run) {
    BR.IsRun(cfg, r) && BR.WithoutFailure(r)
  }

  function Last(r: BR.Run): BM.Backup
    requires |r.states| > 0
  {
    r.states[|r.states| - 1]
  }

  function Idle(cfg: BM.Config): BR.Run {
    BR.Run([BM.Fresh(cfg)], [], [])
  }

  /** An accepting backup gets one more message. */
  function Next(cfg: BM.Config, r: BR.Run, msg: LeaderMsg, draws: seq<int>): BR.Run
    requires |r.states| > 0 && BM.WellFormed(cfg, BM.Input(msg, BM.Accepts, true, draws))
  {
    var input := BM.Input(msg, BM.Accepts, true, draws);
    var res := BM.Deliver(cfg, Last(r), input);
    BR.Run(r.states + [res.backup], r.inputs + [input], r.sent + [res.sent])
  }

  lemma NextIsSession(cfg: BM.Config, r: BR.Run, msg: LeaderMsg, draws: seq<int>)
    requires Session(cfg, r) && !msg.ConsensusFailure?
    requires BM.WellFormed(cfg, BM.Input(msg, BM.Accepts, true, draws))
    ensures Session(cfg, Next(cfg, r, msg, draws))
  {
    var r' := Next(cfg, r, msg, draws);
    forall i: nat | i < |r'.inputs|
      ensures BR.StepAt(cfg, r', i)
    {
      if i < |r.inputs| {
        assert BR.StepAt(cfg, r, i);
      }
    }
  }

  lemma NextStillSigns(cfg: BM.Config, r: BR.Run, msg: LeaderMsg, draws: seq<int>, i: nat, final: bool, signed: Bytes)
    requires Session(cfg, r) && BackupSignsAt(cfg, r, i, final, signed)
    requires BM.WellFormed(cfg, BM.Input(msg, BM.Accepts, true, draws))
    requires BR.IsRun(cfg, Next(cfg, r, msg, draws))
    ensures BackupSignsAt(cfg, Next(cfg, r, msg, draws), i, final, signed)
  {}

  /** The backup announced to `message`, waiting for a challenge or a signature. */
  function Announced(cfg: BM.Config, message: Bytes, draws: seq<int>): BR.Run
    requires |draws| == cfg.numSubsets
  {
    Next(cfg, Idle(cfg), Announce(message), draws)
  }

  lemma AnnouncedIs(cfg: BM.Config, message: Bytes, draws: seq<int>)
    requires |draws| == cfg.numSubsets
    ensures var r := Announced(cfg, message, draws);
      Session(cfg, r) && |r.inputs| == 1 && Last(r).state.CommitDone? && Last(r).message == message &&
        Last(r).secrets == draws
  {
    NextIsSession(cfg, Idle(cfg), Announce(message), draws);
  }

  /** A first-round signature over what the backup holds opens the second round, with the challenge answered or not. */
  lemma FirstSigned(cfg: BM.Config, r: BR.Run, sig: Signature, bitmap: Bitmap, draws: seq<int>)
    requires Session(cfg, r) && Last(r).state in {CommitDone, ResponseDone} && |draws| == cfg.numSubsets
    requires Verifies(cfg.com, Claim(Last(r).message, sig, bitmap))
    ensures BM.WellFormed(cfg, BM.Input(CollectiveSig(false, sig, bitmap, None), BM.Accepts, true, draws))
    ensures var r' := Next(cfg, r, CollectiveSig(false, sig, bitmap, None), draws);
      && Session(cfg, r') && Last(r').state.FinalCommitDone? && Last(r').secrets == draws
      && Last(r').message == Extended(cfg.com.suite, Last(r).message, sig, bitmap) && Last(r').b1 == bitmap
  {
    NextIsSession(cfg, r, CollectiveSig(false, sig, bitmap, None), draws);
  }

  lemma SecondSigned(cfg: BM.Config, r: BR.Run, sig: Signature, bitmap: Bitmap, draws: seq<int>)
    requires Session(cfg, r) && Last(r).state in {FinalCommitDone, FinalResponseDone} && |draws| == cfg.numSubsets
    requires Verifies(cfg.com, Claim(Last(r).message, sig, bitmap))
    ensures BM.WellFormed(cfg, BM.Input(CollectiveSig(true, sig, bitmap, None), BM.Accepts, true, draws))
    ensures var r' := Next(cfg, r, CollectiveSig(true, sig, bitmap, None), draws);
      && Session(cfg, r') && Last(r').state.Done? && Last(r').message == Last(r).message
      && Last(r').b1 == Last(r).b1 && FinalClaim(Last(r')) == Claim(Last(r).message, sig, bitmap)
  {
    NextIsSession(cfg, r, CollectiveSig(true, sig, bitmap, None), draws);
  }

  /** A challenge over what the backup holds makes it sign. */
  lemma Challenged(cfg: BM.Config, r: BR.Run, final: bool, info: ChallengeInfo, draws: seq<int>)
    requires Session(cfg, r) && Last(r).state == (if final then FinalCommitDone else CommitDone)
    requires |Last(r).secrets| == |draws| == cfg.numSubsets && 0 < cfg.numSubsets
    requires ChallengeFor(cfg.com.suite, info, Last(r).message)
    ensures var r' := Next(cfg, r, Challenge(final, [info]), draws);
      && Session(cfg, r') && Last(r').state == (if final then FinalResponseDone else ResponseDone)
      && Last(r').message == Last(r).message && BackupSignsAt(cfg, r', |r.inputs|, final, Last(r).message)
  {
    NextIsSession(cfg, r, Challenge(final, [info]), draws);
    BM.ScanAnswers(cfg, Last(r), [info]);
  }

  // ---------- one member is enough for DONE ----------

  function Alone(n: nat, i: nat): Bitmap
    requires i < n
  {
    Blank(n)[i := true]
  }

  /**
    A leader with one private key brings any accepting backup to DONE on any message: B1 and B2 have one bit each, and
    both signatures verify. The quorum is a rule of `ConsensusLeader` only.
  */
  lemma OneMemberSuffices(cfg: BM.Config, i: nat, privKey: int, message: Bytes, draws: seq<int>) returns (r: BR.Run)
    requires Lawful(cfg.com.suite) && |draws| == cfg.numSubsets
    requires i < |cfg.com.keys| && cfg.com.keys[i] == cfg.com.suite.mul(privKey, cfg.com.suite.g)
    ensures BR.IsRun(cfg, r) && BR.WithoutFailure(r) && |r.inputs| == 3
    ensures var b := Last(r);
      && b.state.Done? && Ones(b.b1) == {i} && Ones(b.b2) == {i} && Verifies(cfg.com, FinalClaim(b))
      && exists sig: Signature :: b.message == Extended(cfg.com.suite, message, sig, b.b1)
  {
    var n := |cfg.com.keys|;
    var signer, privKeys := Alone(n, i), seq(n, _ => privKey);
    OnesOfUpdate(Blank(n), i);
    BlankHasNoOnes(n);
    r := Announced(cfg, message, draws);
    AnnouncedIs(cfg, message, draws);
    var sig1 := CoSignature(cfg.com, privKeys, 1, signer, message);
    CoSignatureHolds(cfg.com, privKeys, 1, signer, message);
    FirstSigned(cfg, r, sig1, signer, draws);
    r := Next(cfg, r, CollectiveSig(false, sig1, signer, None), draws);
    var sig2 := CoSignature(cfg.com, privKeys, 1, signer, Last(r).message);
    CoSignatureHolds(cfg.com, privKeys, 1, signer, Last(r).message);
    SecondSigned(cfg, r, sig2, signer, draws);
    r := Next(cfg, r, CollectiveSig(true, sig2, signer, None), draws);
  }

  // ---------- two sides of a committee ----------

  /** The second-round message of a side. */
  function SideMessage(com: Committee, privKeys: seq<int>, signers: Bitmap, message: Bytes): Bytes
    requires |signers| <= |com.keys| == |privKeys|
  {
    Extended(com.suite, message, CoSignature(com, privKeys, 1, signers, message), signers)
  }

  /** A backup is led through both rounds by the members of `signers`, signing in each. */
  lemma SideRun(com: Committee, privKeys: seq<int>, signers: Bitmap, message: Bytes, cfg: BM.Config) returns (r: BR.Run)
    requires Lawful(com.suite) && Holds(com, privKeys, signers) && cfg.com == com && cfg.numSubsets == 1
    ensures Session(cfg, r) && BackupSignsAt(cfg, r, 1, false, message)
    ensures BackupSignsAt(cfg, r, 3, true, SideMessage(com, privKeys, signers, message))
    ensures Last(r).state.Done? && Last(r).b2 == signers
    ensures Last(r).message == SideMessage(com, privKeys, signers, message) && Verifies(com, FinalClaim(Last(r)))
  {
    var sig1 := CoSignature(com, privKeys, 1, signers, message);
    var m2 := SideMessage(com, privKeys, signers, message);
    var sig2 := CoSignature(com, privKeys, 1, signers, m2);
    CoSignatureHolds(com, privKeys, 1, signers, message);
    CoSignatureHolds(com, privKeys, 1, signers, m2);
    var r1 := Announced(cfg, message, [1]);
    AnnouncedIs(cfg, message, [1]);
    var first := ChallengeOf(com, 1, signers, message);
    Challenged(cfg, r1, false, first, [1]);
    var r2 := Next(cfg, r1, Challenge(false, [first]), [1]);
    FirstSigned(cfg, r2, sig1, signers, [1]);
    var r3 := Next(cfg, r2, CollectiveSig(false, sig1, signers, None), [1]);
    NextStillSigns(cfg, r2, CollectiveSig(false, sig1, signers, None), [1], 1, false, message);
    var second := ChallengeOf(com, 1, signers, m2);
    Challenged(cfg, r3, true, second, [1]);
    var r4 := Next(cfg, r3, Challenge(true, [second]), [1]);
    NextStillSigns(cfg, r3, Challenge(true, [second]), [1], 1, false, message);
    SecondSigned(cfg, r4, sig2, signers, [1]);
    r := Next(cfg, r4, CollectiveSig(true, sig2, signers, None), [1]);
    NextStillSigns(cfg, r4, CollectiveSig(true, sig2, signers, None), [1], 1, false, message);
    NextStillSigns(cfg, r4, CollectiveSig(true, sig2, signers, None), [1], 3, true, m2);
  }

  /** A committee with 2t - n faulty members or more splits into two sides of t members that share faulty ones only. */
  lemma SplitSides(n: nat, t: nat, faulty: set<nat>) returns (x: set<nat>, y: set<nat>)
    requires faulty <= Below(n) && |faulty| + n >= 2 * t && |faulty| + 2 <= n
    ensures x <= Below(n) && y <= Below(n) && x !! y && x !! faulty && y !! faulty && x != {} && y != {}
    ensures Count(SetBits(n, faulty + x)) >= t && Count(SetBits(n, faulty + y)) >= t
  {
    var honest := Below(n) - faulty;
    var k := if |faulty| >= t then 1 else t - |faulty|;
    assert |honest| == n - |faulty|;
    x := TakeSubset(honest, k);
    assert |honest - x| == |honest| - k;
    y := TakeSubset(honest - x, k);
    assert (faulty + x) * Below(n) == faulty + x && (faulty + y) * Below(n) == faulty + y;
    assert |faulty + x| == |faulty| + k && |faulty + y| == |faulty| + k;
  }

  /** An honest backup that signed for `signers` in both rounds and is DONE. */
  ghost predicate OnSide(com: Committee, privKeys: seq<int>, signers: Bitmap, message: Bytes, m: Member)
    requires |signers| <= |com.keys| == |privKeys|
  {
    && m.BackupMember? && Genuine(com, m)
    && Signs(com, m, false, message) && Signs(com, m, true, SideMessage(com, privKeys, signers, message))
    && LastState(m).state.Done? && LastState(m).b2 == signers
    && LastState(m).message == SideMessage(com, privKeys, signers, message)
  }

  ghost predicate Silent(com: Committee, m: Member) {
    m.BackupMember? && Genuine(com, m) && forall final, message :: !Signs(com, m, final, message)
  }

  /** Every member has its own key and its own run; the sides `x` and `y` are told `[0]` and `[1]`. */
  ghost predicate Placed(com: Committee, privKeys: seq<int>, faulty: set<nat>, x: set<nat>, y: set<nat>, i: nat,
                         m: Member)
    requires i < |com.keys| == |privKeys|
  {
    && (i in faulty ==> m.FaultyMember?)
    && (i !in faulty ==> m.BackupMember? && m.backupCfg.privKey == privKeys[i])
    && (i in x ==> OnSide(com, privKeys, SetBits(|com.keys|, faulty + x), [0], m))
    && (i in y ==> OnSide(com, privKeys, SetBits(|com.keys|, faulty + y), [1], m))
    && (i !in faulty && i !in x && i !in y ==> Silent(com, m))
  }

  lemma SideMember(com: Committee, privKeys: seq<int>, signers: Bitmap, message: Bytes, i: nat) returns (m: Member)
    requires Lawful(com.suite) && Holds(com, privKeys, signers) && i < |privKeys|
    ensures OnSide(com, privKeys, signers, message, m) && m.backupCfg.privKey == privKeys[i]
  {
    var cfg := BM.Config(com, privKeys[i], 1);
    var r := SideRun(com, privKeys, signers, message, cfg);
    m := BackupMember(cfg, r);
    assert BackupSignsAt(cfg, r, 1, false, message);
    assert BackupSignsAt(cfg, r, 3, true, SideMessage(com, privKeys, signers, message));
  }

  lemma PlaceMember(com: Committee, privKeys: seq<int>, faulty: set<nat>, x: set<nat>, y: set<nat>, i: nat)
    returns (m: Member)
    requires Lawful(com.suite) && HoldsAll(com, privKeys) && i < |privKeys|
    requires x !! y && x !! faulty && y !! faulty
    ensures Placed(com, privKeys, faulty, x, y, i, m)
  {
    var n := |com.keys|;
    if i in faulty {
      m := FaultyMember;
    } else if i in x {
      m := SideMember(com, privKeys, SetBits(n, faulty + x), [0], i);
    } else if i in y {
      m := SideMember(com, privKeys, SetBits(n, faulty + y), [1], i);
    } else {
      var cfg := BM.Config(com, privKeys[i], 1);
      m := BackupMember(cfg, Idle(cfg));
    }
  }

  lemma {:induction false} PlaceMembers(com: Committee, privKeys: seq<int>, faulty: set<nat>, x: set<nat>, y: set<nat>,
                                        n: nat)
    returns (world: seq<Member>)
    requires Lawful(com.suite) && HoldsAll(com, privKeys) && n <= |privKeys|
    requires x !! y && x !! faulty && y !! faulty
    ensures |world| == n && forall i: nat :: i < n ==> Placed(com, privKeys, faulty, x, y, i, world[i])
    decreases n
  {
    if n == 0 {
      world := [];
    } else {
      var rest := PlaceMembers(com, privKeys, faulty, x, y, n - 1);
      var m := PlaceMember(com, privKeys, faulty, x, y, n - 1);
      world := rest + [m];
    }
  }

  /** The base of an extension is too short to be one itself. */
  lemma ShortIsBase(com: Committee, message: Bytes)
    requires |message| <= 1
    ensures !IsExtension(com, message)
  {}

  lemma PlacedIsSeparated(com: Committee, privKeys: seq<int>, faulty: set<nat>, x: set<nat>, y: set<nat>,
                          world: seq<Member>)
    requires |world| == |com.keys| == |privKeys| && forall i :: 0 <= i < |world| ==> Genuine(com, world[i])
    requires forall i: nat :: i < |world| ==> Placed(com, privKeys, faulty, x, y, i, world[i])
    ensures Separated(com, world)
  {
    forall i: nat, message: Bytes | i < |world| && !world[i].FaultyMember? && Signs(com, world[i], false, message)
      ensures !IsExtension(com, message)
    {
      assert Placed(com, privKeys, faulty, x, y, i, world[i]);
      if i in x {
        SignsOneMessage(com, world[i], false, message, [0]);
      } else if i in y {
        SignsOneMessage(com, world[i], false, message, [1]);
      }
      ShortIsBase(com, message);
    }
  }

  lemma PlacedIsWorld(com: Committee, privKeys: seq<int>, faulty: set<nat>, x: set<nat>, y: set<nat>,
                      world: seq<Member>)
    requires |world| == |com.keys| == |privKeys| && faulty <= Below(|world|)
    requires forall i: nat :: i < |world| ==> Placed(com, privKeys, faulty, x, y, i, world[i])
    ensures (forall i :: 0 <= i < |world| ==> Genuine(com, world[i])) && Separated(com, world) &&
      Faulty(world) == faulty
    ensures forall i: nat :: i < |world| && i in x ==>
      OnSide(com, privKeys, SetBits(|com.keys|, faulty + x), [0], world[i])
    ensures forall i: nat :: i < |world| && i in y ==>
      OnSide(com, privKeys, SetBits(|com.keys|, faulty + y), [1], world[i])
  {
    forall i: nat | i < |world|
      ensures Genuine(com, world[i]) && (i in faulty <==> world[i].FaultyMember?)
    {
      assert Placed(com, privKeys, faulty, x, y, i, world[i]);
    }
    PlacedIsSeparated(com, privKeys, faulty, x, y, world);
  }

  /** A side's final claim is backed: its honest members all signed it. */
  lemma SideIsDone(com: Committee, privKeys: seq<int>, faulty: set<nat>, side: set<nat>, message: Bytes, t: nat,
                   world: seq<Member>, i: nat)
    requires |world| == |com.keys| == |privKeys| && forall k :: 0 <= k < |world| ==> Genuine(com, world[k])
    requires Faulty(world) == faulty && i in side && i < |world| && Count(SetBits(|com.keys|, faulty + side)) >= t
    requires forall k: nat :: k < |world| && k in side ==>
      OnSide(com, privKeys, SetBits(|com.keys|, faulty + side), message, world[k])
    ensures world[i].BackupMember? && DoneAtEnd(com, world, i, t)
  {
    var c := FinalClaim(LastState(world[i]));
    forall k: nat | k in Ones(c.bitmap) && k < |world| && !world[k].FaultyMember?
      ensures Signs(com, world[k], true, c.message)
    {
      assert k !in Faulty(world);
      assert k in side;
    }
  }

  /** A world with these faults that keeps the assumptions of agreement, and two of its backups that are DONE. */
  ghost predicate BothDone(com: Committee, faulty: set<nat>, t: nat, world: seq<Member>, i: nat, j: nat) {
    && |world| == |com.keys| && (forall k :: 0 <= k < |world| ==> Genuine(com, world[k]))
    && Faulty(world) == faulty && Separated(com, world)
    && i < |world| && world[i].BackupMember? && DoneAtEnd(com, world, i, t)
    && j < |world| && world[j].BackupMember? && DoneAtEnd(com, world, j, t)
  }

  /**
    With 2t - n faulty members or more, and two honest ones, some world has two DONE backups with t bits in B2 each and
    different final messages. A faulty leader tells the two sides different messages.
  */
  lemma DoneBackupsDisagree(com: Committee, privKeys: seq<int>, faulty: set<nat>, t: nat)
    returns (world: seq<Member>, i: nat, j: nat)
    requires Lawful(com.suite) && HoldsAll(com, privKeys)
    requires faulty <= Below(|com.keys|) && |faulty| + 2 <= |com.keys| && |faulty| + |com.keys| >= 2 * t
    ensures BothDone(com, faulty, t, world, i, j) && LastState(world[i]).message != LastState(world[j]).message
  {
    var x, y := SplitSides(|com.keys|, t, faulty);
    world := PlaceMembers(com, privKeys, faulty, x, y, |com.keys|);
    PlacedIsWorld(com, privKeys, faulty, x, y, world);
    i :| i in x;
    j :| j in y;
    SideIsDone(com, privKeys, faulty, x, [0], t, world, i);
    SideIsDone(com, privKeys, faulty, y, [1], t, world, j);
    assert LastState(world[i]).message[0] == 0 && LastState(world[j]).message[0] == 1;
  }

  /** Backups that are DONE with `t` bits hold the same message, in every world with these faults. */
  ghost predicate AgreeAt(com: Committee, faulty: set<nat>, t: nat) {
    forall world: seq<Member>, i: nat, j: nat :: BothDone(com, faulty, t, world, i, j) ==>
      LastState(world[i]).message == LastState(world[j]).message
  }

  /** Agreement at a threshold of t bits holds if and only if fewer than 2t - n members are faulty. */
  lemma AgreeAtIff(com: Committee, privKeys: seq<int>, faulty: set<nat>, t: nat)
    requires Lawful(com.suite) && HoldsAll(com, privKeys)
    requires faulty <= Below(|com.keys|) && |faulty| + 2 <= |com.keys|
    ensures AgreeAt(com, faulty, t) <==> |faulty| + |com.keys| < 2 * t
  {
    if |faulty| + |com.keys| < 2 * t {
      forall world: seq<Member>, i: nat, j: nat | BothDone(com, faulty, t, world, i, j)
        ensures LastState(world[i]).message == LastState(world[j]).message
      {
        DoneBackupsAgree(com, world, t, i, j);
      }
    } else {
      var world, i, j := DoneBackupsDisagree(com, privKeys, faulty, t);
    }
  }

  /** `ConsensusBackup` counts no bits. To ask for one bit never makes two honest backups agree, whoever is faulty. */
  lemma DoneIsNotAgreement(com: Committee, privKeys: seq<int>, faulty: set<nat>)
    requires Lawful(com.suite) && HoldsAll(com, privKeys)
    requires faulty <= Below(|com.keys|) && |faulty| + 2 <= |com.keys|
    ensures !AgreeAt(com, faulty, 1)
  {
    AgreeAtIff(com, privKeys, faulty, 1);
  }
}
