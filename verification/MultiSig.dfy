/**
  The Schnorr multi-signature algebra the consensus classes rely on.

  Points form an abelian group on which the integers act; the hash that yields a challenge, the hash
  of a commit point and the signature serialisation are arbitrary functions. All of them are fields of
  a `Suite`, so every result below holds for any group and any hash.
*/
module MultiSig {
  import opened Bitmaps

  type Byte = x: nat | x < 256
  type Bytes = seq<Byte>

  type Point(==, !new, 0)

  datatype Signature = Signature(challenge: int, response: int)

  /** A signature object before anything is put into it. */
  const NO_SIG := Signature(0, 0)

  datatype Suite = Suite(
    zero: Point,
    add: (Point, Point) -> Point,
    mul: (int, Point) -> Point,
    g: Point,
    challenge: (Point, Point, Bytes) -> int,
    commitHash: Point -> int,
    serialize: Signature -> Bytes)

  // Each law is a predicate of its arguments, so that a proof names the instances it uses.
  predicate Commutes(s: Suite, a: Point, b: Point) { s.add(a, b) == s.add(b, a) }
  predicate Associates(s: Suite, a: Point, b: Point, c: Point) { s.add(s.add(a, b), c) == s.add(a, s.add(b, c)) }
  predicate ZeroAdds(s: Suite, a: Point) { s.add(s.zero, a) == a }
  predicate ScalarsAdd(s: Suite, j: int, k: int, p: Point) { s.add(s.mul(j, p), s.mul(k, p)) == s.mul(j + k, p) }
  predicate ScalarsCompose(s: Suite, j: int, k: int, p: Point) { s.mul(j, s.mul(k, p)) == s.mul(j * k, p) }
  predicate PointsAdd(s: Suite, k: int, p: Point, q: Point) { s.mul(k, s.add(p, q)) == s.add(s.mul(k, p), s.mul(k, q)) }
  predicate ZeroScales(s: Suite, k: int, p: Point) { s.mul(0, p) == s.zero && s.mul(k, s.zero) == s.zero }

  ghost predicate Lawful(s: Suite) {
    && (forall a, b :: Commutes(s, a, b))
    && (forall a, b, c :: Associates(s, a, b, c))
    && (forall a :: ZeroAdds(s, a))
    && (forall j, k, p :: ScalarsAdd(s, j, k, p))
    && (forall j, k, p :: ScalarsCompose(s, j, k, p))
    && (forall k, p, q :: PointsAdd(s, k, p, q))
    && (forall k, p :: ZeroScales(s, k, p))
  }

  // ---------- sums over lists and over bitmaps ----------

  function SumPoints(s: Suite, ps: seq<Point>): Point {
    if ps == [] then s.zero else s.add(SumPoints(s, ps[..|ps| - 1]), ps[|ps| - 1])
  }

  function SumInts(rs: seq<int>): int {
    if rs == [] then 0 else SumInts(rs[..|rs| - 1]) + rs[|rs| - 1]
  }

  /** The sum of the points at the set positions of `b`. */
  function SumBits(s: Suite, b: Bitmap, ps: seq<Point>): Point
    requires |b| <= |ps|
  {
    if b == [] then s.zero
    else
      var i := |b| - 1;
      if b[i] then s.add(SumBits(s, b[..i], ps), ps[i]) else SumBits(s, b[..i], ps)
  }

  function SumIntBits(b: Bitmap, rs: seq<int>): int
    requires |b| <= |rs|
  {
    if b == [] then 0
    else
      var i := |b| - 1;
      SumIntBits(b[..i], rs) + if b[i] then rs[i] else 0
  }

  lemma AddSwap(s: Suite, a: Point, b: Point, c: Point)
    requires Lawful(s)
    ensures s.add(s.add(a, b), c) == s.add(s.add(a, c), b)
  {
    assert Associates(s, a, b, c) && Associates(s, a, c, b) && Commutes(s, b, c);
  }

  /** Only the points at set positions matter. */
  lemma {:induction false} SumBitsFrame(s: Suite, b: Bitmap, ps: seq<Point>, qs: seq<Point>)
    requires |b| <= |ps| && |b| <= |qs|
    requires forall i :: 0 <= i < |b| && b[i] ==> ps[i] == qs[i]
    ensures SumBits(s, b, ps) == SumBits(s, b, qs)
  {
    if b != [] {
      SumBitsFrame(s, b[..|b| - 1], ps, qs);
    }
  }

  lemma {:induction false} SumIntBitsFrame(b: Bitmap, rs: seq<int>, ts: seq<int>)
    requires |b| <= |rs| && |b| <= |ts|
    requires forall i :: 0 <= i < |b| && b[i] ==> rs[i] == ts[i]
    ensures SumIntBits(b, rs) == SumIntBits(b, ts)
  {
    if b != [] {
      SumIntBitsFrame(b[..|b| - 1], rs, ts);
    }
  }

  /** Setting one more bit adds exactly its point, wherever the bit is. */
  lemma {:induction false} SumBitsSet(s: Suite, b: Bitmap, ps: seq<Point>, i: nat, p: Point)
    requires Lawful(s) && i < |b| <= |ps| && !b[i]
    ensures SumBits(s, b[i := true], ps[i := p]) == s.add(SumBits(s, b, ps), p)
  {
    var last := |b| - 1;
    var b' := b[i := true];
    if i == last {
      assert b'[..last] == b[..last];
      SumBitsFrame(s, b[..last], ps, ps[i := p]);
    } else {
      assert b'[..last] == b[..last][i := true];
      SumBitsSet(s, b[..last], ps, i, p);
      if b[last] {
        AddSwap(s, SumBits(s, b[..last], ps), p, ps[last]);
      }
    }
  }

  lemma {:induction false} SumIntBitsSet(b: Bitmap, rs: seq<int>, i: nat, r: int)
    requires i < |b| <= |rs| && !b[i]
    ensures SumIntBits(b[i := true], rs[i := r]) == SumIntBits(b, rs) + r
  {
    var last := |b| - 1;
    var b' := b[i := true];
    if i == last {
      assert b'[..last] == b[..last];
      SumIntBitsFrame(b[..last], rs, rs[i := r]);
    } else {
      assert b'[..last] == b[..last][i := true];
      SumIntBitsSet(b[..last], rs, i, r);
    }
  }

  lemma {:induction false} SumBitsBlank(s: Suite, n: nat, ps: seq<Point>)
    requires n <= |ps|
    ensures SumBits(s, Blank(n), ps) == s.zero
  {
    if n > 0 {
      assert Blank(n)[..n - 1] == Blank(n - 1);
      SumBitsBlank(s, n - 1, ps);
    }
  }

  lemma {:induction false} SumIntBitsBlank(n: nat, rs: seq<int>)
    requires n <= |rs|
    ensures SumIntBits(Blank(n), rs) == 0
  {
    if n > 0 {
      assert Blank(n)[..n - 1] == Blank(n - 1);
      SumIntBitsBlank(n - 1, rs);
    }
  }

  // ---------- responses and signatures ----------

  /** `Response(secret, challenge, privKey)`. */
  function Respond(secret: int, challenge: int, privKey: int): int {
    secret - challenge * privKey
  }

  predicate VerifyResponse(s: Suite, response: int, challenge: int, key: Point, commit: Point) {
    s.add(s.mul(response, s.g), s.mul(challenge, key)) == commit
  }

  predicate MultiSigVerify(s: Suite, message: Bytes, sig: Signature, key: Point) {
    s.challenge(s.add(s.mul(sig.response, s.g), s.mul(sig.challenge, key)), key, message) == sig.challenge
  }

  /** An honestly computed response passes the leader's check. */
  lemma HonestResponseVerifies(s: Suite, secret: int, challenge: int, privKey: int)
    requires Lawful(s)
    ensures VerifyResponse(s, Respond(secret, challenge, privKey), challenge, s.mul(privKey, s.g), s.mul(secret, s.g))
  {
    var cx := challenge * privKey;
    assert ScalarsCompose(s, challenge, privKey, s.g) && ScalarsAdd(s, secret - cx, cx, s.g);
  }

  lemma AddPairs(s: Suite, a: Point, b: Point, c: Point, d: Point)
    requires Lawful(s)
    ensures s.add(s.add(a, b), s.add(c, d)) == s.add(s.add(a, c), s.add(b, d))
  {
    assert Associates(s, s.add(a, b), c, d) && Associates(s, s.add(a, c), b, d);
    AddSwap(s, a, b, c);
  }

  /** Individually verified responses verify in aggregate. */
  lemma {:induction false} ResponsesAggregate(s: Suite, b: Bitmap, c: int, rs: seq<int>, keys: seq<Point>,
                                              commits: seq<Point>)
    requires Lawful(s) && |b| <= |rs| && |b| <= |keys| && |b| <= |commits|
    requires forall i :: 0 <= i < |b| && b[i] ==> VerifyResponse(s, rs[i], c, keys[i], commits[i])
    ensures s.add(s.mul(SumIntBits(b, rs), s.g), s.mul(c, SumBits(s, b, keys))) == SumBits(s, b, commits)
  {
    if b == [] {
      assert ZeroScales(s, c, s.g) && ZeroAdds(s, s.zero);
    } else {
      var i := |b| - 1;
      var b' := b[..i];
      ResponsesAggregate(s, b', c, rs, keys, commits);
      if b[i] {
        var r, k := SumIntBits(b', rs), SumBits(s, b', keys);
        assert ScalarsAdd(s, r, rs[i], s.g) && PointsAdd(s, c, k, keys[i]);
        AddPairs(s, s.mul(r, s.g), s.mul(rs[i], s.g), s.mul(c, k), s.mul(c, keys[i]));
      }
    }
  }

  /**
    The co-signing identity: once every member of the bitmap that was hashed into the challenge has given
    a response that verifies, the aggregated signature verifies under the aggregated key.
  */
  lemma CoSignatureVerifies(s: Suite, message: Bytes, b: Bitmap, rs: seq<int>, keys: seq<Point>, commits: seq<Point>,
                            c: int)
    requires Lawful(s) && |b| <= |rs| && |b| <= |keys| && |b| <= |commits|
    requires forall i :: 0 <= i < |b| && b[i] ==> VerifyResponse(s, rs[i], c, keys[i], commits[i])
    requires c == s.challenge(SumBits(s, b, commits), SumBits(s, b, keys), message)
    ensures MultiSigVerify(s, message, Signature(c, SumIntBits(b, rs)), SumBits(s, b, keys))
  {
    ResponsesAggregate(s, b, c, rs, keys, commits);
  }

  // ---------- the bit vector appended to the second-round message ----------

  function BitAt(b: Bitmap, i: nat): nat {
    if i < |b| && b[i] then 1 else 0
  }

  /** Eight bits, most significant first; positions past the end are zero. */
  function PackedByte(b: Bitmap, j: nat): Byte {
    128 * BitAt(b, 8 * j) + 64 * BitAt(b, 8 * j + 1) + 32 * BitAt(b, 8 * j + 2) + 16 * BitAt(b, 8 * j + 3)
    + 8 * BitAt(b, 8 * j + 4) + 4 * BitAt(b, 8 * j + 5) + 2 * BitAt(b, 8 * j + 6) + BitAt(b, 8 * j + 7)
  }

  /** What `BitVector::SetBitVector` appends: the length in two bytes, then the packed bits. */
  function BitVectorBytes(b: Bitmap): Bytes {
    [(|b| / 256) % 256, |b| % 256] + seq((|b| + 7) / 8, j requires j >= 0 => PackedByte(b, j))
  }

  lemma PackedByteInjective(a: Bitmap, b: Bitmap, j: nat, k: nat)
    requires |a| == |b| && k < 8 && 8 * j + k < |a|
    requires PackedByte(a, j) == PackedByte(b, j)
    ensures a[8 * j + k] == b[8 * j + k]
  {
    assert BitAt(a, 8 * j) == BitAt(b, 8 * j) && BitAt(a, 8 * j + 1) == BitAt(b, 8 * j + 1)
        && BitAt(a, 8 * j + 2) == BitAt(b, 8 * j + 2) && BitAt(a, 8 * j + 3) == BitAt(b, 8 * j + 3)
        && BitAt(a, 8 * j + 4) == BitAt(b, 8 * j + 4) && BitAt(a, 8 * j + 5) == BitAt(b, 8 * j + 5)
        && BitAt(a, 8 * j + 6) == BitAt(b, 8 * j + 6) && BitAt(a, 8 * j + 7) == BitAt(b, 8 * j + 7);
  }

  /** Bitmaps of up to 65535 members are recovered from their bytes. */
  lemma BitVectorInjective(a: Bitmap, b: Bitmap)
    requires |a| < 65536 && |b| < 65536
    requires BitVectorBytes(a) == BitVectorBytes(b)
    ensures a == b
  {
    var x, y := BitVectorBytes(a), BitVectorBytes(b);
    assert x[0] == y[0] && x[1] == y[1];
    assert |a| == |b|;
    forall i: nat | i < |a|
      ensures a[i] == b[i]
    {
      var j, k := i / 8, i % 8;
      assert j < (|a| + 7) / 8;
      assert x[2 + j] == PackedByte(a, j) && y[2 + j] == PackedByte(b, j);
      PackedByteInjective(a, b, j, k);
    }
  }

  /** The weight of the k-th bit of a byte, most significant first. */
  function Weight(k: nat): nat
    requires k < 8
  {
    [128, 64, 32, 16, 8, 4, 2, 1][k]
  }

  /** The first `k` bits of a byte, as a number. */
  function HighBits(b: Bitmap, j: nat, k: nat): nat
    requires k <= 8
  {
    if k == 0 then 0 else 2 * HighBits(b, j, k - 1) + BitAt(b, 8 * j + k - 1)
  }

  lemma PackedIs(b: Bitmap, j: nat)
    ensures PackedByte(b, j) == HighBits(b, j, 8)
  {
    assert HighBits(b, j, 0) == 0 && HighBits(b, j, 1) == BitAt(b, 8 * j);
    assert HighBits(b, j, 2) == 2 * BitAt(b, 8 * j) + BitAt(b, 8 * j + 1);
    assert HighBits(b, j, 4) == 4 * HighBits(b, j, 2) + 2 * BitAt(b, 8 * j + 2) + BitAt(b, 8 * j + 3);
    assert HighBits(b, j, 6) == 4 * HighBits(b, j, 4) + 2 * BitAt(b, 8 * j + 4) + BitAt(b, 8 * j + 5);
    assert HighBits(b, j, 8) == 4 * HighBits(b, j, 6) + 2 * BitAt(b, 8 * j + 6) + BitAt(b, 8 * j + 7);
  }

  /** Dropping the bits after the k-th halves the byte for each of them. */
  lemma {:induction false} Dropped(b: Bitmap, j: nat, k: nat, w: nat)
    requires k < 8 && w == Weight(k)
    ensures HighBits(b, j, 8) / w == HighBits(b, j, k + 1)
    decreases 8 - k
  {
    if k < 7 {
      Dropped(b, j, k + 1, Weight(k + 1));
      var y := HighBits(b, j, k + 2);
      TwiceDivided(HighBits(b, j, 8), Weight(k + 1));
      assert y == 2 * HighBits(b, j, k + 1) + BitAt(b, 8 * j + k + 1);
    }
  }

  lemma TwiceDivided(x: nat, w: nat)
    requires w in {1, 2, 4, 8, 16, 32, 64}
    ensures x / (2 * w) == (x / w) / 2
  {}

  lemma PackedBit(b: Bitmap, j: nat, k: nat)
    requires k < 8
    ensures (PackedByte(b, j) / Weight(k)) % 2 == BitAt(b, 8 * j + k)
  {
    PackedIs(b, j);
    Dropped(b, j, k, Weight(k));
  }

  /**
    The layout on the wire: the number of bits in two bytes, high byte first, then bit i in byte i / 8 after them, the
    first bit of each byte being the most significant.
  */
  lemma BitVectorLayout(b: Bitmap, i: nat)
    requires |b| < 65536 && i < |b|
    ensures var bytes := BitVectorBytes(b);
      && |bytes| == 2 + (|b| + 7) / 8 && 256 * (bytes[0] as int) + bytes[1] == |b|
      && ((bytes[2 + i / 8] / Weight(i % 8)) % 2 == 1 <==> b[i])
  {
    assert i / 8 < (|b| + 7) / 8;
    assert BitVectorBytes(b)[2 + i / 8] == PackedByte(b, i / 8);
    PackedBit(b, i / 8, i % 8);
  }
}
