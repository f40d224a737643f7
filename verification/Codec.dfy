/** Numbers in byte streams (`Serializable`). */
module Codec {
  import opened Arithmetic
  import opened MultiSig

  function Pow256(n: nat): nat {
    if n == 0 then 1 else 256 * Pow256(n - 1)
  }

  /** `value >> 8n` and `value << 8n`. */
  function Shr(value: nat, n: nat): nat {
    if n == 0 then value else Shr(value / 256, n - 1)
  }

  function Shl(value: nat, n: nat): nat
    decreases n
  {
    if n == 0 then value else Shl(value * 256, n - 1)
  }

  /** The low `width` bytes, most significant first. */
  function Encode(value: nat, width: nat): (bs: Bytes)
    ensures |bs| == width
  {
    if width == 0 then [] else Encode(value / 256, width - 1) + [value % 256]
  }

  function Decode(bs: Bytes): nat {
    if bs == [] then 0 else Decode(bs[..|bs| - 1]) * 256 + bs[|bs| - 1]
  }

  /** Byte `i` as the loop in `SetNumber` computes it. */
  lemma {:induction false} EncodeAt(value: nat, width: nat, i: nat)
    requires i < width
    ensures Encode(value, width)[i] == Shr(value, width - 1 - i) % 256
  {
    if i < width - 1 {
      EncodeAt(value / 256, width - 1, i);
    }
  }

  lemma {:induction false} ShlAdd(a: nat, b: nat, n: nat)
    ensures Shl(a + b, n) == Shl(a, n) + Shl(b, n)
    decreases n
  {
    if n > 0 {
      ShlAdd(a * 256, b * 256, n - 1);
    }
  }

  lemma {:induction false} ShlIs(value: nat, n: nat)
    ensures Shl(value, n) == value * Pow256(n)
    decreases n
  {
    if n > 0 {
      ShlIs(value * 256, n - 1);
      assert (value * 256) * Pow256(n - 1) == value * (256 * Pow256(n - 1));
    }
  }

  lemma {:induction false} ShlOfByte(q: nat, r: nat, n: nat)
    ensures Shl(q * 256 + r, n) == Shl(q, n + 1) + Shl(r, n)
  {
    ShlAdd(q * 256, r, n);
  }

  /** What encoding drops and what it keeps. */
  lemma {:induction false} EncodeKeepsLow(value: nat, width: nat)
    ensures Shl(Shr(value, width), width) + Decode(Encode(value, width)) == value
    ensures Decode(Encode(value, width)) < Pow256(width)
  {
    if width > 0 {
      var high, bs := value / 256, Encode(value / 256, width - 1);
      EncodeKeepsLow(high, width - 1);
      assert Encode(value, width)[..width - 1] == bs;
      assert Decode(Encode(value, width)) == Decode(bs) * 256 + value % 256;
      ShlTimes(Shr(high, width - 1), width - 1);
    }
  }

  lemma {:induction false} ShlTimes(a: nat, n: nat)
    ensures Shl(a * 256, n) == Shl(a, n) * 256
    decreases n
  {
    if n > 0 {
      ShlTimes(a * 256, n - 1);
    }
  }

  /** Decoding what was encoded gives the value modulo 256^width. */
  lemma RoundTrip(value: nat, width: nat)
    ensures Pow256(width) > 0 && Decode(Encode(value, width)) == value % Pow256(width)
  {
    EncodeKeepsLow(value, width);
    ShlIs(Shr(value, width), width);
    ModIs(value, Shr(value, width), Decode(Encode(value, width)), Pow256(width));
  }

  /** A value that fits comes back as it is. */
  lemma {:induction false} Lossless(value: nat, width: nat)
    requires value < Pow256(width)
    ensures Decode(Encode(value, width)) == value
  {
    if width > 0 {
      Lossless(value / 256, width - 1);
      assert Encode(value, width)[..width - 1] == Encode(value / 256, width - 1);
    }
  }

  /** `dst` with the bytes of `value` at `offset`, grown if they do not fit. */
  function Written(dst: Bytes, offset: nat, value: nat, width: nat): Bytes
    requires offset <= |dst|
  {
    dst[..offset] + Encode(value, width) + if offset + width <= |dst| then dst[offset + width..] else []
  }

  method SetNumber(dst: Bytes, offset: nat, value: nat, width: nat) returns (r: Bytes)
    requires offset <= |dst|
    ensures r == Written(dst, offset, value, width)
  {
    var available := |dst| - offset;
    r := dst;
    if available < width {
      r := r + seq(width - available, _ => 0);
    }
    ghost var grown := r;
    ghost var bytes := Encode(value, width);
    for i := 0 to width
      invariant |r| == |grown|
      invariant forall j :: 0 <= j < |r| ==> r[j] == if offset <= j < offset + i then bytes[j - offset] else grown[j]
    {
      EncodeAt(value, width, i);
      r := r[offset + i := Shr(value, width - 1 - i) % 256];
    }
    assert r == Written(dst, offset, value, width);
  }

  /** Zero if the bytes are not there. */
  method GetNumber(src: Bytes, offset: nat, width: nat) returns (result: nat)
    ensures result == if offset + width <= |src| then Decode(src[offset..offset + width]) else 0
  {
    result := 0;
    if offset + width <= |src| {
      ShlIs(0, width);
      for i := 0 to width
        invariant result == Shl(Decode(src[offset..offset + i]), width - i)
      {
        var here := src[offset..offset + i + 1];
        assert here[..i] == src[offset..offset + i];
        ShlOfByte(Decode(src[offset..offset + i]), src[offset + i], width - i - 1);
        result := result + Shl(src[offset + i], width - i - 1);
      }
    }
  }

  /** Reading back what was written gives the value modulo 256^width, and every other byte is as before. */
  lemma ReadAfterWrite(dst: Bytes, offset: nat, value: nat, width: nat)
    requires offset <= |dst|
    ensures var r := Written(dst, offset, value, width);
      && |r| >= |dst| && |r| >= offset + width
      && Pow256(width) > 0
      && Decode(r[offset..offset + width]) == value % Pow256(width)
      && (forall i :: 0 <= i < |dst| && !(offset <= i < offset + width) ==> r[i] == dst[i])
  {
    RoundTrip(value, width);
    assert Written(dst, offset, value, width)[offset..offset + width] == Encode(value, width);
  }
}
