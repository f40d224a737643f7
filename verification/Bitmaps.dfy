/** Bitmaps indexed by committee position (`std::vector<bool>` in the consensus classes). */
module Bitmaps {

  type Bitmap = seq<bool>

  /** The positions whose bit is set. */
  function Ones(b: Bitmap): set<nat> {
    set i: nat | i < |b| && b[i]
  }

  function Count(b: Bitmap): nat {
    |Ones(b)|
  }

  function Blank(n: nat): Bitmap {
    seq(n, _ => false)
  }

  ghost predicate Within(a: Bitmap, b: Bitmap) {
    |a| == |b| && forall i :: 0 <= i < |a| && a[i] ==> b[i]
  }

  lemma OnesOfUpdate(b: Bitmap, i: nat)
    requires i < |b|
    ensures Ones(b[i := true]) == Ones(b) + {i}
    ensures !b[i] ==> Count(b[i := true]) == Count(b) + 1
  {
    assert Ones(b[i := true]) == Ones(b) + {i};
  }

  lemma BlankHasNoOnes(n: nat)
    ensures Ones(Blank(n)) == {}
  {}

  /** The first `n` positions. */
  function Below(n: nat): (s: set<nat>)
    ensures forall i: nat :: i in s <==> i < n
    ensures |s| == n
  {
    if n == 0 then {} else Below(n - 1) + {n - 1}
  }

  lemma SubsetCard<T>(a: set<T>, b: set<T>)
    requires a <= b
    ensures |a| <= |b|
    ensures |a| == |b| ==> a == b
  {
    assert b == a + (b - a);
  }

  /** A bitmap with as many ones as a bitmap around it is that bitmap. */
  lemma FullWithin(a: Bitmap, b: Bitmap)
    requires Within(a, b) && Count(a) == Count(b)
    ensures a == b
  {
    assert Ones(a) <= Ones(b);
    SubsetCard(Ones(a), Ones(b));
    forall i: nat | i < |a|
      ensures a[i] == b[i]
    {
      assert i in Ones(a) <==> a[i];
      assert i in Ones(b) <==> b[i];
    }
  }

  lemma CountBound(b: Bitmap)
    ensures Ones(b) <= Below(|b|) && Count(b) <= |b|
  {
    SubsetCard(Ones(b), Below(|b|));
  }
}
