/**
  Products and quotients by parameters are not linear. They are written by repeated addition and subtraction, which
  keeps the proofs linear; `TimesIs` and `FloorIs` say that they are `*`, `/` and `%`.
*/
module Arithmetic {

  const U64 := 0x1_0000_0000_0000_0000
  const U128 := 0x1_0000_0000_0000_0000_0000_0000_0000_0000
  const U256 := U128 * U128

  function Times(a: nat, b: nat): nat {
    if a == 0 then 0 else Times(a - 1, b) + b
  }

  function Floor(x: nat, z: nat): nat
    requires 0 < z
    decreases x
  {
    if x < z then 0 else 1 + Floor(x - z, z)
  }

  function Rem(x: nat, z: nat): nat
    requires 0 < z
    decreases x
  {
    if x < z then x else Rem(x - z, z)
  }

  lemma {:induction false} TimesIs(a: nat, b: nat)
    ensures Times(a, b) == a * b
  {
    if a > 0 {
      TimesIs(a - 1, b);
      assert a * b == (a - 1) * b + b;
    }
  }

  lemma MulSign(d: int, z: nat)
    ensures d >= 1 ==> d * z >= z
    ensures d <= -1 ==> d * z + z <= 0
  {}

  /** Quotient and remainder are unique. */
  lemma Unique(q: int, r: int, q': int, r': int, z: nat)
    requires q * z + r == q' * z + r' && 0 <= r < z && 0 <= r' < z
    ensures q == q' && r == r'
  {
    assert (q - q') * z == q * z - q' * z;
    MulSign(q - q', z);
  }

  lemma ModIs(x: nat, q: nat, r: nat, z: nat)
    requires x == q * z + r && r < z
    ensures x % z == r
  {
    assert x == (x / z) * z + x % z;
    Unique(q, r, x / z, x % z, z);
  }

  lemma FloorIs(x: nat, z: nat)
    requires 0 < z
    ensures Floor(x, z) == x / z && Rem(x, z) == x % z
  {
    DivMod(x, z);
    TimesIs(Floor(x, z), z);
    assert x == (x / z) * z + x % z;
    Unique(Floor(x, z), Rem(x, z), x / z, x % z, z);
  }

  lemma {:induction false} DivMod(x: nat, z: nat)
    requires 0 < z
    ensures x == Times(Floor(x, z), z) + Rem(x, z) && Rem(x, z) < z
    decreases x
  {
    if x >= z {
      DivMod(x - z, z);
    }
  }

  lemma {:induction false} DivisionIs(q: nat, r: nat, z: nat)
    requires r < z
    ensures Floor(Times(q, z) + r, z) == q && Rem(Times(q, z) + r, z) == r
  {
    if q > 0 {
      DivisionIs(q - 1, r, z);
    }
  }

  lemma {:induction false} TimesAdd(a: nat, c: nat, b: nat)
    ensures Times(a + c, b) == Times(a, b) + Times(c, b)
  {
    if c > 0 {
      TimesAdd(a, c - 1, b);
    }
  }

  lemma {:induction false} TimesBelow64(a: nat, b: nat)
    requires b < U64
    ensures Times(a, b) <= a * U64
  {
    if a > 0 {
      TimesBelow64(a - 1, b);
    }
  }

  lemma {:induction false} TimesBelow128(a: nat, b: nat)
    requires b < U128
    ensures Times(a, b) <= a * U128
  {
    if a > 0 {
      TimesBelow128(a - 1, b);
    }
  }

  lemma {:induction false} TimesAbove(a: nat, b: nat)
    requires 1 <= b
    ensures a <= Times(a, b)
  {
    if a > 0 {
      TimesAbove(a - 1, b);
    }
  }

  lemma FloorBelow(x: nat, z: nat)
    requires 0 < z
    ensures Floor(x, z) <= Times(Floor(x, z), z) <= x
  {
    DivMod(x, z);
    TimesAbove(Floor(x, z), z);
  }

  /** Flooring two parts separately loses at most one against flooring the whole. */
  lemma FloorOfSum(a: nat, b: nat, z: nat)
    requires 0 < z
    ensures Floor(a, z) + Floor(b, z) <= Floor(a + b, z) <= Floor(a, z) + Floor(b, z) + 1
  {
    DivMod(a, z);
    DivMod(b, z);
    var q, r := Floor(a, z) + Floor(b, z), Rem(a, z) + Rem(b, z);
    TimesAdd(Floor(a, z), Floor(b, z), z);
    if r < z {
      DivisionIs(q, r, z);
    } else {
      DivisionIs(q + 1, r - z, z);
    }
  }

  lemma Monotone(a: nat, b: nat, z: nat)
    requires 0 < z && a <= b
    ensures Floor(a, z) <= Floor(b, z)
  {
    FloorOfSum(a, b - a, z);
  }

  lemma {:induction false} TimesGrows(a: nat, b: nat, c: nat)
    requires b <= c
    ensures Times(a, b) <= Times(a, c)
  {
    if a > 0 {
      TimesGrows(a - 1, b, c);
    }
  }

  lemma TimesMonotone(a: nat, c: nat, b: nat)
    requires a <= c
    ensures Times(a, b) <= Times(c, b)
    ensures a < c ==> Times(a, b) + b <= Times(c, b)
  {
    TimesAdd(a, c - a, b);
    if a < c {
      TimesAdd(c - a - 1, 1, b);
    }
  }

  lemma RemOnce(x: nat, z: nat)
    requires 0 < z && x < 2 * z
    ensures Rem(x, z) == if x < z then x else x - z
  {}
}
