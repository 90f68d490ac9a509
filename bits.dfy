/**
 * Shifts and bitwise operations on non-negative integers, as Python and
 * unsigned C++ arithmetic perform them.  For a non-negative `x`,
 * `x << k` is `x * Pow2(k)` and `x >> k` is `x / Pow2(k)`.
 */
module Bits {

  function Pow2(k: nat): (r: nat)
    ensures r >= 1
  {
    if k == 0 then 1 else 2 * Pow2(k - 1)
  }

  /** Bit `b` of `x` is set, i.e. `(x >> b) & 1 == 1`. */
  predicate Bit(x: nat, b: nat)
  {
    if b == 0 then x % 2 == 1 else Bit(x / 2, b - 1)
  }

  /** Bitwise OR of two non-negative integers, bit by bit from the least significant one. */
  function Or(a: nat, b: nat): (r: nat)
    decreases a + b
  {
    if a == 0 then b
    else if b == 0 then a
    else 2 * Or(a / 2, b / 2) + (if a % 2 == 1 || b % 2 == 1 then 1 else 0)
  }

  lemma {:induction false} Pow2Add(j: nat, k: nat)
    ensures Pow2(j + k) == Pow2(j) * Pow2(k)
  {
    if k > 0 {
      Pow2Add(j, k - 1);
      assert Pow2(j + k) == 2 * Pow2(j + k - 1);
    }
  }

  /** OR-ing a value below `2^k` into a value shifted left by `k` is addition: the bits do not overlap. */
  lemma {:induction false} OrShiftedIsAdd(a: nat, k: nat, b: nat)
    requires b < Pow2(k)
    ensures Or(a * Pow2(k), b) == a * Pow2(k) + b
  {
    if k == 0 {
      assert b == 0;
    } else if a == 0 || b == 0 {
    } else {
      var hi := a * Pow2(k);
      assert hi == 2 * (a * Pow2(k - 1));
      assert hi / 2 == a * Pow2(k - 1) && hi % 2 == 0;
      OrShiftedIsAdd(a, k - 1, b / 2);
      assert Or(hi, b) == 2 * Or(hi / 2, b / 2) + b % 2;
    }
  }

  /** `2^c` has exactly one bit set, bit `c`. */
  lemma {:induction false} Pow2OneHot(c: nat, b: nat)
    ensures Bit(Pow2(c), b) <==> b == c
  {
    if c > 0 {
      assert Pow2(c) / 2 == Pow2(c - 1) && Pow2(c) % 2 == 0;
      if b > 0 {
        Pow2OneHot(c - 1, b - 1);
      }
    } else if b > 0 {
      ZeroHasNoBits(b - 1);
    }
  }

  lemma {:induction false} ZeroHasNoBits(b: nat)
    ensures !Bit(0, b)
  {
    if b > 0 {
      ZeroHasNoBits(b - 1);
    }
  }

  lemma {:induction false} Pow2Increasing(j: nat, k: nat)
    requires j <= k
    ensures Pow2(j) <= Pow2(k)
  {
    if j < k {
      Pow2Increasing(j, k - 1);
    }
  }
}
