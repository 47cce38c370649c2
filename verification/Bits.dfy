/**
 Positions and slots: the tables of the program have a power-of-two number of slots and reduce a
 position or a hash with a mask. Rem is that reduction, written as repeated subtraction (so that
 proofs about it need no multiplication); MaskIsRem says that it is what the mask computes.
 */
module Bits {

  function Rem(p: nat, n: nat): (r: nat)
    requires n >= 1
    ensures r < n
  {
    if p < n then p else Rem(p - n, n)
  }

  lemma RemIsModulo(p: nat, n: nat)
    requires n >= 1
    ensures Rem(p, n) == p % n
  {
    if p < n {
      ModuloOfSum(0, p, n);
    } else {
      RemIsModulo(p - n, n);
      ModuloOfMore(p - n, n);
    }
  }

  lemma ModuloOfMore(p: nat, n: nat)
    requires n >= 1
    ensures (p + n) % n == p % n
  {
    var q, r := p / n, p % n;
    assert p + n == n * (q + 1) + r;
    ModuloOfSum(q + 1, r, n);
  }

  lemma ModuloOfSum(q: nat, r: nat, n: nat)
    requires n >= 1 && r < n
    ensures (n * q + r) % n == r
  {
    var a := n * q + r;
    assert n * (a / n - q) == n * (a / n) - n * q == r - a % n;
    AtLeastOnce(n, a / n - q);
  }

  lemma AtLeastOnce(n: nat, d: int)
    ensures d >= 1 ==> n * d >= n
    ensures d <= -1 ==> n * d + n <= 0
  {
  }

  /** Two positions with the same slot are at least one lap apart. */
  lemma {:induction false} SameSlot(p: nat, q: nat, n: nat)
    requires n >= 1 && Rem(p, n) == Rem(q, n) && p < q
    ensures q >= p + n
  {
    if p >= n {
      SameSlot(p - n, q - n, n);
    }
  }

  /** The first lap: a position is its own slot, or is past the first lap. */
  lemma SmallSlot(p: nat, n: nat)
    requires n >= 1
    ensures p < n ==> Rem(p, n) == p
  {
  }

  /** SameSlot, for positions that may be equal or in other slots. */
  lemma SmallestLap(p: nat, q: nat, n: nat)
    requires n >= 1
    ensures Rem(p, n) == Rem(q, n) && p < q ==> q >= p + n
  {
    if Rem(p, n) == Rem(q, n) && p < q {
      SameSlot(p, q, n);
    }
  }

  /** With at least two slots, neighbouring positions have different slots. */
  lemma {:induction false} NextSlot(p: nat, n: nat)
    requires n >= 2
    ensures Rem(p + 1, n) != Rem(p, n)
  {
    if p >= n {
      NextSlot(p - n, n);
    }
  }

  /** Starting anywhere, n consecutive positions visit every slot. */
  lemma RemReaches(a: nat, j: nat, n: nat) returns (k: nat)
    requires j < n
    ensures k < n && Rem(a + k, n) == j
  {
    if a < n {
      k := if j >= a then j - a else j + n - a;
    } else {
      k := RemReaches(a - n, j, n);
    }
  }

  function Pow2(k: nat): (r: nat)
    ensures r >= 1
  {
    if k == 0 then 1 else 2 * Pow2(k - 1)
  }

  /** Bitwise "and", digit by digit. */
  function And(a: nat, b: nat): nat {
    if a == 0 || b == 0 then 0
    else 2 * And(a / 2, b / 2) + (if a % 2 == 1 && b % 2 == 1 then 1 else 0)
  }

  /** Masking with 2^k - 1 reduces modulo 2^k. */
  lemma {:induction false} MaskIsRem(a: nat, k: nat)
    ensures And(a, Pow2(k) - 1) == Rem(a, Pow2(k))
  {
    if k == 0 {
      RemIsModulo(a, 1);
    } else if a > 0 {
      var h := Pow2(k - 1);
      MaskIsRem(a / 2, k - 1);
      assert (2 * h - 1) / 2 == h - 1 && (2 * h - 1) % 2 == 1;
      HalfRem(a, h);
    }
  }

  lemma {:induction false} HalfRem(a: nat, h: nat)
    requires h >= 1
    ensures Rem(a, 2 * h) == 2 * Rem(a / 2, h) + a % 2
  {
    if a >= 2 * h {
      HalfRem(a - 2 * h, h);
      assert (a - 2 * h) / 2 == a / 2 - h;
    }
  }
}
