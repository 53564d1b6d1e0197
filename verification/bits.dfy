/**
 * 32-bit registers as natural numbers below 2^32, with the C bitwise
 * operators defined one bit at a time.
 *
 * Each operator is defined on naturals by recursion on the low bit; the
 * lemmas below establish what it does to every bit position and that it
 * stays within 32 bits. The register models use only the `Word` versions,
 * whose contracts state the per-bit meaning directly.
 */
module Bits {

  /** 2 to the power `n`. */
  function Pow2(n: nat): (r: nat)
    ensures r >= 1
  {
    if n == 0 then 1 else 2 * Pow2(n - 1)
  }

  lemma {:induction false} Pow2Add(a: nat, b: nat)
    ensures Pow2(a + b) == Pow2(a) * Pow2(b)
    decreases a
  {
    if a > 0 {
      Pow2Add(a - 1, b);
    }
  }

  const WORD: nat := 0x1_0000_0000

  lemma Pow2Word()
    ensures Pow2(32) == WORD
  {
    assert Pow2(8) == 0x100;
    Pow2Add(8, 8);
    Pow2Add(16, 16);
  }

  /** The value of a 32-bit register (`uint32_t`). */
  type Word = x: nat | x < 0x1_0000_0000

  /** A bit position within a 32-bit register. */
  type BitIndex = k: nat | k < 32

  /** Bit `k` of `x`, counting from the least significant bit: what
      `x & (1 << k)` tests. */
  predicate BitSet(x: nat, k: nat)
    decreases k
  {
    if k == 0 then x % 2 == 1 else BitSet(x / 2, k - 1)
  }

  // The operators on naturals, by recursion on the low bit.

  function AndN(x: nat, y: nat): nat
    decreases x
  {
    if x == 0 || y == 0 then 0
    else 2 * AndN(x / 2, y / 2) + (if x % 2 == 1 && y % 2 == 1 then 1 else 0)
  }

  function OrN(x: nat, y: nat): nat
    decreases x + y
  {
    if x == 0 then y
    else if y == 0 then x
    else 2 * OrN(x / 2, y / 2) + (if x % 2 == 1 || y % 2 == 1 then 1 else 0)
  }

  function XorN(x: nat, y: nat): nat
    decreases x + y
  {
    if x == 0 then y
    else if y == 0 then x
    else 2 * XorN(x / 2, y / 2) + (if x % 2 != y % 2 then 1 else 0)
  }

  lemma {:induction false} ZeroBit(k: nat)
    ensures !BitSet(0, k)
    decreases k
  {
    if k > 0 {
      ZeroBit(k - 1);
    }
  }

  lemma {:induction false} AndNBit(x: nat, y: nat, k: nat)
    ensures BitSet(AndN(x, y), k) <==> BitSet(x, k) && BitSet(y, k)
    decreases k
  {
    if x == 0 || y == 0 {
      ZeroBit(k);
    } else if k > 0 {
      AndNBit(x / 2, y / 2, k - 1);
    }
  }

  lemma {:induction false} OrNBit(x: nat, y: nat, k: nat)
    ensures BitSet(OrN(x, y), k) <==> BitSet(x, k) || BitSet(y, k)
    decreases k
  {
    if x == 0 || y == 0 {
      ZeroBit(k);
    } else if k > 0 {
      OrNBit(x / 2, y / 2, k - 1);
    }
  }

  lemma {:induction false} XorNBit(x: nat, y: nat, k: nat)
    ensures BitSet(XorN(x, y), k) <==> BitSet(x, k) != BitSet(y, k)
    decreases k
  {
    if x == 0 || y == 0 {
      ZeroBit(k);
    } else if k > 0 {
      XorNBit(x / 2, y / 2, k - 1);
    }
  }

  lemma {:induction false} AndNBound(x: nat, y: nat)
    ensures AndN(x, y) <= x
    decreases x
  {
    if x != 0 && y != 0 {
      AndNBound(x / 2, y / 2);
    }
  }

  lemma {:induction false} OrNBound(x: nat, y: nat, n: nat)
    requires x < Pow2(n) && y < Pow2(n)
    ensures OrN(x, y) < Pow2(n)
    decreases n
  {
    if x != 0 && y != 0 {
      OrNBound(x / 2, y / 2, n - 1);
    }
  }

  lemma {:induction false} XorNBound(x: nat, y: nat, n: nat)
    requires x < Pow2(n) && y < Pow2(n)
    ensures XorN(x, y) < Pow2(n)
    decreases n
  {
    if x != 0 && y != 0 {
      XorNBound(x / 2, y / 2, n - 1);
    }
  }

  /** The complement within `n` bits flips every bit below `n`. */
  lemma {:induction false} ComplementBit(x: nat, n: nat, k: nat)
    requires x < Pow2(n) && k < n
    ensures BitSet(Pow2(n) - 1 - x, k) <==> !BitSet(x, k)
    decreases k
  {
    var q := Pow2(n - 1);
    assert Pow2(n) - 1 - x == 2 * (q - 1 - x / 2) + (1 - x % 2);
    if k > 0 {
      ComplementBit(x / 2, n - 1, k - 1);
    }
  }

  /** The only bit of 2^n is bit n. */
  lemma {:induction false} PowerBit(n: nat, k: nat)
    ensures BitSet(Pow2(n), k) <==> k == n
    decreases k
  {
    if k == 0 {
      if n > 0 {
        assert Pow2(n) == 2 * Pow2(n - 1);
      }
    } else if n == 0 {
      ZeroBit(k - 1);
    } else {
      PowerBit(n - 1, k - 1);
    }
  }

  /** Two numbers below 2^n with the same bits are equal. */
  lemma {:induction false} BitsDetermine(x: nat, y: nat, n: nat)
    requires x < Pow2(n) && y < Pow2(n)
    requires forall k: nat :: k < n ==> (BitSet(x, k) <==> BitSet(y, k))
    ensures x == y
    decreases n
  {
    if n > 0 {
      assert BitSet(x, 0) <==> BitSet(y, 0);
      forall k: nat | k < n - 1
        ensures BitSet(x / 2, k) <==> BitSet(y / 2, k)
      {
        assert BitSet(x, k + 1) <==> BitSet(y, k + 1);
      }
      BitsDetermine(x / 2, y / 2, n - 1);
    }
  }

  // The 32-bit operators the register models use.

  /** `x & y`. */
  function And(x: Word, y: Word): (r: Word)
    ensures forall k: nat :: BitSet(r, k) <==> BitSet(x, k) && BitSet(y, k)
  {
    AndNBound(x, y);
    forall k: nat
      ensures BitSet(AndN(x, y), k) <==> BitSet(x, k) && BitSet(y, k)
    {
      AndNBit(x, y, k);
    }
    AndN(x, y)
  }

  /** `x | y`. */
  function Or(x: Word, y: Word): (r: Word)
    ensures forall k: nat :: BitSet(r, k) <==> BitSet(x, k) || BitSet(y, k)
  {
    Pow2Word();
    OrNBound(x, y, 32);
    forall k: nat
      ensures BitSet(OrN(x, y), k) <==> BitSet(x, k) || BitSet(y, k)
    {
      OrNBit(x, y, k);
    }
    OrN(x, y)
  }

  /** `x ^ y`. */
  function Xor(x: Word, y: Word): (r: Word)
    ensures forall k: nat :: BitSet(r, k) <==> BitSet(x, k) != BitSet(y, k)
  {
    Pow2Word();
    XorNBound(x, y, 32);
    forall k: nat
      ensures BitSet(XorN(x, y), k) <==> BitSet(x, k) != BitSet(y, k)
    {
      XorNBit(x, y, k);
    }
    XorN(x, y)
  }

  /** `~x` on a 32-bit register. */
  function Not(x: Word): (r: Word)
    ensures forall k: BitIndex :: BitSet(r, k) <==> !BitSet(x, k)
  {
    Pow2Word();
    forall k: BitIndex
      ensures BitSet(WORD - 1 - x, k) <==> !BitSet(x, k)
    {
      ComplementBit(x, 32, k);
    }
    WORD - 1 - x
  }

  /** Two registers that agree on all 32 bits are equal. */
  lemma SameBits(x: Word, y: Word)
    requires forall k: BitIndex :: BitSet(x, k) <==> BitSet(y, k)
    ensures x == y
  {
    Pow2Word();
    BitsDetermine(x, y, 32);
  }

  /** A mask with the single bit `k` selects bit `k`: `x & (1 << k)` is
      nonzero exactly when bit `k` of `x` is set. */
  lemma MaskBit(x: Word, m: Word, k: BitIndex)
    requires m == Pow2(k)
    ensures And(x, m) != 0 <==> BitSet(x, k)
  {
    var a := And(x, m);
    forall j: BitIndex ensures BitSet(m, j) <==> j == k { PowerBit(k, j); }
    if BitSet(x, k) {
      assert BitSet(a, k);
      ZeroBit(k);
    } else {
      forall j: BitIndex ensures BitSet(a, j) <==> BitSet(0, j) { ZeroBit(j); }
      SameBits(a, 0);
    }
  }
}
