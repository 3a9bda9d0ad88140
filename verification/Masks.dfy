/** Subsets of a few numbered things as bit masks. */
module Masks {
  /** mask & (1 << i), as a truth value. */
  predicate HasBit(mask: nat, i: nat) {
    if i == 0 then mask % 2 == 1 else HasBit(mask / 2, i - 1)
  }

  /** mask & ~(1 << i) */
  function Clear(mask: nat, i: nat): (r: nat)
    requires HasBit(mask, i)
    ensures r < mask
  {
    if i == 0 then mask - 1 else 2 * Clear(mask / 2, i - 1) + mask % 2
  }

  /** 1 << n */
  function Pow2(n: nat): (r: nat)
    ensures r > 0
  {
    if n == 0 then 1 else 2 * Pow2(n - 1)
  }

  lemma {:induction false} ClearDropsOneBit(mask: nat, i: nat, j: nat)
    requires HasBit(mask, i)
    ensures HasBit(Clear(mask, i), j) <==> HasBit(mask, j) && j != i
    decreases i
  {
    if i > 0 {
      HalfOf(Clear(mask / 2, i - 1), mask % 2);
      if j > 0 {
        ClearDropsOneBit(mask / 2, i - 1, j - 1);
      }
    } else {
      HalfOf(mask / 2, 0);
    }
  }

  lemma HalfOf(c: nat, b: nat)
    requires b < 2
    ensures (2 * c + b) / 2 == c && (2 * c + b) % 2 == b
  {
  }

  /** (1 << n) - 1 has exactly the bits below n. */
  lemma {:induction false} FullMask(n: nat, i: nat)
    ensures HasBit(Pow2(n) - 1, i) <==> i < n
    decreases i
  {
    if n == 0 {
      NoBits(i);
    } else if i > 0 {
      assert (Pow2(n) - 1) / 2 == Pow2(n - 1) - 1;
      FullMask(n - 1, i - 1);
    }
  }

  lemma {:induction false} NoBits(i: nat)
    ensures !HasBit(0, i)
    decreases i
  {
    if i > 0 {
      NoBits(i - 1);
    }
  }

  /** Numbers below 1 << n have no bit from n on. */
  lemma {:induction false} SmallMask(mask: nat, n: nat, i: nat)
    requires mask < Pow2(n) && HasBit(mask, i)
    ensures i < n
    decreases n
  {
    if n == 0 {
      NoBits(i);
    } else if i > 0 {
      SmallMask(mask / 2, n - 1, i - 1);
    }
  }

  ghost predicate Subset(a: nat, b: nat) {
    forall i: nat :: HasBit(a, i) ==> HasBit(b, i)
  }

  lemma Member(a: nat, b: nat, i: nat)
    requires Subset(a, b) && HasBit(a, i)
    ensures HasBit(b, i)
  {
  }

  lemma {:induction false} SomeBit(mask: nat) returns (i: nat)
    requires mask > 0
    ensures HasBit(mask, i)
  {
    if mask % 2 == 1 {
      i := 0;
    } else {
      var k := SomeBit(mask / 2);
      i := k + 1;
    }
  }

  /** Masks with the same bits are the same number. */
  lemma {:induction false} SameBits(a: nat, b: nat)
    requires Subset(a, b) && Subset(b, a)
    ensures a == b
  {
    if a == 0 && b > 0 {
      var i := SomeBit(b);
      Member(b, a, i);
      NoBits(i);
      assert false;
    } else if a > 0 && b == 0 {
      var i := SomeBit(a);
      Member(a, b, i);
      NoBits(i);
      assert false;
    } else if a > 0 {
      assert HasBit(a, 0) == HasBit(b, 0);
      forall i: nat ensures HasBit(a / 2, i) == HasBit(b / 2, i) {
        assert HasBit(a, i + 1) == HasBit(b, i + 1);
      }
      SameBits(a / 2, b / 2);
    }
  }

  /** A proper subset misses a bit, and is a subset of what is left without it. */
  lemma ProperSubset(a: nat, b: nat) returns (i: nat)
    requires Subset(a, b) && a != b
    ensures HasBit(b, i) && !HasBit(a, i) && Subset(a, Clear(b, i))
  {
    if !exists k: nat :: HasBit(b, k) && !HasBit(a, k) {
      SameBits(a, b);
    }
    i :| HasBit(b, i) && !HasBit(a, i);
    forall k: nat | HasBit(a, k) ensures HasBit(Clear(b, i), k) {
      ClearDropsOneBit(b, i, k);
    }
  }

  lemma ClearIsSubset(mask: nat, i: nat)
    requires HasBit(mask, i)
    ensures Subset(Clear(mask, i), mask)
  {
    forall k: nat | HasBit(Clear(mask, i), k) ensures HasBit(mask, k) {
      ClearDropsOneBit(mask, i, k);
    }
  }

  /** The subsets of (1 << n) - 1 are the numbers below 1 << n. */
  lemma SubsetsOfFull(n: nat, mask: nat)
    ensures Subset(mask, Pow2(n) - 1) <==> mask < Pow2(n)
  {
    if mask < Pow2(n) {
      forall i: nat | HasBit(mask, i) ensures HasBit(Pow2(n) - 1, i) {
        SmallMask(mask, n, i);
        FullMask(n, i);
      }
    } else if Subset(mask, Pow2(n) - 1) {
      var i := HighBit(mask, n);
      Member(mask, Pow2(n) - 1, i);
      FullMask(n, i);
      assert false;
    }
  }

  lemma {:induction false} HighBit(mask: nat, n: nat) returns (i: nat)
    requires mask >= Pow2(n)
    ensures HasBit(mask, i) && i >= n
    decreases n
  {
    if n == 0 {
      i := SomeBit(mask);
    } else {
      var k := HighBit(mask / 2, n - 1);
      i := k + 1;
    }
  }
}
