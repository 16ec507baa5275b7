/** Bit masks as unbounded naturals, with the operators the schedule search uses. */
module Bits {

  predicate Bit(mask: nat, i: nat) {
    if i == 0 then mask % 2 == 1 else Bit(mask / 2, i - 1)
  }

  /** `1 << i` */
  function Shift(i: nat): nat {
    if i == 0 then 1 else 2 * Shift(i - 1)
  }

  function And(a: nat, b: nat): nat
    decreases a
  {
    if a == 0 || b == 0 then 0 else 2 * And(a / 2, b / 2) + (if a % 2 == 1 && b % 2 == 1 then 1 else 0)
  }

  function Xor(a: nat, b: nat): nat
    decreases a + b
  {
    if a == 0 then b
    else if b == 0 then a
    else 2 * Xor(a / 2, b / 2) + (if a % 2 != b % 2 then 1 else 0)
  }

  lemma {:induction false} ZeroHasNoBit(i: nat)
    ensures !Bit(0, i)
  {
    if i > 0 { ZeroHasNoBit(i - 1); }
  }

  lemma {:induction false} BitOfShift(k: nat, i: nat)
    ensures Bit(Shift(k), i) <==> i == k
  {
    if k == 0 {
      if i > 0 { ZeroHasNoBit(i - 1); }
    } else if i > 0 {
      assert Shift(k) / 2 == Shift(k - 1);
      BitOfShift(k - 1, i - 1);
    }
  }

  lemma {:induction false} BitOfAnd(a: nat, b: nat, i: nat)
    ensures Bit(And(a, b), i) <==> Bit(a, i) && Bit(b, i)
    decreases i
  {
    if a == 0 || b == 0 {
      ZeroHasNoBit(i);
    } else if i > 0 {
      assert And(a, b) / 2 == And(a / 2, b / 2);
      BitOfAnd(a / 2, b / 2, i - 1);
    }
  }

  lemma {:induction false} BitOfXor(a: nat, b: nat, i: nat)
    ensures Bit(Xor(a, b), i) <==> Bit(a, i) != Bit(b, i)
    decreases i
  {
    if a == 0 || b == 0 {
      ZeroHasNoBit(i);
    } else if i > 0 {
      assert Xor(a, b) / 2 == Xor(a / 2, b / 2);
      BitOfXor(a / 2, b / 2, i - 1);
    }
  }

  ghost predicate SameBits(a: nat, b: nat) {
    forall i: nat :: Bit(a, i) == Bit(b, i)
  }

  /** A mask is determined by its bits. */
  lemma {:induction false} SameBitsSameMask(a: nat, b: nat)
    requires SameBits(a, b)
    ensures a == b
    decreases a + b
  {
    assert Bit(a, 0) == Bit(b, 0);
    if a + b > 0 {
      forall i: nat ensures Bit(a / 2, i) == Bit(b / 2, i) {
        assert Bit(a, i + 1) == Bit(b, i + 1);
      }
      SameBitsSameMask(a / 2, b / 2);
    }
  }

  ghost predicate Submask(part: nat, mask: nat) {
    forall i: nat :: Bit(part, i) ==> Bit(mask, i)
  }

  lemma SubmaskHalves(part: nat, mask: nat)
    requires Submask(part, mask)
    ensures Submask(part / 2, mask / 2)
    ensures part % 2 <= mask % 2
  {
    assert Bit(part, 0) ==> Bit(mask, 0);
    forall i: nat | Bit(part / 2, i) ensures Bit(mask / 2, i) {
      assert Bit(part, i + 1);
    }
  }

  lemma {:induction false} SubmaskIsAtMost(part: nat, mask: nat)
    requires Submask(part, mask)
    ensures part <= mask
    decreases part
  {
    if part > 0 {
      SubmaskHalves(part, mask);
      SubmaskIsAtMost(part / 2, mask / 2);
    }
  }

  /** The complement of a submask inside its mask. */
  lemma XorIsComplement(mask: nat, part: nat)
    requires Submask(part, mask)
    ensures Submask(Xor(mask, part), mask)
    ensures forall i: nat :: Bit(Xor(mask, part), i) <==> Bit(mask, i) && !Bit(part, i)
  {
    forall i: nat ensures Bit(Xor(mask, part), i) <==> Bit(mask, i) && !Bit(part, i) {
      BitOfXor(mask, part, i);
      assert Bit(part, i) ==> Bit(mask, i);
    }
  }

  /** A nonempty submask and its complement are both smaller than the mask, unless the submask is everything. */
  lemma SplitsAreSmaller(mask: nat, part: nat)
    requires Submask(part, mask) && 0 < part
    ensures Xor(mask, part) < mask
    ensures part < mask ==> 0 < Xor(mask, part)
  {
    XorIsComplement(mask, part);
    SubmaskIsAtMost(Xor(mask, part), mask);
    if Xor(mask, part) == mask {
      forall i: nat ensures Bit(part, i) == Bit(0, i) {
        ZeroHasNoBit(i);
        assert Bit(Xor(mask, part), i) == Bit(mask, i);
        assert Bit(part, i) ==> Bit(mask, i);
      }
      SameBitsSameMask(part, 0);
    }
    if Xor(mask, part) == 0 {
      forall i: nat ensures Bit(part, i) == Bit(mask, i) {
        ZeroHasNoBit(i);
        assert Bit(part, i) ==> Bit(mask, i);
      }
      SameBitsSameMask(part, mask);
    }
  }

  /** Stepping from `left` to `(left - 1) & mask` skips no submask: it is the largest one below `left`. */
  lemma {:induction false} NextSubmask(left: nat, mask: nat)
    requires 0 < left && Submask(left, mask)
    ensures And(left - 1, mask) < left
    ensures Submask(And(left - 1, mask), mask)
    ensures forall part: nat :: Submask(part, mask) && part < left ==> part <= And(left - 1, mask)
  {
    var below := left - 1;
    var next := And(below, mask);
    forall i: nat | Bit(next, i) ensures Bit(mask, i) && Bit(below, i) {
      BitOfAnd(below, mask, i);
    }
    SubmaskIsAtMost(next, below);
    forall part: nat | Submask(part, mask) && part < left ensures part <= And(left - 1, mask) {
      LargestBelow(part, left, mask);
    }
  }

  lemma {:induction false} LargestBelow(part: nat, left: nat, mask: nat)
    requires Submask(part, mask) && Submask(left, mask) && part < left
    ensures part <= And(left - 1, mask)
    decreases left
  {
    SubmaskHalves(left, mask);
    SubmaskHalves(part, mask);
    if left % 2 == 1 {
      assert (left - 1) / 2 == left / 2 && (left - 1) % 2 == 0;
      AndWithSuper(left / 2, mask / 2);
      if left > 1 {
        SubmaskIsAtMost(left, mask);
      }
    } else {
      assert (left - 1) / 2 == left / 2 - 1 && (left - 1) % 2 == 1;
      LargestBelow(part / 2, left / 2, mask / 2);
      SubmaskIsAtMost(left, mask);
    }
  }

  lemma {:induction false} AndWithSuper(part: nat, mask: nat)
    requires Submask(part, mask)
    ensures And(part, mask) == part
    decreases part
  {
    if part > 0 {
      SubmaskIsAtMost(part, mask);
      SubmaskHalves(part, mask);
      AndWithSuper(part / 2, mask / 2);
    }
  }

  /** `(1 << n) - 1` has exactly the bits below `n`. */
  lemma {:induction false} BitOfFull(n: nat, i: nat)
    ensures Shift(n) >= 1
    ensures Bit(Shift(n) - 1, i) <==> i < n
  {
    if n == 0 {
      ZeroHasNoBit(i);
    } else {
      if i > 0 {
        BitOfFull(n - 1, i - 1);
        assert (Shift(n) - 1) / 2 == Shift(n - 1) - 1;
      } else {
        BitOfFull(n - 1, 0);
      }
    }
  }
}
