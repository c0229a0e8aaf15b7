/**
  Powers of two, and blocks of `1 << o` pages that start at a multiple of `1 << o`.
  The bit-level definitions come first; what the other modules use is `Aligned` and the
  lemmas about it, which keep divisions out of their proofs.
*/
module Bits {

  /**
    `1 << o`. The inner conditional says nothing new: it keeps the verifier from unrolling the
    definition at literal arguments below zero.
  */
  function Pow2(o: nat): (r: nat)
    ensures r >= 1
  {
    if o == 0 then 1 else 2 * Pow2(o - (if o == 0 then 0 else 1))
  }

  lemma {:induction false} Pow2Mono(o: nat, n: nat)
    requires o <= n
    ensures Pow2(o) <= Pow2(n)
    decreases n
  {
    if o < n { Pow2Mono(o, n - 1); }
  }

  /** `k << o` */
  function Shl(k: nat, o: nat): (r: nat)
    decreases o, k
  {
    if o == 0 then k else 2 * Shl(k, o - 1)
  }

  /** `p >> o`: the number of the block of order `o` that holds page `p`. */
  function Shr(p: nat, o: nat): (k: nat)
    decreases o, p
  {
    if o == 0 then p else Shr(p / 2, o - 1)
  }

  /** `i & ((1 << o) - 1) == 0`, that is `is_multiple_of(1 << o)` */
  predicate LowBitsZero(i: nat, o: nat)
    decreases o, i
  {
    o == 0 || (i % 2 == 0 && LowBitsZero(i / 2, o - 1))
  }

  /** `i ^ (1 << o)` */
  function Buddy(i: nat, o: nat): (b: nat)
    decreases o, i
  {
    if o > 0 then 2 * Buddy(i / 2, o - 1) + i % 2
    else if i % 2 == 0 then i + 1 else i - 1
  }

  // ----- The interface -----

  /** `i` is a multiple of `1 << o`. */
  ghost predicate Aligned(i: nat, o: nat) {
    exists k: nat :: Shl(k, o) == i
  }

  /** The head of the block that two siblings merge into. */
  function Lower(i: nat, o: nat): (r: nat)
    ensures r <= i && r <= Buddy(i, o)
  {
    if i < Buddy(i, o) then i else Buddy(i, o)
  }

  ghost predicate Within(p: int, i: nat, o: nat) {
    i <= p < i + Pow2(o)
  }

  lemma {:induction false} ShlIsMul(k: nat, o: nat)
    ensures Shl(k, o) == k * Pow2(o)
    decreases o
  {
    if o > 0 {
      ShlIsMul(k, o - 1);
      assert k * Pow2(o) == 2 * (k * Pow2(o - 1));
    }
  }

  lemma {:induction false} ShlLowBits(k: nat, o: nat)
    ensures LowBitsZero(Shl(k, o), o) && Shr(Shl(k, o), o) == k
    decreases o
  {
    if o > 0 { ShlLowBits(k, o - 1); }
  }

  lemma {:induction false} LowBitsShl(i: nat, o: nat)
    requires LowBitsZero(i, o)
    ensures Shl(Shr(i, o), o) == i
    decreases o
  {
    if o > 0 { LowBitsShl(i / 2, o - 1); }
  }

  /** The test on the bits decides alignment. */
  lemma AlignedIffLowBits(i: nat, o: nat)
    ensures Aligned(i, o) <==> LowBitsZero(i, o)
  {
    if Aligned(i, o) {
      var k: nat :| Shl(k, o) == i;
      ShlLowBits(k, o);
    }
    if LowBitsZero(i, o) { LowBitsShl(i, o); }
  }

  lemma ZeroAligned(o: nat)
    ensures Aligned(0, o)
  {
    ShlIsMul(0, o);
  }

  lemma {:induction false} ShrUp(p: nat, o: nat)
    ensures Shr(p, o + 1) == Shr(p, o) / 2
    decreases o
  {
    if o > 0 { ShrUp(p / 2, o - 1); }
  }

  /** Two pages in one block of order `o` share every larger block. */
  lemma {:induction false} SameBlockUp(p: nat, q: nat, o: nat, n: nat)
    requires o <= n && Shr(p, o) == Shr(q, o)
    ensures Shr(p, n) == Shr(q, n)
    decreases n
  {
    if o < n {
      SameBlockUp(p, q, o, n - 1);
      ShrUp(p, n - 1);
      ShrUp(q, n - 1);
    }
  }

  lemma {:induction false} WithinIffShr(p: nat, i: nat, o: nat)
    requires LowBitsZero(i, o)
    ensures Within(p, i, o) <==> Shr(p, o) == Shr(i, o)
    decreases o
  {
    if o > 0 { WithinIffShr(p / 2, i / 2, o - 1); }
  }

  lemma {:induction false} LowBitsDown(i: nat, o: nat, n: nat)
    requires o <= n && LowBitsZero(i, n)
    ensures LowBitsZero(i, o)
    decreases n
  {
    if o > 0 { LowBitsDown(i / 2, o - 1, n - 1); }
  }

  lemma AlignedDown(i: nat, o: nat, n: nat)
    requires o <= n && Aligned(i, n)
    ensures Aligned(i, o)
  {
    AlignedIffLowBits(i, n);
    LowBitsDown(i, o, n);
    AlignedIffLowBits(i, o);
  }

  lemma {:induction false} LowBitsStep(i: nat, o: nat)
    requires LowBitsZero(i, o)
    ensures LowBitsZero(i + Pow2(o), o)
    decreases o
  {
    if o > 0 { LowBitsStep(i / 2, o - 1); }
  }

  lemma AlignedStep(i: nat, o: nat)
    requires Aligned(i, o)
    ensures Aligned(i + Pow2(o), o)
  {
    AlignedIffLowBits(i, o);
    LowBitsStep(i, o);
    AlignedIffLowBits(i + Pow2(o), o);
  }

  lemma {:induction false} XorFacts(i: nat, o: nat)
    requires LowBitsZero(i, o)
    ensures LowBitsZero(Buddy(i, o), o) && Buddy(Buddy(i, o), o) == i
    ensures LowBitsZero(i, o + 1) ==> Buddy(i, o) == i + Pow2(o) && !LowBitsZero(Buddy(i, o), o + 1)
    ensures !LowBitsZero(i, o + 1) ==> i == Buddy(i, o) + Pow2(o) && LowBitsZero(Buddy(i, o), o + 1)
    decreases o
  {
    var b := Buddy(i, o);
    assert LowBitsZero(i, o + 1) <==> i % 2 == 0 && LowBitsZero(i / 2, o);
    assert LowBitsZero(b, o + 1) <==> b % 2 == 0 && LowBitsZero(b / 2, o);
    if o > 0 {
      XorFacts(i / 2, o - 1);
      assert b / 2 == Buddy(i / 2, o - 1);
    }
  }

  /** Flipping bit `o` adds or takes away `1 << o`. */
  lemma {:induction false} FlipMoves(i: nat, o: nat)
    ensures Buddy(i, o) == i + Pow2(o) || i == Buddy(i, o) + Pow2(o)
    decreases o
  {
    if o > 0 { FlipMoves(i / 2, o - 1); }
  }

  /** The sibling of an aligned block, and the parent of the two. */
  lemma BuddyFacts(i: nat, o: nat)
    requires Aligned(i, o)
    ensures Aligned(Buddy(i, o), o) && Buddy(Buddy(i, o), o) == i
    ensures Aligned(Lower(i, o), o + 1)
    ensures Buddy(i, o) == i + Pow2(o) || i == Buddy(i, o) + Pow2(o)
  {
    AlignedIffLowBits(i, o);
    AlignedIffLowBits(i, o + 1);
    XorFacts(i, o);
    var b := Buddy(i, o);
    AlignedIffLowBits(b, o);
    AlignedIffLowBits(b, o + 1);
  }

  /** The upper half of a block has the lower half as its sibling. */
  lemma UpperBuddy(i: nat, c: nat)
    requires Aligned(i, c + 1)
    ensures Aligned(i + Pow2(c), c) && Buddy(i + Pow2(c), c) == i
  {
    AlignedDown(i, c, c + 1);
    BuddyFacts(i, c);
    AlignedIffLowBits(i, c);
    AlignedIffLowBits(i, c + 1);
    XorFacts(i, c);
  }

  /** An aligned block lies inside any larger aligned block it meets. */
  lemma Nested(p: nat, i: nat, o: nat, j: nat, n: nat)
    requires o <= n && Aligned(i, o) && Aligned(j, n)
    requires Within(p, i, o) && Within(p, j, n)
    ensures j <= i && i + Pow2(o) <= j + Pow2(n)
  {
    var last := i + Pow2(o) - 1;
    AlignedIffLowBits(i, o);
    AlignedIffLowBits(j, n);
    WithinIffShr(p, i, o);
    WithinIffShr(last, i, o);
    SameBlockUp(p, i, o, n);
    SameBlockUp(p, last, o, n);
    WithinIffShr(p, j, n);
    WithinIffShr(i, j, n);
    WithinIffShr(last, j, n);
  }

  /** Aligned blocks of one order that meet are one block. */
  lemma SameOrderSame(p: nat, i: nat, j: nat, o: nat)
    requires Aligned(i, o) && Aligned(j, o) && Within(p, i, o) && Within(p, j, o)
    ensures i == j
  {
    Nested(p, i, o, j, o);
    Nested(p, j, o, i, o);
  }
}
