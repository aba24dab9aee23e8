/** The bitmaps of the kernel: `available_tids` and the scheduler's `nonempty_hi` and `nonempty_lo`.
    A 32-bit word is kept in the low half of a 64-bit one. */
module Bitmap {

  /** A bit number as the shift amount the machine uses. */
  function Shift(p: nat): (k: bv7)
    requires p < 64
    ensures k < 64
  {
    p as bv7
  }

  lemma ShiftBack(p: nat)
    requires p < 64
    ensures Shift(p) as nat == p
  {
    if p < 32 {
      assert Shift(p) as nat == p;
    } else {
      assert Shift(p) as nat == p;
    }
  }

  lemma ShiftIsInjective(p: nat, q: nat)
    requires p < 64 && q < 64 && Shift(p) == Shift(q)
    ensures p == q
  {
    hide Shift;
    ShiftBack(p);
    ShiftBack(q);
  }

  predicate BitAt(w: bv64, k: bv7)
    requires k < 64
  {
    (w >> k) & 1 == 1
  }

  predicate Has(w: bv64, p: nat)
    requires p < 64
  {
    BitAt(w, Shift(p))
  }

  /** `w | 1 << p` and `w & ~(1 << p)` */
  function SetBit(w: bv64, p: nat): bv64
    requires p < 64
  {
    w | (1 << Shift(p))
  }

  function ClearBit(w: bv64, p: nat): bv64
    requires p < 64
  {
    w & !(1 << Shift(p))
  }

  lemma SetBitAt(w: bv64, k: bv7, j: bv7)
    requires k < 64 && j < 64
    ensures BitAt(w | (1 << k), j) <==> j == k || BitAt(w, j)
  {
  }

  lemma ClearBitAt(w: bv64, k: bv7, j: bv7)
    requires k < 64 && j < 64
    ensures BitAt(w & !(1 << k), j) <==> j != k && BitAt(w, j)
  {
  }

  lemma SetBitHas(w: bv64, p: nat, q: nat)
    requires p < 64 && q < 64
    ensures Has(SetBit(w, p), q) <==> q == p || Has(w, q)
  {
    hide Shift, BitAt;
    SetBitAt(w, Shift(p), Shift(q));
    if Shift(p) == Shift(q) {
      ShiftIsInjective(p, q);
    }
  }

  lemma ClearBitHas(w: bv64, p: nat, q: nat)
    requires p < 64 && q < 64
    ensures Has(ClearBit(w, p), q) <==> q != p && Has(w, q)
  {
    hide Shift, BitAt;
    ClearBitAt(w, Shift(p), Shift(q));
    if Shift(p) == Shift(q) {
      ShiftIsInjective(p, q);
    }
  }

  /** The highest set bit at or below `p`, or -1. */
  function Highest(w: bv64, p: int): (r: int)
    requires -1 <= p < 64
    ensures -1 <= r <= p
    ensures r >= 0 ==> Has(w, r)
    ensures forall q :: r < q <= p ==> !Has(w, q)
    decreases p
  {
    if p < 0 || Has(w, p) then p else Highest(w, p - 1)
  }

  /** __builtin_clzll and, for a word below 2^32, __builtin_clz. */
  function Clz64(w: bv64): int { 63 - Highest(w, 63) }

  function Clz32(w: bv64): int { 31 - Highest(w, 31) }

  lemma ShiftOnto(k: bv7)
    requires k < 64
    ensures Shift(k as nat) == k
  {
  }

  /** With all bits from `k` on clear, nothing is left of the word beyond bit `k`. */
  lemma {:induction false} NothingBeyond(w: bv64, k: bv7)
    requires k <= 64 && forall j: bv7 :: k <= j < 64 ==> !BitAt(w, j)
    ensures w >> k == 0
    decreases 64 - k
  {
    if k < 64 {
      NothingBeyond(w, k + 1);
      assert !BitAt(w, k);
    }
  }

  /** A word without bits is zero: so a nonzero word has a highest bit. */
  lemma NonzeroHasHighest(w: bv64)
    requires w != 0
    ensures Highest(w, 63) >= 0
  {
    if Highest(w, 63) < 0 {
      forall j: bv7 | 0 <= j < 64
        ensures !BitAt(w, j)
      {
        ShiftOnto(j);
        assert !Has(w, j as nat);
      }
      NothingBeyond(w, 0);
    }
  }
}
