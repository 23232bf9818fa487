/**
 * 32-bit words used as bitmaps: what `|= 1 << i`, `^= 1 << i`, `~0UL << i`, `<<= 1` and the test `& (1 << i)`
 * do to the single bits. The lemmas on bare words are each a single implication between equations.
 */
module Bits {

  // SIZE_T_BIT of the 32-bit target is 32
  type word = bv32

  function Mask(i: nat): word
    requires i < 32
  {
    1 << i
  }

  /** All bits from `i` up: `~0UL << i`. */
  function HighMask(i: nat): word
    requires i < 32
  {
    0xFFFF_FFFF << i
  }

  predicate Has(w: word, m: word) {
    w & m == m
  }

  predicate Bit(w: word, i: nat)
    requires i < 32
  {
    Has(w, Mask(i))
  }

  ghost predicate Apart(m: word, n: word) {
    m | n == m ^ n
  }

  lemma MasksApart(i: nat, j: nat)
    requires i < 32 && j < 32 && i != j
    ensures Apart(Mask(i), Mask(j))
  {}

  lemma OrKeeps(w: word, m: word, n: word)
    requires Has(w, n)
    ensures Has(w | m, n)
  {}

  lemma OrAddsNone(w: word, m: word, n: word)
    requires Apart(m, n) && Has(w | m, n)
    ensures Has(w, n)
  {}

  lemma OrSame(w: word, m: word)
    ensures Has(w | m, m)
  {}

  lemma XorApart(w: word, m: word, n: word)
    requires Apart(m, n)
    ensures Has(w ^ m, n) == Has(w, n)
  {}

  /** `w |= 1 << i` sets bit `i` ... */
  lemma SetSame(w: word, i: nat)
    requires i < 32
    ensures Bit(w | Mask(i), i)
  {
    OrSame(w, Mask(i));
  }

  /** ... keeps every set bit ... */
  lemma SetKeeps(w: word, i: nat, j: nat)
    requires i < 32 && j < 32 && Bit(w, j)
    ensures Bit(w | Mask(i), j)
  {
    OrKeeps(w, Mask(i), Mask(j));
  }

  /** ... and sets no other. */
  lemma SetAddsNone(w: word, i: nat, j: nat)
    requires i < 32 && j < 32 && i != j && Bit(w | Mask(i), j)
    ensures Bit(w, j)
  {
    MasksApart(i, j);
    OrAddsNone(w, Mask(i), Mask(j));
  }

  /** `w ^= 1 << i` clears bit `i` where it was set ... */
  lemma FlipClears(w: word, i: nat)
    requires i < 32 && Bit(w, i)
    ensures !Bit(w ^ Mask(i), i)
  {}

  /** ... and keeps every other bit. */
  lemma FlipOther(w: word, i: nat, j: nat)
    requires i < 32 && j < 32 && i != j
    ensures Bit(w ^ Mask(i), j) == Bit(w, j)
  {
    MasksApart(i, j);
    XorWord(w, i, j, Mask(i), Mask(j));
  }

  lemma XorWord(w: word, i: nat, j: nat, m: word, n: word)
    requires i < 32 && j < 32 && m == Mask(i) && n == Mask(j) && Apart(m, n)
    ensures Bit(w ^ m, j) == Bit(w, j)
  {
    hide Mask, Has, Apart;
    XorApart(w, m, n);
  }

  lemma AndZero(w: word, m: word)
    requires w & m == 0
    ensures Apart(w, m)
  {}

  lemma ApartZero(w: word, m: word)
    requires Apart(w, m)
    ensures w & m == 0
  {}

  lemma NoBitApart(w: word, i: nat)
    requires i < 32 && !Bit(w, i)
    ensures Apart(w, Mask(i))
  {}

  lemma ApartNoBit(w: word, i: nat)
    requires i < 32 && Apart(w, Mask(i))
    ensures !Bit(w, i)
  {}

  /** A test `w & (1 << i)` that fails means the bit is clear ... */
  lemma TestFails(w: word, i: nat)
    requires i < 32 && w & Mask(i) == 0
    ensures !Bit(w, i)
  {
    AndZero(w, Mask(i));
    ApartNoBit(w, i);
  }

  /** ... and one that succeeds means it is set. */
  lemma TestHolds(w: word, i: nat)
    requires i < 32 && w & Mask(i) != 0
    ensures Bit(w, i)
  {
    if !Bit(w, i) {
      NoBitApart(w, i);
      ApartZero(w, Mask(i));
    }
  }

  lemma HighMaskSplit(i: nat)
    requires i < 31
    ensures HighMask(i) == Mask(i) | HighMask(i + 1)
  {}

  lemma HighMaskTop()
    ensures HighMask(31) == Mask(31)
  {}

  lemma ApartParts(w: word, m: word, n: word)
    requires Apart(w, m | n)
    ensures Apart(w, m) && Apart(w, n)
  {}

  /** `w & (~0UL << i)` is zero only if no bit from `i` up is set ... */
  lemma {:induction false} NoHighBits(w: word, i: nat, j: nat)
    requires i <= j < 32 && Apart(w, HighMask(i))
    ensures !Bit(w, j)
    decreases 32 - i
  {
    if i == 31 {
      HighMaskTop();
      ApartNoBit(w, 31);
    } else {
      HighMaskSplit(i);
      ApartParts(w, Mask(i), HighMask(i + 1));
      if i == j {
        ApartNoBit(w, i);
      } else {
        NoHighBits(w, i + 1, j);
      }
    }
  }

  lemma StillHigher(w: word, i: nat)
    requires i < 31 && !Bit(w, i) && !Apart(w, HighMask(i))
    ensures !Apart(w, HighMask(i + 1))
  {
    HighMaskSplit(i);
    NoBitApart(w, i);
  }

  /** ... and otherwise the search upwards from `i` meets a set bit. */
  lemma {:induction false} SomeHighBit(w: word, i: nat) returns (j: nat)
    requires i < 32 && !Apart(w, HighMask(i))
    ensures i <= j < 32 && Bit(w, j)
    decreases 32 - i
  {
    j := i;
    if !Bit(w, i) {
      if i == 31 {
        HighMaskTop();
        NoBitApart(w, i);
        assert false;
      }
      StillHigher(w, i);
      j := SomeHighBit(w, i + 1);
    }
  }

  lemma HighTestFails(w: word, i: nat)
    requires i < 32 && w & HighMask(i) == 0
    ensures forall j :: i <= j < 32 ==> !Bit(w, j)
  {
    AndZero(w, HighMask(i));
    forall j | i <= j < 32
      ensures !Bit(w, j)
    {
      NoHighBits(w, i, j);
    }
  }

  lemma HighTestHolds(w: word, i: nat) returns (j: nat)
    requires i < 32 && w & HighMask(i) != 0
    ensures i <= j < 32 && Bit(w, j)
  {
    if Apart(w, HighMask(i)) {
      ApartZero(w, HighMask(i));
    }
    j := SomeHighBit(w, i);
  }

  lemma AllBits(w: word)
    ensures w & HighMask(0) == w
  {}

  /** The zero word has no bit ... */
  lemma ZeroWord(w: word)
    requires w == 0
    ensures forall j: nat :: j < 32 ==> !Bit(w, j)
  {
    AllBits(w);
    HighTestFails(w, 0);
  }

  /** ... and every other word has one. */
  lemma NonzeroWord(w: word) returns (j: nat)
    requires w != 0
    ensures j < 32 && Bit(w, j)
  {
    AllBits(w);
    j := HighTestHolds(w, 0);
  }

  lemma MaskShift(i: nat)
    requires i < 31
    ensures Mask(i) << 1 == Mask(i + 1)
  {}

  ghost predicate BelowTop(m: word) {
    (m << 1) >> 1 == m
  }

  lemma MaskBelowTop(i: nat)
    requires i < 31
    ensures BelowTop(Mask(i))
  {}

  lemma ShiftHas(w: word, m: word)
    requires Has(w, m)
    ensures Has(w << 1, m << 1)
  {}

  lemma ShiftHasBack(w: word, m: word)
    requires BelowTop(m) && Has(w << 1, m << 1)
    ensures Has(w, m)
  {}

  /** `w <<= 1` moves every bit one place up (bit 31 is dropped) ... */
  lemma ShiftUp(w: word, j: nat)
    requires j < 31 && Bit(w, j)
    ensures Bit(w << 1, j + 1)
  {
    MaskShift(j);
    ShiftHas(w, Mask(j));
  }

  lemma ShiftDown(w: word, j: nat)
    requires j < 31 && Bit(w << 1, j + 1)
    ensures Bit(w, j)
  {
    MaskShift(j);
    MaskBelowTop(j);
    ShiftHasBack(w, Mask(j));
  }

  /** ... and clears bit 0. */
  lemma ShiftIn(w: word)
    ensures !Bit(w << 1, 0)
  {}

  // `1UL << (SIZE_T_BIT - 1)`
  lemma TopFails(w: word)
    requires w & 0x8000_0000 == 0
    ensures !Bit(w, 31)
  {
    TopMask();
    TestFails(w, 31);
  }

  lemma TopHolds(w: word)
    requires w & 0x8000_0000 != 0
    ensures Bit(w, 31)
  {
    TopMask();
    TestHolds(w, 31);
  }

  lemma TopMask()
    ensures Mask(31) == 0x8000_0000
  {}
}
