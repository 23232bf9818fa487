/** The mask of `getSubHeap` on machine words. */
module PageMasks {
  import opened Bits
  import opened ReapBases
  import opened ReapLayouts

  // Bit by bit: each lemma on words is about one shift, and the arithmetic is done on their values.

  function Value(p: word): nat {
    p as int
  }

  function Half(p: word): word {
    p >> 1
  }

  function Twice(p: word): word {
    p << 1
  }

  function TwicePlusOne(p: word): word {
    (p << 1) | 1
  }

  function Masked(p: word, mask: word): word {
    p & mask
  }

  predicate Small(p: word) {
    p < 0x8000_0000
  }

  lemma HalfMaskedIsSmall(p: word, mask: word)
    ensures Small(Half(p)) && Small(Masked(Half(p), mask))
  {}

  lemma ShiftedWord(p: word, t: word)
    requires p < 0x8000_0000 && t == p << 1
    ensures t as int == 2 * (p as int)
  {}

  lemma ShiftedWordPlusOne(p: word, t: word)
    requires p < 0x8000_0000 && t == (p << 1) | 1
    ensures t as int == 2 * (p as int) + 1
  {}

  lemma TwiceValue(p: word)
    requires Small(p)
    ensures Value(Twice(p)) == 2 * Value(p)
  {
    ShiftedWord(p, Twice(p));
  }

  lemma TwicePlusOneValue(p: word)
    requires Small(p)
    ensures Value(TwicePlusOne(p)) == 2 * Value(p) + 1
  {
    ShiftedWordPlusOne(p, TwicePlusOne(p));
  }

  lemma EvenOrOdd(p: word)
    ensures p == Twice(Half(p)) || p == TwicePlusOne(Half(p))
  {}

  lemma HalfValue(p: word)
    ensures Value(Half(p)) == Value(p) / 2
  {
    hide Value, Half, Twice, TwicePlusOne, Small;
    HalfMaskedIsSmall(p, p);
    EvenOrOdd(p);
    TwiceValue(Half(p));
    TwicePlusOneValue(Half(p));
  }

  /** A mask shifted up clears in a word what the mask clears in its half. */
  lemma MaskTwice(p: word, mask: word)
    ensures Masked(p, Twice(mask)) == Twice(Masked(Half(p), mask))
  {}

  lemma AllOnes(p: word)
    ensures Masked(p, 0xFFFF_FFFF) == p
  {}

  /** All bits but the `n` lowest. */
  function HighBits(n: nat): word {
    if n == 0 then 0xFFFF_FFFF else Twice(HighBits(n - 1))
  }

  /** Masking out the `n` lowest bits rounds down to a multiple of 2^n. */
  lemma {:induction false} MaskRoundsDown(p: word, n: nat)
    ensures 0 < Power2(n) && Value(Masked(p, HighBits(n))) == Value(p) / Power2(n) * Power2(n)
    decreases n
  {
    hide Value, Half, Twice, TwicePlusOne, Masked, Small;
    if n == 0 {
      AllOnes(p);
    } else {
      var q, m, d := Half(p), HighBits(n - 1), Power2(n - 1);
      MaskRoundsDown(q, n - 1);
      MaskTwice(p, m);
      HalfMaskedIsSmall(p, m);
      TwiceValue(Masked(q, m));
      HalfValue(p);
      HalveRound(Value(p), d);
    }
  }

  lemma HalveRound(x: nat, d: nat)
    requires 0 < d
    ensures 2 * (x / 2 / d * d) == x / (2 * d) * (2 * d)
  {
    var h, q := x / 2, x / 2 / d;
    Quotient(h, d);
    MulDistributes(2, d * q, h % d);
    DivUnique(x, 2 * d, q, 2 * (h % d) + x % 2);
  }

  /** `PAGE_MASK << (type - 1)`. */
  function TypeMask(order: nat): word
    requires 1 <= order <= 5
  {
    0xFFFF_F000 << (order - 1)
  }

  lemma PageMask()
    ensures HighBits(12) == 0xFFFF_F000
  {
    assert HighBits(4) == 0xFFFF_FFF0;
    assert HighBits(8) == 0xFFFF_FF00;
  }

  lemma TypeMaskIs(order: nat)
    requires 1 <= order <= 5
    ensures TypeMask(order) == HighBits(11 + order)
  {
    PageMask();
    assert HighBits(13) == 0xFFFF_E000;
    assert HighBits(14) == 0xFFFF_C000;
    assert HighBits(15) == 0xFFFF_8000;
    assert HighBits(16) == 0xFFFF_0000;
    assert order == 1 || order == 2 || order == 3 || order == 4 || order == 5;
  }
}
