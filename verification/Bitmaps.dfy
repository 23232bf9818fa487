/** A sequence of words read as the set of its marked positions. */
module Bitmaps {
  import opened Bits

  /** The positions whose bit is set: bit `i % SIZE_T_BIT` of word `i / SIZE_T_BIT`. */
  ghost function Marked(bm: seq<word>): set<nat> {
    set i: nat | i < 32 * |bm| && Bit(bm[i / 32], i % 32)
  }

  lemma SamePosition(i: nat, j: nat)
    requires i / 32 == j / 32 && i % 32 == j % 32
    ensures i == j
  {}

  lemma FlipWord(w: word, w': word, i: nat)
    requires i < 32 && w' == w ^ Mask(i) && Bit(w, i)
    ensures !Bit(w', i)
    ensures forall r: nat :: r < 32 && r != i ==> Bit(w', r) == Bit(w, r)
  {
    forall r: nat | r < 32 && r != i
      ensures Bit(w', r) == Bit(w, r)
    {
      FlipOther(w, i, r);
    }
    FlipClears(w, i);
  }

  lemma SetWord(w: word, w': word, i: nat)
    requires i < 32 && w' == w | Mask(i)
    ensures Bit(w', i)
    ensures forall r: nat :: r < 32 && r != i ==> Bit(w', r) == Bit(w, r)
  {
    forall r: nat | r < 32 && r != i
      ensures Bit(w', r) == Bit(w, r)
    {
      hide Bit, Mask;
      if Bit(w, r) {
        SetKeeps(w, i, r);
      }
      if Bit(w', r) {
        SetAddsNone(w, i, r);
      }
    }
    SetSame(w, i);
  }

  lemma ReplaceWord(bm: seq<word>, i: nat, w: word)
    requires i < 32 * |bm|
    requires forall r: nat :: r < 32 && r != i % 32 ==> Bit(w, r) == Bit(bm[i / 32], r)
    ensures Marked(bm[i / 32 := w]) == if Bit(w, i % 32) then Marked(bm) + {i} else Marked(bm) - {i}
  {
    var bm' := bm[i / 32 := w];
    forall j: nat | j < 32 * |bm| && j != i
      ensures Bit(bm'[j / 32], j % 32) == Bit(bm[j / 32], j % 32)
    {
      if j / 32 == i / 32 && j % 32 == i % 32 {
        SamePosition(i, j);
      }
    }
  }

  /** `bm[i / SIZE_T_BIT] |= 1 << (i % SIZE_T_BIT)` adds the mark `i`. */
  lemma Mark(bm: seq<word>, i: nat, w: word, bm': seq<word>)
    requires i < 32 * |bm| && w == bm[i / 32] | Mask(i % 32) && bm' == bm[i / 32 := w]
    ensures Marked(bm') == Marked(bm) + {i}
  {
    hide Bit, Mask, Marked;
    SetWord(bm[i / 32], w, i % 32);
    ReplaceWord(bm, i, w);
  }

  /** `bm[i / SIZE_T_BIT] ^= 1 << (i % SIZE_T_BIT)` removes the mark `i` if it is there. */
  lemma Unmark(bm: seq<word>, i: nat, w: word, bm': seq<word>)
    requires i in Marked(bm) && w == bm[i / 32] ^ Mask(i % 32) && bm' == bm[i / 32 := w]
    ensures Marked(bm') == Marked(bm) - {i}
  {
    hide Bit, Mask;
    FlipWord(bm[i / 32], w, i % 32);
    ReplaceWord(bm, i, w);
  }

  /** Clearing word `k` removes the marks `32k .. 32k + 31`. */
  lemma ClearWord(bm: seq<word>, k: nat)
    requires k < |bm|
    ensures Marked(bm[k := 0]) == set i | i in Marked(bm) && i / 32 != k
  {
    var bm' := bm[k := 0];
    ZeroWord(bm'[k]);
    forall j: nat | j < 32 * |bm|
      ensures Bit(bm'[j / 32], j % 32) == (j / 32 != k && Bit(bm[j / 32], j % 32))
    {}
  }

  lemma NoWord(bm: seq<word>, k: nat)
    requires k < |bm| && bm[k] == 0
    ensures forall i :: i in Marked(bm) ==> i / 32 != k
  {
    ZeroWord(bm[k]);
  }

  lemma SomeInWord(bm: seq<word>, k: nat) returns (i: nat)
    requires k < |bm| && bm[k] != 0
    ensures i in Marked(bm) && i / 32 == k
  {
    var j := NonzeroWord(bm[k]);
    i := 32 * k + j;
    assert i / 32 == k && i % 32 == j;
  }

  lemma WordOf(bm: seq<word>, i: nat)
    requires i in Marked(bm)
    ensures i / 32 < |bm|
  {}

  lemma MarkedAt(bm: seq<word>, k: nat, j: nat)
    requires k < |bm| && j < 32
    ensures 32 * k + j in Marked(bm) <==> Bit(bm[k], j)
  {
    assert (32 * k + j) / 32 == k && (32 * k + j) % 32 == j;
  }

  /** Clear bits `from .. to` of word `k` are unmarked positions. */
  lemma ClearRange(bm: seq<word>, k: nat, from: nat, to: nat)
    requires k < |bm| && to <= 32
    requires forall j: nat :: from <= j < to ==> !Bit(bm[k], j)
    ensures forall i: nat :: 32 * k + from <= i < 32 * k + to ==> i !in Marked(bm)
  {
    forall i: nat | 32 * k + from <= i < 32 * k + to
      ensures i !in Marked(bm)
    {
      assert i / 32 == k && i % 32 == i - 32 * k;
    }
  }

  /** A bitmap of zero words has no mark. */
  lemma AllZero(bm: seq<word>)
    requires forall k :: 0 <= k < |bm| ==> bm[k] == 0
    ensures Marked(bm) == {}
  {
    forall i: nat | i < 32 * |bm|
      ensures !Bit(bm[i / 32], i % 32)
    {
      ZeroWord(bm[i / 32]);
    }
  }

  /** `mask` is `w` shifted left by `done`. */
  ghost predicate Shifted(mask: word, w: word, done: nat) {
    forall j: nat {:trigger Bit(mask, j)} :: j < 32 ==> (Bit(mask, j) <==> done <= j && Bit(w, j - done))
  }

  lemma ShiftedOnce(mask: word, mask': word, w: word, done: nat)
    requires Shifted(mask, w, done) && mask' == mask << 1
    ensures Shifted(mask', w, done + 1)
  {
    hide Bit;
    forall j: nat | j < 32
      ensures Bit(mask', j) <==> done + 1 <= j && Bit(w, j - done - 1)
    {
      if j == 0 {
        ShiftIn(mask);
      } else {
        if Bit(mask, j - 1) {
          ShiftUp(mask, j - 1);
        }
        if Bit(mask', j) {
          ShiftDown(mask, j - 1);
        }
      }
    }
  }

  /** A shifted word that still has a bit was shifted less than 32 times. */
  lemma ShiftedNonzero(mask: word, w: word, done: nat)
    requires Shifted(mask, w, done) && mask != 0
    ensures done < 32
  {
    var j := NonzeroWord(mask);
    assert Bit(mask, j);
  }

  /** When nothing is left after `done` shifts, the lower bits of the word were clear. */
  lemma ShiftedOut(mask: word, w: word, done: nat, r: nat)
    requires Shifted(mask, w, done) && mask == 0 && r + done < 32
    ensures !Bit(w, r)
  {
    ZeroWord(mask);
    assert !Bit(mask, r + done);
  }

  /** The search loop for the first set bit from `from` up; `some` is a set bit it can rely on. */
  method ScanBits(w: word, from: nat, ghost some: nat) returns (offset: nat)
    requires from <= some < 32 && Bit(w, some)
    ensures from <= offset <= some && Bit(w, offset)
    ensures forall j: nat :: from <= j < offset ==> !Bit(w, j)
  {
    hide Mask, Bit;
    var mask := Mask(from);
    offset := from;
    while w & mask == 0
      invariant from <= offset <= some && mask == Mask(offset)
      invariant forall j: nat :: from <= j < offset ==> !Bit(w, j)
      decreases some - offset
    {
      TestFails(w, offset);
      MaskShift(offset);
      mask := mask << 1;
      offset := offset + 1;
    }
    TestHolds(w, offset);
  }

  /** The search loop for the first non-zero word that tests no bound; `some` is a mark it can rely on. */
  method ScanWords(bm: array<word>, from: nat, ghost some: nat) returns (k: nat)
    requires some in Marked(bm[..]) && from <= some / 32
    ensures from <= k <= some / 32 && bm[k] != 0
    ensures forall i :: from <= i < k ==> bm[i] == 0
  {
    k := from;
    assert bm[..][some / 32] == bm[some / 32];
    while bm[k] == 0
      invariant from <= k <= some / 32
      invariant forall i :: from <= i < k ==> bm[i] == 0
      decreases some / 32 - k
    {
      NoWord(bm[..], k);
      k := k + 1;
    }
  }

  /** `bm[i / SIZE_T_BIT] |= 1 << (i % SIZE_T_BIT)`. */
  method SetMark(bm: array<word>, i: nat)
    requires i < 32 * bm.Length
    modifies bm
    ensures Marked(bm[..]) == Marked(old(bm[..])) + {i}
  {
    hide Marked;
    var w := bm[i / 32] | Mask(i % 32);
    ghost var before := bm[..];
    assert w == before[i / 32] | Mask(i % 32);
    bm[i / 32] := w;
    Mark(before, i, w, bm[..]);
  }

  /** `bm[i / SIZE_T_BIT] ^= 1 << (i % SIZE_T_BIT)` for a set bit. */
  method ClearMark(bm: array<word>, i: nat)
    requires i in Marked(bm[..])
    modifies bm
    ensures Marked(bm[..]) == Marked(old(bm[..])) - {i}
  {
    var w := bm[i / 32] ^ Mask(i % 32);
    ghost var before := bm[..];
    assert w == before[i / 32] ^ Mask(i % 32);
    bm[i / 32] := w;
    Unmark(before, i, w, bm[..]);
  }
}
