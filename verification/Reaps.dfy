/** bitmapreap.h: freed slots are marked in a bitmap, and the lowest one is reused first. */
module BitmapReaps {
  import opened IntrusiveLists
  import opened Bits
  import opened Bitmaps
  import opened ReapSlots
  import opened ReapBases
  import opened ReapLayouts

  class BitmapReap {
    const base: ReapBase
    const bitmap: array<word>
    var lowestBit: nat

    ghost function State(): Slots
      reads this, base, bitmap
    {
      Slots(base.numTotal, base.numBumped, Marked(bitmap[..]))
    }

    ghost predicate Valid()
      reads this, base, bitmap
    {
      && base.Valid() && base.numTotal <= 32 * bitmap.Length
      && Proper(State()) && base.numFree == NumFree(State())
      // no free mark lies below the hint
      && forall i :: i in Marked(bitmap[..]) ==> lowestBit <= i
    }

    constructor (at: nat, size: nat, objectSize: nat)
      requires IsRegion(at, size) && 0 < objectSize
      ensures var l := BitmapLayout(at, size, BITMAP_REAP, objectSize);
        && LaidOut(l, at, size, objectSize) && at + BITMAP_REAP <= l.mapEnd
        && base.basePtr == l.base && base.objectSize == objectSize && State() == Slots(l.total, 0, {})
      // the least number of words with a bit for each object, the next aligned base, and no room for another object
      ensures LeastWords(bitmap.Length, size - BITMAP_REAP, objectSize)
      ensures at + BITMAP_REAP + 4 * bitmap.Length <= base.basePtr < at + BITMAP_REAP + 4 * bitmap.Length + 8
      ensures Most(base.numTotal, at + size - base.basePtr, base.objectSize)
      ensures Valid() && fresh(base) && fresh(bitmap)
    {
      hide LeastWords, Most, BitmapLayout, Words, LaidOut, IsRegion, Marked, Proper, NumFree;
      RegionLayout(at, size, BITMAP_REAP, objectSize);
      FreshSlots(BitmapLayout(at, size, BITMAP_REAP, objectSize).total);
      var l := BitmapLayout(at, size, BITMAP_REAP, objectSize);
      base := new ReapBase(objectSize, l.total, l.total, l.base);
      bitmap := new word[Words(size, BITMAP_REAP, objectSize)](_ => 0);
      lowestBit := l.total;
      new;
      AllZero(bitmap[..]);
    }

    /** The lowest mark: the first non-zero word from the hint on, and the first bit in it. */
    method Search() returns (offset: nat)
      requires Valid() && Marked(bitmap[..]) != {}
      ensures IsMin(Marked(bitmap[..]), offset)
    {
      hide Mask, Bit, Marked;
      ghost var some :| some in Marked(bitmap[..]);
      var bm := ScanWords(bitmap, lowestBit / 32, some);
      ghost var bit := NonzeroWord(bitmap[bm]);
      var r := ScanBits(bitmap[bm], 0, bit);
      offset := 32 * bm + r;
      MarkedAt(bitmap[..], bm, r);
      ClearRange(bitmap[..], bm, 0, r);
      forall i | i in Marked(bitmap[..])
        ensures offset <= i
      {
        if i < 32 * bm {
          WordOf(bitmap[..], i);
          assert bitmap[..][i / 32] == bitmap[i / 32];
          NoWord(bitmap[..], i / 32);
        }
      }
    }

    method Malloc() returns (ptr: int)
      requires Valid()
      modifies this, base, bitmap
      ensures Valid()
      ensures var s := old(State());
        if HasFree(s) then
          ptr == Address(base.basePtr, base.objectSize, NextLowest(s)) && 0 < ptr && State() == Taken(s, NextLowest(s))
        else ptr == NULL && State() == s
    {
      hide Marked;
      FreeCount(State());
      ptr := base.Malloc();
      if ptr == NULL && base.numFree > 0 {
        var offset := Search();
        ClearMark(bitmap, offset);
        ptr := base.basePtr + base.objectSize * offset;
        lowestBit := offset + 1;
        base.numFree := base.numFree - 1;
      }
    }

    method Free(ptr: int, ghost slot: nat)
      requires Valid() && slot in Live(State()) && ptr == Address(base.basePtr, base.objectSize, slot)
      modifies this, base, bitmap
      ensures Valid() && State() == Given(old(State()), slot)
    {
      hide Marked;
      SlotOfAddress(base.basePtr, base.objectSize, slot);
      var offset := (ptr - base.basePtr) / base.objectSize;
      SetMark(bitmap, offset);
      base.numFree := base.numFree + 1;
      if offset < lowestBit {
        lowestBit := offset;
      }
    }
  }
}

/** bytemapreap.h: the same with one byte per slot. */
module BytemapReaps {
  import opened IntrusiveLists
  import opened ReapSlots
  import opened ReapBases
  import opened ReapLayouts

  ghost function Set(bytes: seq<nat>): set<nat> {
    set i: nat | i < |bytes| && bytes[i] != 0
  }

  class BytemapReap {
    const base: ReapBase
    const bytemap: array<nat>
    var lowestByte: nat

    ghost function State(): Slots
      reads this, base, bytemap
    {
      Slots(base.numTotal, base.numBumped, Set(bytemap[..]))
    }

    ghost predicate Valid()
      reads this, base, bytemap
    {
      && base.Valid() && base.numTotal <= bytemap.Length
      && (forall i :: 0 <= i < bytemap.Length ==> bytemap[i] <= 1)
      && Proper(State()) && base.numFree == NumFree(State())
      && forall i :: i in Set(bytemap[..]) ==> lowestByte <= i
    }

    constructor (at: nat, size: nat, objectSize: nat)
      requires IsRegion(at, size) && 0 < objectSize
      ensures var l := BytemapLayout(at, size, objectSize);
        && LaidOut(l, at, size, objectSize) && at + BYTEMAP_REAP <= l.mapEnd
        && base.basePtr == l.base && base.objectSize == objectSize && State() == Slots(l.total, 0, {})
      ensures Most(bytemap.Length, size - BYTEMAP_REAP, objectSize)
      ensures at + BYTEMAP_REAP + bytemap.Length <= base.basePtr < at + BYTEMAP_REAP + bytemap.Length + 8
      ensures Most(base.numTotal, at + size - base.basePtr, base.objectSize)
      ensures Valid() && fresh(base) && fresh(bytemap)
    {
      hide Most, BytemapLayout, LaidOut, IsRegion, Proper, NumFree;
      RegionBytemap(at, size, objectSize);
      FreshSlots(BytemapLayout(at, size, objectSize).total);
      var l := BytemapLayout(at, size, objectSize);
      base := new ReapBase(objectSize, l.total, l.total, l.base);
      bytemap := new nat[l.mapEnd - at - BYTEMAP_REAP](_ => 0);
      lowestByte := l.total;
      new;
      assert Set(bytemap[..]) == {};
    }

    method Malloc() returns (ptr: int)
      requires Valid()
      modifies this, base, bytemap
      ensures Valid()
      ensures var s := old(State());
        if HasFree(s) then
          ptr == Address(base.basePtr, base.objectSize, NextLowest(s)) && 0 < ptr && State() == Taken(s, NextLowest(s))
        else ptr == NULL && State() == s
    {
      FreeCount(State());
      ptr := base.Malloc();
      if ptr == NULL && base.numFree > 0 {
        ghost var some :| some in Set(bytemap[..]);
        var offset := lowestByte;
        while bytemap[offset] == 0
          invariant lowestByte <= offset <= some
          invariant forall i :: i in Set(bytemap[..]) ==> offset <= i
          decreases some - offset
        {
          offset := offset + 1;
        }
        bytemap[offset] := 0;
        assert Set(bytemap[..]) == Set(old(bytemap[..])) - {offset};
        ptr := base.basePtr + base.objectSize * offset;
        lowestByte := offset + 1;
        base.numFree := base.numFree - 1;
      }
    }

    method Free(ptr: int, ghost slot: nat)
      requires Valid() && slot in Live(State()) && ptr == Address(base.basePtr, base.objectSize, slot)
      modifies this, base, bytemap
      ensures Valid() && State() == Given(old(State()), slot)
    {
      SlotOfAddress(base.basePtr, base.objectSize, slot);
      var offset := (ptr - base.basePtr) / base.objectSize;
      bytemap[offset] := 1;
      assert Set(bytemap[..]) == Set(old(bytemap[..])) + {offset};
      base.numFree := base.numFree + 1;
      if offset < lowestByte {
        lowestByte := offset;
      }
    }
  }
}

/** The bitmap and the bytemap reap are interchangeable. */
module LowestFirst {
  import opened IntrusiveLists
  import opened ReapSlots
  import opened ReapBases
  import opened BitmapReaps
  import opened BytemapReaps
  import Bitmaps

  /** One call on a reap: an allocation, or the return of a slot. */
  datatype Call = Get | PutBack(slot: nat)

  ghost predicate Legal(s: Slots, call: Call) {
    call.PutBack? ==> call.slot in Live(s)
  }

  ghost function Next(s: Slots, call: Call): Slots {
    match call
    case Get => if HasFree(s) then Taken(s, NextLowest(s)) else s
    case PutBack(slot) => Given(s, slot)
  }

  /** The answer of an allocation: a slot, or -1 for NULL. */
  ghost function Answer(s: Slots): int {
    if HasFree(s) then NextLowest(s) else -1
  }

  /** The answers over a history of calls. */
  ghost function Answers(s: Slots, calls: seq<Call>): seq<int>
    decreases |calls|
  {
    if calls == [] then []
    else (if calls[0].Get? then [Answer(s)] else []) + Answers(Next(s, calls[0]), calls[1..])
  }

  ghost predicate AllLegal(s: Slots, calls: seq<Call>)
    decreases |calls|
  {
    calls == [] || (Legal(s, calls[0]) && AllLegal(Next(s, calls[0]), calls[1..]))
  }

  ghost predicate Increasing(s: seq<int>) {
    forall i, j :: 0 <= i < j < |s| ==> s[i] < s[j]
  }

  /** After bumping, consecutive allocations hand out the freed slots in increasing order. */
  lemma {:induction false} FreedSlotsInOrder(s: Slots, n: nat)
    requires Proper(s) && s.bumped == s.total && n == |s.freed|
    ensures var a := Answers(s, seq(n, _ => Get));
      Increasing(a) && |a| == n && forall i :: 0 <= i < n ==> 0 <= a[i] && a[i] in s.freed
    decreases n
  {
    var calls := seq(n, _ => Get);
    if n > 0 {
      var m := Lowest(s.freed);
      var t := Taken(s, m);
      FreedSlotsInOrder(t, n - 1);
      assert calls[1..] == seq(n - 1, _ => Get);
      var rest := Answers(t, calls[1..]);
      assert Answers(s, calls) == [m] + rest;
      assert forall i :: 0 <= i < n - 1 ==> m < rest[i];
    }
  }

  lemma AnswersStep(s: Slots, calls: seq<Call>, i: nat)
    requires i < |calls| && AllLegal(s, calls[i..])
    ensures Legal(s, calls[i]) && AllLegal(Next(s, calls[i]), calls[i + 1..])
    ensures Answers(s, calls[i..])
         == (if calls[i].Get? then [Answer(s)] else []) + Answers(Next(s, calls[i]), calls[i + 1..])
  {
    assert calls[i..][1..] == calls[i + 1..];
  }

  /** One call on a bitmap reap; the slot it answers, -1 for NULL. */
  method BitCall(reap: BitmapReap, call: Call) returns (slot: int)
    requires reap.Valid() && Legal(reap.State(), call)
    modifies reap, reap.base, reap.bitmap
    ensures reap.Valid() && reap.State() == Next(old(reap.State()), call)
    ensures call.Get? ==> slot == Answer(old(reap.State()))
  {
    hide Bitmaps.Marked;
    var base, size := reap.base.basePtr, reap.base.objectSize;
    slot := -1;
    match call {
      case Get =>
        if HasFree(reap.State()) {
          SlotOfAddress(base, size, NextLowest(reap.State()));
        }
        var ptr := reap.Malloc();
        if ptr != NULL {
          slot := (ptr - base) / size;
        }
      case PutBack(i) =>
        reap.Free(base + size * i, i);
    }
  }

  method ByteCall(reap: BytemapReap, call: Call) returns (slot: int)
    requires reap.Valid() && Legal(reap.State(), call)
    modifies reap, reap.base, reap.bytemap
    ensures reap.Valid() && reap.State() == Next(old(reap.State()), call)
    ensures call.Get? ==> slot == Answer(old(reap.State()))
  {
    hide Set;
    var base, size := reap.base.basePtr, reap.base.objectSize;
    slot := -1;
    match call {
      case Get =>
        if HasFree(reap.State()) {
          SlotOfAddress(base, size, NextLowest(reap.State()));
        }
        var ptr := reap.Malloc();
        if ptr != NULL {
          slot := (ptr - base) / size;
        }
      case PutBack(i) =>
        reap.Free(base + size * i, i);
    }
  }

  /** With equal slot counts, both reaps give the same slots for every legal history of calls. */
  method InLockstep(bits: BitmapReap, bytes: BytemapReap, calls: seq<Call>) returns (bitSlots: seq<int>, byteSlots: seq<int>)
    requires bits.Valid() && bytes.Valid() && bits.State() == bytes.State() && AllLegal(bits.State(), calls)
    requires bits.base != bytes.base && bits.bitmap as object != bytes.bytemap as object
    modifies bits, bits.base, bits.bitmap, bytes, bytes.base, bytes.bytemap
    ensures bitSlots == byteSlots == Answers(old(bits.State()), calls)
  {
    hide Bitmaps.Marked, Set, Answers, AllLegal, Next, Answer;
    bitSlots, byteSlots := [], [];
    var i := 0;
    assert calls[0..] == calls;
    while i < |calls|
      invariant 0 <= i <= |calls|
      invariant bits.Valid() && bytes.Valid() && bits.State() == bytes.State()
      invariant AllLegal(bits.State(), calls[i..])
      invariant bitSlots == byteSlots
      invariant bitSlots + Answers(bits.State(), calls[i..]) == Answers(old(bits.State()), calls)
    {
      AnswersStep(bits.State(), calls, i);
      var p := BitCall(bits, calls[i]);
      var q := ByteCall(bytes, calls[i]);
      if calls[i].Get? {
        bitSlots, byteSlots := bitSlots + [p], byteSlots + [q];
      }
      i := i + 1;
    }
    assert calls[i..] == [];
    NoAnswers(bits.State());
  }

  lemma NoAnswers(s: Slots)
    ensures Answers(s, []) == []
  {}
}
