/** bitmapcachingreap.h: a bitmap with a small cache of byte offsets in front of it. This is the deployed reap. */
module BitmapCachingReaps {
  import opened IntrusiveLists
  import opened Bits
  import opened Bitmaps
  import opened ReapSlots
  import opened ReapBases
  import opened ReapLayouts
  import opened Sequences

  const CACHE_SIZE := 32

  /** Conversion to `unsigned short`. */
  function Short(x: nat): nat {
    x % 0x1_0000
  }

  ghost predicate CacheHolds(cached: seq<nat>, n: nat, size: nat, slots: seq<nat>) {
    && n <= |cached| && |slots| == n
    && forall i :: 0 <= i < n ==> cached[i] == size * slots[i]
  }

  /** Each slot is in one place: not yet bumped, live, once in the cache, or marked in the bitmap. */
  ghost predicate InPlace(s: Slots, marked: set<nat>, cache: seq<nat>, numFree: int, lowestBit: nat) {
    && s.freed == marked + Elements(cache) && marked !! Elements(cache) && NoDuplicates(cache)
    && Proper(s) && numFree == NumFree(s)
    && forall i :: i in marked ==> lowestBit <= i
  }

  class BitmapCachingReap {
    const base: ReapBase
    const bitmap: array<word>
    const cachedOffsets: array<nat>
    var lowestBit: nat
    var numCached: nat
    // the slots in the cache, in the order they were put there
    ghost var cache: seq<nat>

    /** Freed slots are in the cache or marked in the bitmap. */
    ghost function State(): Slots
      reads this, base, bitmap
    {
      Slots(base.numTotal, base.numBumped, Marked(bitmap[..]) + Elements(cache))
    }

    ghost predicate Fixed()
      reads this, base
    {
      && base.Valid() && base.numTotal <= 32 * bitmap.Length && cachedOffsets.Length == CACHE_SIZE
      && bitmap as object != cachedOffsets as object
      // a subheap has at most PAGE_SIZE << 4 bytes
      && base.objectSize * base.numTotal <= 0x1_0000
    }

    ghost predicate Places()
      reads this, base, bitmap, cachedOffsets
    {
      && cachedOffsets.Length == CACHE_SIZE
      && CacheHolds(cachedOffsets[..], numCached, base.objectSize, cache)
      && InPlace(State(), Marked(bitmap[..]), cache, base.numFree, lowestBit)
    }

    ghost predicate Valid()
      reads this, base, bitmap, cachedOffsets
    {
      Fixed() && Places() && numCached < CACHE_SIZE
    }

    constructor (at: nat, size: nat, objectSize: nat)
      requires IsRegion(at, size) && 0 < objectSize
      ensures var l := BitmapLayout(at, size, BITMAP_CACHING_REAP, objectSize);
        && LaidOut(l, at, size, objectSize) && at + BITMAP_CACHING_REAP <= l.mapEnd
        && base.basePtr == l.base && base.objectSize == objectSize && State() == Slots(l.total, 0, {})
      // the least number of words with a bit for each object, the next aligned base, and no room for another object
      ensures LeastWords(bitmap.Length, size - BITMAP_CACHING_REAP, objectSize)
      ensures at + BITMAP_CACHING_REAP + 4 * bitmap.Length <= base.basePtr < at + BITMAP_CACHING_REAP + 4 * bitmap.Length + 8
      ensures Most(base.numTotal, at + size - base.basePtr, base.objectSize)
      ensures Valid() && fresh(base) && fresh(bitmap) && fresh(cachedOffsets) && cache == []
    {
      hide LeastWords, Most, BitmapLayout, Words, LaidOut, IsRegion, InPlace, Marked, Proper;
      RegionLayout(at, size, BITMAP_CACHING_REAP, objectSize);
      var l := BitmapLayout(at, size, BITMAP_CACHING_REAP, objectSize);
      InitialPlaces(l.total);
      base := new ReapBase(objectSize, l.total, l.total, l.base);
      bitmap := new word[Words(size, BITMAP_CACHING_REAP, objectSize)](_ => 0);
      cachedOffsets := new nat[CACHE_SIZE];
      lowestBit, numCached, cache := l.total, 0, [];
      new;
      AllZero(bitmap[..]);
    }

    /** A slot is put into the cache as its byte offset, which fits in 16 bits. */
    method PutInCache(offset: int, ghost slot: nat)
      requires Fixed() && CacheHolds(cachedOffsets[..], numCached, base.objectSize, cache)
      requires numCached < CACHE_SIZE && slot < base.numTotal && offset == base.objectSize * slot
      modifies this`numCached, this`cache, cachedOffsets
      ensures CacheHolds(cachedOffsets[..], numCached, base.objectSize, cache)
      ensures cache == old(cache) + [slot] && numCached == old(numCached) + 1
    {
      OffsetFits(base.objectSize, base.numTotal, slot);
      cachedOffsets[numCached] := Short(offset);
      numCached := numCached + 1;
      cache := cache + [slot];
    }

    /** The marks of word `k` are put into the cache from the highest to the lowest. */
    method FillCache(k: nat)
      requires Fixed() && CacheHolds(cachedOffsets[..], numCached, base.objectSize, cache)
      requires numCached == 0 && k < bitmap.Length && bitmap[k] != 0
      requires forall i :: i in Marked(bitmap[..]) ==> i < base.numTotal
      modifies this`numCached, this`cache, cachedOffsets
      ensures CacheHolds(cachedOffsets[..], numCached, base.objectSize, cache)
      ensures Collected(cache, bitmap[..], k, 32)
    {
      hide Marked, Bit, Mask, Collected;
      var mask, offset, more := bitmap[k], (k + 1) * 32, true;
      ghost var done, w, bm := 0, mask, bitmap[..];
      CollectNone(cache, bm, k);
      while more
        invariant offset == 32 * k + 32 - done && done <= 32
        invariant Shifted(mask, w, done) && more == (mask != 0)
        invariant CacheHolds(cachedOffsets[..], numCached, base.objectSize, cache) && numCached <= done
        invariant Collected(cache, bm, k, done)
        decreases 32 - done
      {
        ShiftedNonzero(mask, w, done);
        offset := offset - 1;
        MarkedAt(bm, k, 31 - done);
        CollectNext(cache, bm, k, done);
        if mask & 0x8000_0000 != 0 {
          TopHolds(mask);
          PutInCache(base.objectSize * offset, offset);
        } else {
          TopFails(mask);
        }
        ShiftedOnce(mask, mask << 1, w, done);
        mask := mask << 1;
        done := done + 1;
        more := mask != 0;
      }
      forall r: nat | r < 32 - done
        ensures !Bit(w, r)
      {
        ShiftedOut(mask, w, done, r);
      }
      ClearRange(bm, k, 0, 32 - done);
      CollectRest(cache, bm, k, done);
    }

    /** With an empty cache, the marks of the first non-zero word move into it. The lowest mark of all ends up last. */
    method Refill()
      requires Fixed() && Places() && numCached == 0 && Marked(bitmap[..]) != {}
      modifies this`numCached, this`cache, this`lowestBit, cachedOffsets, bitmap
      ensures Fixed() && Places() && State() == old(State()) && 0 < numCached
      ensures IsRefill(cache, State().freed)
    {
      hide Marked, Collected, Elements, InPlace, IsRefill;
      ghost var s, bm, some := State(), bitmap[..], Lowest(Marked(bitmap[..]));
      RefillNeeds(s, Marked(bm), cache, base.numFree, lowestBit);
      var k := ScanWords(bitmap, lowestBit / 32, some);
      forall i: nat | i < k
        ensures bm[i] == 0 || i < lowestBit / 32
      {
        assert bm[i] == bitmap[i];
      }
      FirstWord(bm, k, lowestBit);
      FillCache(k);
      bitmap[k] := 0;
      assert bitmap[..] == bm[k := 0];
      CollectedWord(cache, bm, k);
      RefillPlaces(s, cache, bm, k, base.numFree, lowestBit);
      lowestBit := (k + 1) * 32;
    }

    /** The slot cached last leaves the cache. */
    method Pop() returns (ptr: int, ghost slot: nat)
      requires Fixed() && Places() && 0 < numCached && base.numBumped == base.numTotal
      modifies this`numCached, this`cache, base`numFree
      ensures Fixed() && Places() && numCached == old(numCached) - 1
      ensures slot == old(cache)[|old(cache)| - 1] && cache == old(cache)[..|old(cache)| - 1]
      ensures ptr == Address(base.basePtr, base.objectSize, slot) && 0 < ptr
      ensures State() == Taken(old(State()), slot)
    {
      hide Marked, Elements, InPlace;
      slot := cache[|cache| - 1];
      PopPlaces(State(), Marked(bitmap[..]), cache, cache[..|cache| - 1], slot, base.numFree, lowestBit);
      numCached := numCached - 1;
      ptr := base.basePtr + cachedOffsets[numCached];
      cache := cache[..numCached];
      base.numFree := base.numFree - 1;
    }

    method Malloc() returns (ptr: int)
      requires Valid()
      modifies this, base, bitmap, cachedOffsets
      ensures Valid()
      ensures var s, c := old(State()), old(cache);
        if !HasFree(s) then ptr == NULL && State() == s && cache == c
        else
          var slot := NextCached(s, c);
          && ptr == Address(base.basePtr, base.objectSize, slot) && 0 < ptr && State() == Taken(s, slot)
          && (s.bumped < s.total ==> cache == c)
          && (s.bumped == s.total && c != [] ==> cache == c[..|c| - 1])
          && (s.bumped == s.total && c == [] ==> IsRefill(cache + [slot], s.freed))
    {
      hide Marked, IsRefill, Elements, InPlace;
      CountPlaces(State(), Marked(bitmap[..]), cache, base.numFree, lowestBit);
      if base.numBumped < base.numTotal {
        BumpPlaces(State(), Marked(bitmap[..]), cache, base.numFree, lowestBit);
      }
      ptr := base.Malloc();
      if ptr == NULL && base.numFree > 0 {
        if numCached == 0 {
          assert cache == [];
          Refill();
          RefillLowest(cache, State().freed);
        }
        ghost var slot;
        ptr, slot := Pop();
      }
    }

    /** A cached slot is marked in the bitmap. */
    method FlushOne(i: nat, ghost slot: nat)
      requires Fixed() && i < CACHE_SIZE && slot < base.numTotal && cachedOffsets[i] == base.objectSize * slot
      requires forall i :: i in Marked(bitmap[..]) ==> lowestBit <= i
      modifies this`lowestBit, bitmap
      ensures Marked(bitmap[..]) == old(Marked(bitmap[..])) + {slot}
      ensures forall i :: i in Marked(bitmap[..]) ==> lowestBit <= i
    {
      hide Marked;
      SlotOfAddress(0, base.objectSize, slot);
      var offset := cachedOffsets[i] / base.objectSize;
      SetMark(bitmap, offset);
      if offset < lowestBit {
        lowestBit := offset;
      }
    }

    /** A full cache is emptied into the bitmap. */
    method Flush()
      requires Fixed() && Places() && numCached == CACHE_SIZE
      modifies this`numCached, this`cache, this`lowestBit, bitmap
      ensures Fixed() && Places() && numCached == 0 && cache == [] && State() == old(State())
    {
      hide Marked, Elements, InPlace;
      ghost var s, marked, c := State(), Marked(bitmap[..]), cache;
      FlushNeeds(s, marked, c, base.numFree, lowestBit);
      for i := 0 to CACHE_SIZE
        invariant Marked(bitmap[..]) == marked + Elements(c[..i])
        invariant forall i :: i in Marked(bitmap[..]) ==> lowestBit <= i
      {
        FlushOne(i, c[i]);
        PushElements(c[..i], c[i]);
        assert c[..i + 1] == c[..i] + [c[i]];
      }
      assert c[..CACHE_SIZE] == c;
      FlushPlaces(s, marked, c, base.numFree, lowestBit);
      numCached, cache := 0, [];
    }

    method Free(ptr: int, ghost slot: nat)
      requires Valid() && slot in Live(State()) && ptr == Address(base.basePtr, base.objectSize, slot)
      modifies this, base, bitmap, cachedOffsets
      ensures Valid() && State() == Given(old(State()), slot)
      ensures cache == if |old(cache)| + 1 < CACHE_SIZE then old(cache) + [slot] else []
    {
      hide Marked, Elements, InPlace, Live;
      PushPlaces(State(), Marked(bitmap[..]), cache, base.numFree, lowestBit, slot);
      PutInCache(ptr - base.basePtr, slot);
      base.numFree := base.numFree + 1;
      if numCached == CACHE_SIZE {
        Flush();
      }
    }
  }

  /** The slot handed out next: a fresh one, else the one cached last, else the lowest freed one. */
  ghost function NextCached(s: Slots, cache: seq<nat>): nat
    requires HasFree(s)
  {
    if s.bumped < s.total then s.bumped else if cache != [] then cache[|cache| - 1] else Lowest(s.freed)
  }

  /** After a refill the cache holds the freed slots of one bitmap word in descending order, the lowest of all last. */
  ghost predicate IsRefill(cache: seq<nat>, freed: set<nat>) {
    && cache != [] && IsMin(freed, cache[|cache| - 1])
    && (forall i :: i in cache <==> i in freed && i / 32 == cache[|cache| - 1] / 32)
    && (forall i, j :: 0 <= i < j < |cache| ==> cache[j] < cache[i])
  }

  lemma RefillLowest(cache: seq<nat>, freed: set<nat>)
    requires IsRefill(cache, freed)
    ensures cache != [] && freed != {} && cache[|cache| - 1] == Lowest(freed)
    ensures cache == cache[..|cache| - 1] + [Lowest(freed)]
  {}

  lemma InitialPlaces(total: nat)
    ensures InPlace(Slots(total, 0, {}), {}, [], total, total) && Elements([]) == {}
  {}

  lemma PushElements(cache: seq<nat>, slot: nat)
    ensures Elements(cache + [slot]) == Elements(cache) + {slot}
  {}

  lemma PopPlaces(s: Slots, marked: set<nat>, cache: seq<nat>, rest: seq<nat>, slot: nat, numFree: int, lowestBit: nat)
    requires InPlace(s, marked, cache, numFree, lowestBit) && cache == rest + [slot] && s.bumped == s.total
    ensures InPlace(Taken(s, slot), marked, rest, numFree - 1, lowestBit)
    ensures Taken(s, slot).freed == marked + Elements(rest)
  {
    PopLast(cache, rest, slot);
    hide Elements, NoDuplicates;
    PopSet(s.freed, marked, Elements(cache), Elements(rest), slot);
  }

  lemma PopLast(cache: seq<nat>, rest: seq<nat>, slot: nat)
    requires cache == rest + [slot] && NoDuplicates(cache)
    ensures slot !in Elements(rest) && NoDuplicates(rest) && Elements(cache) == Elements(rest) + {slot}
  {
    assert cache[|rest|] == slot;
    assert forall j :: 0 <= j < |rest| ==> rest[j] == cache[j];
    PushElements(rest, slot);
  }

  lemma PopSet(freed: set<nat>, marked: set<nat>, cached: set<nat>, rest: set<nat>, slot: nat)
    requires freed == marked + cached && marked !! cached && cached == rest + {slot} && slot !in rest
    ensures freed - {slot} == marked + rest && marked !! rest && |freed - {slot}| == |freed| - 1
    ensures slot in freed
  {
    assert slot in cached;
  }

  lemma BumpPlaces(s: Slots, marked: set<nat>, cache: seq<nat>, numFree: int, lowestBit: nat)
    requires InPlace(s, marked, cache, numFree, lowestBit) && s.bumped < s.total
    ensures InPlace(Taken(s, s.bumped), marked, cache, numFree - 1, lowestBit)
  {}

  lemma CountPlaces(s: Slots, marked: set<nat>, cache: seq<nat>, numFree: int, lowestBit: nat)
    requires InPlace(s, marked, cache, numFree, lowestBit)
    ensures numFree == 0 <==> !HasFree(s)
    ensures numFree >= 0
    ensures s.bumped == s.total && numFree > 0 && cache == [] ==> marked != {} && s.freed == marked
  {
    FreeCount(s);
  }

  lemma PushPlaces(s: Slots, marked: set<nat>, cache: seq<nat>, numFree: int, lowestBit: nat, slot: nat)
    requires InPlace(s, marked, cache, numFree, lowestBit) && slot in Live(s)
    ensures InPlace(Given(s, slot), marked, cache + [slot], numFree + 1, lowestBit)
    ensures Given(s, slot).freed == marked + Elements(cache + [slot]) && slot !in cache && slot < s.total
  {
    PushElements(cache, slot);
    assert slot !in Elements(cache);
  }

  lemma RefillNeeds(s: Slots, marked: set<nat>, cache: seq<nat>, numFree: int, lowestBit: nat)
    requires InPlace(s, marked, cache, numFree, lowestBit) && cache == []
    ensures s.freed == marked
    ensures forall i :: i in marked ==> lowestBit <= i && i < s.total
  {}

  lemma RefillPlaces(s: Slots, cache: seq<nat>, bm: seq<word>, k: nat, numFree: int, lowestBit: nat)
    requires InPlace(s, Marked(bm), [], numFree, lowestBit) && k < |bm|
    requires IsRefill(cache, Marked(bm)) && cache[|cache| - 1] / 32 == k
    requires NoDuplicates(cache)
    ensures InPlace(s, Marked(bm[k := 0]), cache, numFree, (k + 1) * 32)
    ensures s.freed == Marked(bm[k := 0]) + Elements(cache)
  {
    ClearWord(bm, k);
    hide Marked;
    RefillElements(cache, Marked(bm), k);
    assert Elements([]) == {};
    hide Elements, NoDuplicates, IsRefill;
    RefillSets(Marked(bm), Elements(cache), Marked(bm[k := 0]), k);
  }

  lemma RefillSets(marked: set<nat>, cached: set<nat>, rest: set<nat>, k: nat)
    requires cached == set i | i in marked && i / 32 == k
    requires rest == set i | i in marked && i / 32 != k
    requires forall i :: i in marked ==> k <= i / 32
    ensures marked == rest + cached && rest !! cached
    ensures forall i :: i in rest ==> (k + 1) * 32 <= i
  {}

  lemma RefillElements(cache: seq<nat>, marked: set<nat>, k: nat)
    requires IsRefill(cache, marked) && cache[|cache| - 1] / 32 == k
    ensures Elements(cache) == set i | i in marked && i / 32 == k
    ensures forall i :: i in marked ==> k <= i / 32
  {}

  lemma FlushNeeds(s: Slots, marked: set<nat>, cache: seq<nat>, numFree: int, lowestBit: nat)
    requires InPlace(s, marked, cache, numFree, lowestBit)
    ensures marked + Elements(cache[..0]) == marked
    ensures forall i :: i in marked ==> lowestBit <= i
    ensures forall i :: 0 <= i < |cache| ==> cache[i] < s.total
  {
    assert forall j :: 0 <= j < |cache| ==> cache[j] in Elements(cache);
  }

  lemma FlushPlaces(s: Slots, marked: set<nat>, cache: seq<nat>, numFree: int, lowestBit: nat)
    requires exists h :: InPlace(s, marked, cache, numFree, h)
    requires forall i :: i in marked + Elements(cache) ==> lowestBit <= i
    ensures InPlace(s, marked + Elements(cache), [], numFree, lowestBit)
    ensures s.freed == marked + Elements(cache) + Elements([])
  {}

  /** The first non-zero word from the hint's word on is the first one with a mark. */
  lemma FirstWord(bm: seq<word>, k: nat, hint: nat)
    requires k < |bm|
    requires forall i: nat :: i < k ==> bm[i] == 0 || i < hint / 32
    requires forall i :: i in Marked(bm) ==> hint <= i
    ensures forall i :: i in Marked(bm) ==> 32 * k <= i
  {
    hide Marked;
    forall i | i in Marked(bm)
      ensures 32 * k <= i
    {
      if i < 32 * k {
        WordOf(bm, i);
        NoWord(bm, i / 32);
      }
    }
  }

  /** A collected word: exactly its marks, the lowest one last. */
  lemma CollectedWord(cache: seq<nat>, bm: seq<word>, k: nat)
    requires Collected(cache, bm, k, 32) && k < |bm| && bm[k] != 0
    requires forall i :: i in Marked(bm) ==> 32 * k <= i
    ensures cache != [] && IsRefill(cache, Marked(bm)) && NoDuplicates(cache) && cache[|cache| - 1] / 32 == k
  {
    hide Marked;
    var some := SomeInWord(bm, k);
    assert some in cache;
    var last := cache[|cache| - 1];
    assert last in cache;
    forall i | i in Marked(bm)
      ensures cache[|cache| - 1] <= i
    {
      if i in cache {
        var j :| 0 <= j < |cache| && cache[j] == i;
      }
    }
  }

  /** `cache` lists the marks among the `done` highest positions of word `k`, from the highest to the lowest. */
  ghost predicate Collected(cache: seq<nat>, bm: seq<word>, k: nat, done: nat)
  {
    && (forall i :: i in cache <==> i in Marked(bm) && 32 * k + 32 - done <= i < 32 * k + 32)
    && (forall i, j :: 0 <= i < j < |cache| ==> cache[j] < cache[i])
  }

  lemma CollectNone(cache: seq<nat>, bm: seq<word>, k: nat)
    requires cache == []
    ensures Collected(cache, bm, k, 0)
  {}

  lemma CollectNext(cache: seq<nat>, bm: seq<word>, k: nat, done: nat)
    requires Collected(cache, bm, k, done) && done < 32
    ensures var i := 32 * k + 31 - done;
      i !in cache && Collected(if i in Marked(bm) then cache + [i] else cache, bm, k, done + 1)
  {
    hide Marked;
    var i := 32 * k + 31 - done;
    var cache' := cache + [i];
    assert forall a :: 0 <= a < |cache| ==> cache[a] in cache;
    assert forall j :: j in cache' <==> j in cache || j == i;
  }

  lemma CollectRest(cache: seq<nat>, bm: seq<word>, k: nat, done: nat)
    requires Collected(cache, bm, k, done) && done <= 32
    requires forall i: nat :: 32 * k <= i < 32 * k + 32 - done ==> i !in Marked(bm)
    ensures Collected(cache, bm, k, 32)
  {
    hide Marked;
  }

  lemma OffsetFits(size: nat, total: nat, slot: nat)
    requires 0 < size && slot < total && size * total <= 0x1_0000
    ensures size * slot < 0x1_0000
  {
    AddressOrder(0, size, slot, total);
  }

  /** Once bumping is exhausted, an object just freed is handed out again, unless its free filled the cache. */
  method FreeThenMalloc(reap: BitmapCachingReap, ptr: int, ghost slot: nat) returns (again: int)
    requires reap.Valid() && slot in Live(reap.State()) && ptr == Address(reap.base.basePtr, reap.base.objectSize, slot)
    requires reap.base.numBumped == reap.base.numTotal && |reap.cache| + 1 < CACHE_SIZE
    modifies reap, reap.base, reap.bitmap, reap.cachedOffsets
    ensures again == ptr && reap.Valid() && reap.State() == old(reap.State()) && reap.cache == old(reap.cache)
  {
    hide Marked, Elements, IsRefill;
    ghost var s := reap.State();
    reap.Free(ptr, slot);
    again := reap.Malloc();
    assert s.freed + {slot} - {slot} == s.freed;
  }
}
