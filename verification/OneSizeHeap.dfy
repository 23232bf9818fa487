/** The bookkeeping of onesizeheap.h as a value: subheaps of one object size, in doubling sizes. */
module Shelves {
  import opened Bits
  import opened PageMasks
  import opened Sequences
  import opened ReapSlots
  import opened ReapBases
  import opened ReapLayouts
  import opened Partitions

  /** A reap by its slots; its region has `PAGE_SIZE << (order - 1)` bytes. */
  datatype Sub = Sub(order: nat, slots: Slots)

  /** `subs` are the reaps by the address of their region, which is where they are. */
  datatype Shelf = Shelf(full: seq<nat>, avai: seq<nat>, subs: map<nat, Sub>, objectSize: nat, nextOrder: nat)

  function LayoutOf(a: nat, order: nat, objectSize: nat): Layout
    requires 0 < objectSize
  {
    BitmapLayout(a, ClusterSize(order), BITMAP_CACHING_REAP, objectSize)
  }

  /** A region as the super heap gives it for a reap: aligned to its own size. */
  ghost predicate ReapRegion(a: nat, order: nat) {
    1 <= order <= MAX_PAGE_ORDER && IsRegion(a, ClusterSize(order)) && a % ClusterSize(order) == 0
  }

  ghost predicate SubShape(a: nat, sub: Sub, objectSize: nat) {
    && 0 < objectSize && ReapRegion(a, sub.order) && Proper(sub.slots)
    && sub.slots.total == LayoutOf(a, sub.order, objectSize).total
  }

  ghost predicate Arranged(s: Shelf) {
    && NoDuplicates(s.full) && NoDuplicates(s.avai)
    && (forall a: nat :: a in s.subs <==> a in s.full || a in s.avai)
    && (forall a: nat :: !(a in s.full && a in s.avai))
  }

  ghost predicate FullOnes(s: Shelf) {
    forall a: nat :: a in s.full && a in s.subs ==> !HasFree(s.subs[a].slots)
  }

  ghost predicate Shapes(s: Shelf) {
    && 1 <= s.nextOrder <= MAX_PAGE_ORDER
    && forall a :: a in s.subs ==> SubShape(a, s.subs[a], s.objectSize)
  }

  ghost predicate Separated(s: Shelf) {
    forall a, b :: a in s.subs && b in s.subs && a != b
      ==> Disjoint(a, ClusterSize(s.subs[a].order), b, ClusterSize(s.subs[b].order))
  }

  /** Only a subheap with a single slot, or none, is kept without a live object. */
  ghost predicate NoneIdle(s: Shelf) {
    forall a :: a in s.subs && ReapSlots.Live(s.subs[a].slots) == {} ==> s.subs[a].slots.total <= 1
  }

  ghost predicate SoundShelf(s: Shelf) {
    Arranged(s) && FullOnes(s) && Shapes(s) && Separated(s) && NoneIdle(s)
  }

  ghost predicate Holds(s: Shelf, ptr: int, a: nat, i: nat) {
    && a in s.subs && 0 < s.objectSize && i in ReapSlots.Live(s.subs[a].slots)
    && ptr == Address(LayoutOf(a, s.subs[a].order, s.objectSize).base, s.objectSize, i)
  }

  ghost predicate IsObject(s: Shelf, ptr: int) {
    exists a, i :: Holds(s, ptr, a, i)
  }

  ghost function LiveObjects(s: Shelf): iset<int> {
    iset ptr: int | IsObject(s, ptr)
  }

  // ---- from an object to its subheap

  /** `getSubHeap`: the address under the mask of the type, which rounds down; see `MaskIsSubheapOf`. */
  function SubheapOf(ptr: int, order: nat): int
    requires 0 < ClusterSize(order)
  {
    ptr / ClusterSize(order) * ClusterSize(order)
  }

  /** On machine words: `ptr & (PAGE_MASK << (type - 1))`. */
  lemma MaskIsSubheapOf(p: word, order: nat)
    requires 1 <= order <= MAX_PAGE_ORDER
    ensures 0 < ClusterSize(order) && Value(Masked(p, TypeMask(order))) == SubheapOf(Value(p), order)
  {
    TypeMaskIs(order);
    MaskRoundsDown(p, 11 + order);
    assert Power2(4) == 16;
    assert Power2(8) == 256;
    assert Power2(12) == PAGE_SIZE;
    PowerSum(12, order - 1);
    hide Value, Masked, TypeMask, HighBits;
  }

  lemma {:induction false} PowerSum(m: nat, n: nat)
    ensures Power2(m + n) == Power2(m) * Power2(n)
  {
    if n > 0 {
      PowerSum(m, n - 1);
    }
  }

  lemma OrderSize(order: nat)
    requires 1 <= order <= MAX_PAGE_ORDER
    ensures PAGE_SIZE <= ClusterSize(order) <= 0x1_0000 && ClusterSize(order) % PAGE_SIZE == 0
  {
    RegionShape(order);
  }

  /** Rounding down inside an aligned region gives its start. */
  lemma RoundDown(a: nat, x: int, size: nat)
    requires 0 < size && a % size == 0 && a <= x < a + size
    ensures x / size * size == a
  {
    var k := a / size;
    assert a == size * k;
    DivUnique(x, size, k, x - a);
  }

  lemma RegionAligned(a: nat, order: nat)
    requires ReapRegion(a, order)
    ensures a % 8 == 0 && PAGE_SIZE <= ClusterSize(order)
  {
    hide ClusterSize;
  }

  lemma LayoutInRegion(a: nat, order: nat, objectSize: nat)
    requires ReapRegion(a, order) && 0 < objectSize
    ensures var l := LayoutOf(a, order, objectSize);
      LaidOut(l, a, ClusterSize(order), objectSize) && a + BITMAP_CACHING_REAP <= l.mapEnd
  {
    RegionAligned(a, order);
    hide ReapRegion, ClusterSize, Objects, AlignUp, LaidOut, Words, BitmapLayout;
    BitmapLayoutFits(a, ClusterSize(order), BITMAP_CACHING_REAP, objectSize);
  }

  /** A subheap has as many slots as its region holds behind the reap and its bitmap. */
  lemma SlotsFill(s: Shelf, a: nat) returns (words: nat, base: int)
    requires SoundShelf(s) && a in s.subs
    ensures var sub, size := s.subs[a], s.objectSize;
      && LeastWords(words, ClusterSize(sub.order) - BITMAP_CACHING_REAP, size)
      && Most(sub.slots.total, a + ClusterSize(sub.order) - base, size)
      && a + BITMAP_CACHING_REAP + 4 * words <= base < a + BITMAP_CACHING_REAP + 4 * words + 8 && base % 8 == 0
  {
    assert SubShape(a, s.subs[a], s.objectSize);
    var order, size := s.subs[a].order, s.objectSize;
    OrderSize(order);
    hide SoundShelf, SubShape, ReapRegion, Most, LeastWords, ClusterSize, BitmapLayout;
    BitmapLayoutTight(a, ClusterSize(order), BITMAP_CACHING_REAP, size);
    words, base := Words(ClusterSize(order), BITMAP_CACHING_REAP, size), LayoutOf(a, order, size).base;
  }

  lemma SlotInside(a: nat, l: Layout, region: nat, size: nat, i: nat)
    requires LaidOut(l, a, region, size) && a + BITMAP_CACHING_REAP <= l.mapEnd && i < l.total && 0 < size
    ensures a + BITMAP_CACHING_REAP <= Address(l.base, size, i) && Address(l.base, size, i) + size <= a + region
    ensures (Address(l.base, size, i) - l.base) / size == i
  {
    EndAddress(l.base, size, l.total);
    AddressOrder(l.base, size, i, l.total);
    SlotOfAddress(l.base, size, i);
    BaseFirst(l.base, size, i);
  }

  /** An object lies in its subheap's region, behind the reap itself. */
  lemma ObjectInside(s: Shelf, ptr: int, a: nat, i: nat)
    requires SoundShelf(s) && Holds(s, ptr, a, i)
    ensures a + BITMAP_CACHING_REAP <= ptr && ptr + s.objectSize <= a + ClusterSize(s.subs[a].order)
    ensures SubShape(a, s.subs[a], s.objectSize)
    ensures var l := LayoutOf(a, s.subs[a].order, s.objectSize); (ptr - l.base) / s.objectSize == i
  {
    assert SubShape(a, s.subs[a], s.objectSize);
    hide SoundShelf, ReapRegion, ClusterSize, LayoutOf, LaidOut, Address;
    var size, order := s.objectSize, s.subs[a].order;
    LayoutInRegion(a, order, size);
    SlotInside(a, LayoutOf(a, order, size), ClusterSize(order), size, i);
  }

  lemma BaseFirst(base: int, size: nat, i: nat)
    ensures base <= Address(base, size, i)
  {
    assert 0 <= size * i;
  }

  lemma EndAddress(base: int, size: nat, n: nat)
    ensures Address(base, size, n) == base + size * n
  {}

  /** The mask finds the subheap that contains the object, for any object and any address inside it. */
  lemma MaskFindsOwner(s: Shelf, ptr: int, a: nat, i: nat, x: int)
    requires SoundShelf(s) && Holds(s, ptr, a, i) && ptr <= x < ptr + s.objectSize
    ensures 0 < ClusterSize(s.subs[a].order) && SubheapOf(x, s.subs[a].order) == a
  {
    ObjectInside(s, ptr, a, i);
    OrderSize(s.subs[a].order);
    hide SoundShelf, ClusterSize;
    RoundDown(a, x, ClusterSize(s.subs[a].order));
  }

  lemma OneOwner(s: Shelf, ptr: int, a: nat, i: nat, b: nat, j: nat)
    requires SoundShelf(s) && Holds(s, ptr, a, i) && Holds(s, ptr, b, j)
    ensures a == b && i == j
  {
    ObjectInside(s, ptr, a, i);
    ObjectInside(s, ptr, b, j);
    assert Separated(s);
    hide SoundShelf, ClusterSize, SubShape, LayoutOf;
  }

  lemma OneMore(small: Shelf, big: Shelf, ptr: int, a: nat, i: nat)
    requires SoundShelf(big) && Holds(big, ptr, a, i) && !Holds(small, ptr, a, i)
    requires forall x, b: nat, j: nat :: Holds(big, x, b, j) <==> Holds(small, x, b, j) || (x == ptr && b == a && j == i)
    ensures ptr !in LiveObjects(small) && LiveObjects(big) == LiveObjects(small) + iset{ptr}
  {
    hide Holds, SoundShelf;
    forall b: nat, j: nat | Holds(small, ptr, b, j)
      ensures false
    {
      assert Holds(big, ptr, b, j);
      OneOwner(big, ptr, a, i, b, j);
    }
    forall x: int
      ensures IsObject(big, x) <==> IsObject(small, x) || x == ptr
    {
      if IsObject(small, x) {
        var b: nat, j: nat :| Holds(small, x, b, j);
        assert Holds(big, x, b, j);
      }
    }
  }

  lemma SameObjects(s: Shelf, s': Shelf)
    requires forall x, b: nat, j: nat :: Holds(s', x, b, j) <==> Holds(s, x, b, j)
    ensures LiveObjects(s') == LiveObjects(s)
  {
    hide Holds;
    forall x: int
      ensures IsObject(s', x) <==> IsObject(s, x)
    {
      if IsObject(s, x) {
        var b: nat, j: nat :| Holds(s, x, b, j);
        assert Holds(s', x, b, j);
      }
    }
  }

  // ---- the steps

  /** A subheap without a free slot goes to the full list. */
  function Shelved(s: Shelf, a: nat): Shelf {
    s.(full := Moved(s.full, a, true), avai := Moved(s.avai, a, false))
  }

  /** The slot a reap hands out: a fresh one, else the one it recycles. */
  function SlotOf(slots: Slots, recycled: nat): nat {
    if slots.bumped < slots.total then slots.bumped else recycled
  }

  function TakenFrom(s: Shelf, a: nat, recycled: nat): Shelf
    requires a in s.subs
  {
    s.(subs := s.subs[a := s.subs[a].(slots := Taken(s.subs[a].slots, recycled))])
  }

  /** `createSubHeap` with the first allocation. Subheaps grow to double the size, up to a bound. */
  function WithNew(s: Shelf, a: nat, total: nat): Shelf {
    var slots := Slots(total, 0, {});
    s.(avai := Moved(s.avai, a, true), full := Moved(s.full, a, false),
       subs := s.subs[a := Sub(s.nextOrder, if HasFree(slots) then Taken(slots, 0) else slots)],
       nextOrder := if s.nextOrder < MAX_PAGE_ORDER then s.nextOrder + 1 else s.nextOrder)
  }

  /** `free`: an object comes back, which may make its subheap available, or superfluous. */
  function Returned(s: Shelf, a: nat, i: nat): Shelf
    requires a in s.subs
  {
    var slots := Given(s.subs[a].slots, i);
    if NumFree(slots) == 1 then
      s.(subs := s.subs[a := s.subs[a].(slots := slots)], avai := Moved(s.avai, a, true), full := Moved(s.full, a, false))
    else if NumFree(slots) == slots.total then
      s.(subs := s.subs - {a}, avai := Moved(s.avai, a, false), full := Moved(s.full, a, false),
         nextOrder := if s.nextOrder > 1 then s.nextOrder - 1 else s.nextOrder)
    else s.(subs := s.subs[a := s.subs[a].(slots := slots)])
  }

  lemma MovedArranged(s: Shelf, s': Shelf, a: nat, avai: bool, full: bool)
    requires Arranged(s) && s'.avai == Moved(s.avai, a, avai) && s'.full == Moved(s.full, a, full)
    requires !(avai && full) && (a in s'.subs <==> avai || full)
    requires forall b: nat :: b != a ==> (b in s'.subs <==> b in s.subs)
    ensures Arranged(s')
    ensures forall b: nat :: b in s'.full <==> if b == a then full else b in s.full
  {
    MovedMembers(s.avai, a, avai);
    MovedMembers(s.full, a, full);
    hide Moved;
  }

  lemma ShelvedSound(s: Shelf, a: nat)
    requires SoundShelf(s) && a in s.subs && !HasFree(s.subs[a].slots)
    ensures SoundShelf(Shelved(s, a)) && LiveObjects(Shelved(s, a)) == LiveObjects(s)
  {
    var s' := Shelved(s, a);
    hide SubShape, Disjoint, ReapSlots.Live, LayoutOf, Address;
    MovedArranged(s, s', a, false, true);
    SameObjects(s, s');
  }

  /** A change of the slots of one subheap. */
  lemma SlotsChanged(s: Shelf, s': Shelf, a: nat, slots: Slots)
    requires Shapes(s) && Separated(s) && NoneIdle(s) && a in s.subs
    requires s'.subs == s.subs[a := s.subs[a].(slots := slots)] && s'.objectSize == s.objectSize && s'.nextOrder == s.nextOrder
    requires Proper(slots) && slots.total == s.subs[a].slots.total
    requires ReapSlots.Live(slots) == {} ==> slots.total <= 1
    ensures Shapes(s') && Separated(s') && NoneIdle(s')
  {
    hide Disjoint, ReapSlots.Live;
    assert SubShape(a, s.subs[a], s.objectSize);
    hide ReapRegion, LayoutOf;
    assert SubShape(a, s'.subs[a], s.objectSize);
    hide SubShape;
  }

  lemma TakenSound(s: Shelf, a: nat, recycled: nat)
    requires SoundShelf(s) && a in s.avai && a in s.subs && HasFree(s.subs[a].slots)
    requires s.subs[a].slots.bumped == s.subs[a].slots.total ==> recycled in s.subs[a].slots.freed
    ensures SoundShelf(TakenFrom(s, a, recycled)) && 0 < s.objectSize
    ensures var ptr := Address(LayoutOf(a, s.subs[a].order, s.objectSize).base, s.objectSize, SlotOf(s.subs[a].slots, recycled));
      ptr !in LiveObjects(s) && LiveObjects(TakenFrom(s, a, recycled)) == LiveObjects(s) + iset{ptr}
  {
    var s' := TakenFrom(s, a, recycled);
    var was := s.subs[a].slots;
    var i := SlotOf(was, recycled);
    assert SubShape(a, s.subs[a], s.objectSize);
    TakenSlot(was, recycled);
    assert i in ReapSlots.Live(Taken(was, recycled));
    SlotsChanged(s, s', a, Taken(was, recycled));
    assert FullOnes(s');
    assert Arranged(s');
    hide SubShape, Arranged, FullOnes, Shapes, Separated, NoneIdle, ReapSlots.Live, LayoutOf, Address, Taken;
    OneMore(s, s', Address(LayoutOf(a, s.subs[a].order, s.objectSize).base, s.objectSize, i), a, i);
  }

  /** A region for the next subheap, apart from the others. */
  ghost predicate FreshReap(s: Shelf, a: nat) {
    && ReapRegion(a, s.nextOrder)
    && forall b :: b in s.subs ==> Disjoint(a, ClusterSize(s.nextOrder), b, ClusterSize(s.subs[b].order))
  }

  lemma FreshIsNew(s: Shelf, a: nat)
    requires Shapes(s) && FreshReap(s, a)
    ensures a !in s.subs
  {
    OrderSize(s.nextOrder);
    forall b | b in s.subs
      ensures b != a
    {
      SubSize(s, b);
    }
  }

  lemma SubSize(s: Shelf, b: nat)
    requires Shapes(s) && b in s.subs
    ensures PAGE_SIZE <= ClusterSize(s.subs[b].order)
  {
    assert SubShape(b, s.subs[b], s.objectSize);
    OrderSize(s.subs[b].order);
  }

  lemma NewShapes(s: Shelf, s': Shelf, a: nat, sub: Sub)
    requires Shapes(s) && Separated(s) && NoneIdle(s) && FreshReap(s, a) && a !in s.subs && sub.order == s.nextOrder
    requires SubShape(a, sub, s.objectSize) && s'.subs == s.subs[a := sub] && s'.objectSize == s.objectSize
    requires 1 <= s'.nextOrder <= MAX_PAGE_ORDER
    requires ReapSlots.Live(sub.slots) == {} ==> sub.slots.total <= 1
    ensures Shapes(s') && Separated(s') && NoneIdle(s')
  {
    hide SubShape, ReapRegion, ReapSlots.Live, ClusterSize;
  }

  lemma NewSound(s: Shelf, a: nat, total: nat)
    requires SoundShelf(s) && 0 < s.objectSize && FreshReap(s, a)
    requires total == LayoutOf(a, s.nextOrder, s.objectSize).total
    ensures a !in s.subs
    ensures var s' := WithNew(s, a, total);
      var ptr := Address(LayoutOf(a, s.nextOrder, s.objectSize).base, s.objectSize, 0);
      && SoundShelf(s') && ptr !in LiveObjects(s)
      && LiveObjects(s') == if total == 0 then LiveObjects(s) else LiveObjects(s) + iset{ptr}
  {
    hide LayoutOf, Address, ReapRegion;
    var s' := WithNew(s, a, total);
    var sub := s'.subs[a];
    FreshIsNew(s, a);
    assert ReapSlots.Live(sub.slots) == if total == 0 then {} else {0};
    assert SubShape(a, sub, s.objectSize) by {
      assert FreshReap(s, a);
    }
    NewShapes(s, s', a, sub);
    assert a !in s.full;
    MovedArranged(s, s', a, true, false);
    hide SubShape, Arranged, Shapes, Separated, NoneIdle, FreshReap;
    assert FullOnes(s');
    NewObjects(s, s', a, sub, total);
  }

  /** The new subheap is of the next order, and the one after it of twice its size, up to a bound. */
  lemma NewPlaced(s: Shelf, a: nat, total: nat)
    requires Arranged(s) && a !in s.subs
    ensures var s' := WithNew(s, a, total);
      && s'.subs == s.subs[a := s'.subs[a]] && s'.subs[a].order == s.nextOrder
      && s'.subs[a].slots == Slots(total, if total == 0 then 0 else 1, {})
      && s'.avai == [a] + s.avai && s'.full == s.full && s'.objectSize == s.objectSize
      && s'.nextOrder == if s.nextOrder < MAX_PAGE_ORDER then s.nextOrder + 1 else s.nextOrder
  {
    assert a !in s.avai && a !in s.full;
    WithoutAbsent(s.avai, a);
    WithoutAbsent(s.full, a);
    assert [] + s.full == s.full;
  }

  lemma NewObjects(s: Shelf, s': Shelf, a: nat, sub: Sub, total: nat)
    requires SoundShelf(s) && SoundShelf(s') && 0 < s.objectSize && FreshReap(s, a) && a !in s.subs
    requires s'.subs == s.subs[a := sub] && s'.objectSize == s.objectSize && sub.order == s.nextOrder
    requires ReapSlots.Live(sub.slots) == if total == 0 then {} else {0}
    ensures var ptr := Address(LayoutOf(a, s.nextOrder, s.objectSize).base, s.objectSize, 0);
      && ptr !in LiveObjects(s)
      && LiveObjects(s') == if total == 0 then LiveObjects(s) else LiveObjects(s) + iset{ptr}
  {
    var ptr := Address(LayoutOf(a, s.nextOrder, s.objectSize).base, s.objectSize, 0);
    FirstNotLive(s, a, ptr);
    hide SoundShelf, LayoutOf, Address, ReapSlots.Live;
    if total == 0 {
      SameObjects(s, s');
    } else {
      OneMore(s, s', ptr, a, 0);
    }
  }

  /** The base of a fresh region lies outside every subheap. */
  lemma FirstNotLive(s: Shelf, a: nat, ptr: int)
    requires SoundShelf(s) && 0 < s.objectSize && FreshReap(s, a)
    requires ptr == Address(LayoutOf(a, s.nextOrder, s.objectSize).base, s.objectSize, 0)
    ensures ptr !in LiveObjects(s)
  {
    LayoutInRegion(a, s.nextOrder, s.objectSize);
    assert a <= ptr <= a + ClusterSize(s.nextOrder) by {
      BaseInRegion(LayoutOf(a, s.nextOrder, s.objectSize), a, ClusterSize(s.nextOrder), s.objectSize);
    }
    if ptr in LiveObjects(s) {
      var b, i :| Holds(s, ptr, b, i);
      ObjectInside(s, ptr, b, i);
    }
  }

  lemma BaseInRegion(l: Layout, a: nat, region: nat, size: nat)
    requires LaidOut(l, a, region, size) && a <= l.mapEnd
    ensures a <= Address(l.base, size, 0) <= a + region
  {
    FirstAddress(l.base, size);
    assert 0 <= size * l.total;
  }

  lemma SoleObject(slots: Slots, i: nat)
    requires Proper(slots) && i in ReapSlots.Live(slots)
    ensures var t := Given(slots, i);
      && Proper(t) && 1 <= NumFree(t) <= t.total && i < t.total && ReapSlots.Live(t) == ReapSlots.Live(slots) - {i}
      && (NumFree(t) == t.total <==> ReapSlots.Live(slots) == {i})
      && (NumFree(t) != 1 ==> HasFree(slots))
  {
    var t := Given(slots, i);
    GivenSlot(slots, i);
    FreeCount(slots);
    FreeCount(t);
    assert ReapSlots.Live(t) == {} ==> ReapSlots.Live(slots) == {i} by {
      assert ReapSlots.Live(slots) == ReapSlots.Live(t) + {i};
    }
  }

  /** A subheap that lost its last object goes away, unless it has but one slot. */
  lemma RemovalCondition(s: Shelf, a: nat, i: nat)
    requires SoundShelf(s) && a in s.subs && i in ReapSlots.Live(s.subs[a].slots)
    ensures a !in Returned(s, a, i).subs <==> ReapSlots.Live(s.subs[a].slots) == {i} && s.subs[a].slots.total >= 2
  {
    assert SubShape(a, s.subs[a], s.objectSize);
    SoleObject(s.subs[a].slots, i);
    hide SoundShelf, SubShape, Proper, Given, ReapSlots.Live, NumFree, Moved;
  }

  /** With the object sizes of the deployed allocator no idle subheap is ever kept. */
  lemma DeployedNoneIdle(s: Shelf, a: nat)
    requires SoundShelf(s) && a in s.subs && 8 <= s.objectSize <= MAX_DEDICATED_SIZE
    ensures ReapSlots.Live(s.subs[a].slots) != {} && s.subs[a].slots.total >= 3
  {
    assert SubShape(a, s.subs[a], s.objectSize);
    OrderSize(s.subs[a].order);
    SeveralSlots(a, ClusterSize(s.subs[a].order), s.objectSize);
  }

  /** A page holds one object of 3000 bytes: after its free the subheap stays although it is empty. */
  lemma SingleSlotStays()
    ensures var s := Shelf([PAGE_SIZE], [], map[PAGE_SIZE := Sub(1, Slots(1, 1, {}))], 3000, 2);
      && SoundShelf(s) && 0 in ReapSlots.Live(s.subs[PAGE_SIZE].slots)
      && PAGE_SIZE in Returned(s, PAGE_SIZE, 0).subs
      && ReapSlots.Live(Returned(s, PAGE_SIZE, 0).subs[PAGE_SIZE].slots) == {}
  {
    var s := Shelf([PAGE_SIZE], [], map[PAGE_SIZE := Sub(1, Slots(1, 1, {}))], 3000, 2);
    assert Power2(0) == 1;
    assert ClusterSize(1) == PAGE_SIZE;
    assert Words(PAGE_SIZE, BITMAP_CACHING_REAP, 3000) == 1;
    assert LayoutOf(PAGE_SIZE, 1, 3000).total == 1;
    assert SubShape(PAGE_SIZE, s.subs[PAGE_SIZE], 3000);
    assert s.full == [PAGE_SIZE];
    assert 0 in ReapSlots.Live(s.subs[PAGE_SIZE].slots);
  }

  lemma RemovedSound(s: Shelf, s': Shelf, a: nat)
    requires SoundShelf(s) && a in s.subs && s'.subs == s.subs - {a} && s'.objectSize == s.objectSize
    requires s'.avai == Moved(s.avai, a, false) && s'.full == Moved(s.full, a, false)
    requires 1 <= s'.nextOrder <= MAX_PAGE_ORDER
    ensures SoundShelf(s')
  {
    hide SubShape, ReapSlots.Live, Disjoint;
    MovedArranged(s, s', a, false, false);
    hide Arranged, Moved;
  }

  lemma ReturnedSlotsSound(s: Shelf, s': Shelf, a: nat, i: nat)
    requires SoundShelf(s) && a in s.subs && i in ReapSlots.Live(s.subs[a].slots) && a in Returned(s, a, i).subs
    requires s' == Returned(s, a, i)
    ensures SoundShelf(s')
  {
    var slots := Given(s.subs[a].slots, i);
    assert SubShape(a, s.subs[a], s.objectSize);
    SoleObject(s.subs[a].slots, i);
    assert ReapSlots.Live(slots) == {} ==> slots.total <= 1 by {
      RemovalCondition(s, a, i);
    }
    hide SubShape, Shapes, Separated, NoneIdle, ReapSlots.Live, Proper;
    SlotsChanged(s, s', a, slots);
    if NumFree(slots) == 1 {
      MovedArranged(s, s', a, true, false);
    } else {
      assert a !in s.full;
    }
  }

  lemma ReturnedHolds(s: Shelf, a: nat, i: nat, ptr: int, x: int, b: nat, j: nat)
    requires SoundShelf(s) && Holds(s, ptr, a, i)
    ensures Holds(s, x, b, j) <==> Holds(Returned(s, a, i), x, b, j) || (x == ptr && b == a && j == i)
  {
    assert SubShape(a, s.subs[a], s.objectSize);
    SoleObject(s.subs[a].slots, i);
    hide SoundShelf, SubShape, LayoutOf, Address, Proper, Moved, NumFree, ReapSlots.Live;
  }

  lemma HeldHere(s: Shelf, ptr: int, a: nat, i: nat)
    requires Holds(s, ptr, a, i)
    ensures a in s.subs && i in ReapSlots.Live(s.subs[a].slots)
  {}

  lemma ReturnedKeeps(s: Shelf, a: nat, i: nat)
    requires SoundShelf(s) && a in s.subs && i in ReapSlots.Live(s.subs[a].slots)
    ensures SoundShelf(Returned(s, a, i))
  {
    var s' := Returned(s, a, i);
    hide SoundShelf, ReapSlots.Live;
    if a in s'.subs {
      ReturnedSlotsSound(s, s', a, i);
    } else {
      ReturnedNextOrder(s, a, i);
      RemovedSound(s, s', a);
    }
  }

  /** Freeing an object takes just this object out of the live ones, and the bookkeeping stays sound. */
  lemma ReturnedSound(s: Shelf, a: nat, i: nat, ptr: int)
    requires SoundShelf(s) && Holds(s, ptr, a, i)
    ensures SoundShelf(Returned(s, a, i)) && LiveObjects(Returned(s, a, i)) == LiveObjects(s) - iset{ptr}
  {
    hide SoundShelf, Holds, Returned;
    HeldHere(s, ptr, a, i);
    var s' := Returned(s, a, i);
    ReturnedKeeps(s, a, i);
    forall x, b: nat, j: nat
      ensures Holds(s, x, b, j) <==> Holds(s', x, b, j) || (x == ptr && b == a && j == i)
    {
      ReturnedHolds(s, a, i, ptr, x, b, j);
    }
    assert !Holds(s', ptr, a, i) by {
      NoLongerHeld(s, a, i, ptr);
    }
    OneMore(s', s, ptr, a, i);
  }

  lemma NoLongerHeld(s: Shelf, a: nat, i: nat, ptr: int)
    requires SoundShelf(s) && Holds(s, ptr, a, i)
    ensures !Holds(Returned(s, a, i), ptr, a, i)
  {
    hide SoundShelf, LayoutOf, Address, Moved, NumFree;
  }

  /** A free leaves the places of the subheaps, and removes no other one. */
  lemma ReturnedSubs(s: Shelf, a: nat, i: nat)
    requires a in s.subs
    ensures var s' := Returned(s, a, i);
      && s'.objectSize == s.objectSize && s.subs.Keys - {a} <= s'.subs.Keys <= s.subs.Keys
      && forall b :: b in s'.subs ==> s'.subs[b].order == s.subs[b].order
  {}

  lemma ReturnedNextOrder(s: Shelf, a: nat, i: nat)
    requires SoundShelf(s) && a in s.subs
    ensures 1 <= Returned(s, a, i).nextOrder <= MAX_PAGE_ORDER && Returned(s, a, i).objectSize == s.objectSize
  {}
}

/** onesizeheap.h: the heap over its bookkeeping. */
module OneSizeHeaps {
  import opened IntrusiveLists
  import opened Sequences
  import opened ReapSlots
  import opened ReapBases
  import opened ReapLayouts
  import opened Partitions
  import opened Shelves

  /** No subheap has a free slot. */
  ghost predicate NoneLeft(s: Shelf) {
    forall a :: a in s.subs ==> !HasFree(s.subs[a].slots)
  }

  /** `recycled` tells which slot each reap would reuse; any of its freed ones. */
  ghost predicate Recycles(s: Shelf, recycled: nat -> nat) {
    forall a :: a in s.subs && s.subs[a].slots.bumped == s.subs[a].slots.total && s.subs[a].slots.freed != {}
      ==> recycled(a) in s.subs[a].slots.freed
  }

  /** The search of `malloc`: subheaps at the head of the available list that have no free slot go to the full list. */
  ghost function Searched(s: Shelf): Shelf
    requires SoundShelf(s)
    decreases |s.avai|
  {
    if s.avai == [] then s
    else
      HeadKnown(s);
      if HasFree(s.subs[s.avai[0]].slots) then s
      else
        ShelvedSound(s, s.avai[0]);
        Searched(Shelved(s, s.avai[0]))
  }

  lemma HeadKnown(s: Shelf)
    requires SoundShelf(s) && s.avai != []
    ensures s.avai[0] in s.avai && s.avai[0] in s.subs && |Shelved(s, s.avai[0]).avai| < |s.avai|
  {
    assert s.avai[0] in s.avai;
    WithoutHead(s.avai);
  }

  /** The search changes no subheap, and it ends at one with a free slot exactly when there is one. */
  lemma {:induction false} SearchedFinds(s: Shelf)
    requires SoundShelf(s)
    ensures var f := Searched(s);
      && SoundShelf(f) && LiveObjects(f) == LiveObjects(s)
      && f.subs == s.subs && f.objectSize == s.objectSize && f.nextOrder == s.nextOrder
      && (f.avai == [] <==> NoneLeft(s))
      && (f.avai != [] ==> f.avai[0] in f.avai && f.avai[0] in f.subs && HasFree(f.subs[f.avai[0]].slots))
    decreases |s.avai|
  {
    if s.avai == [] {
      AllFull(s);
    } else {
      HeadKnown(s);
      if !HasFree(s.subs[s.avai[0]].slots) {
        ShelvedSound(s, s.avai[0]);
        hide SoundShelf, LiveObjects;
        SearchedFinds(Shelved(s, s.avai[0]));
      }
    }
  }

  /** The first subheap of the available list that has a free slot. */
  ghost predicate FirstAvailable(s: Shelf, k: nat) {
    && k < |s.avai| && s.avai[k] in s.subs && HasFree(s.subs[s.avai[k]].slots)
    && forall j :: 0 <= j < k ==> s.avai[j] in s.subs && !HasFree(s.subs[s.avai[j]].slots)
  }

  /** The search drops from the available list what comes before the first subheap with a free slot, and no more. */
  lemma {:induction false} SearchedOrder(s: Shelf) returns (k: nat)
    requires SoundShelf(s)
    ensures k <= |s.avai| && Searched(s).avai == s.avai[k..]
    ensures if Searched(s).avai != [] then FirstAvailable(s, k) else k == |s.avai|
    decreases |s.avai|
  {
    if s.avai == [] {
      k := 0;
    } else {
      HeadKnown(s);
      if HasFree(s.subs[s.avai[0]].slots) {
        k := 0;
      } else {
        ShelvedSound(s, s.avai[0]);
        WithoutHeadOf(s);
        SameSubs(s, s.avai[0]);
        hide SoundShelf, Shelved, FirstAvailable;
        var s' := Shelved(s, s.avai[0]);
        var rest := SearchedOrder(s');
        k := rest + 1;
        assert s'.avai[rest..] == s.avai[k..];
        if rest < |s'.avai| {
          LaterAvailable(s, s', rest);
        }
      }
    }
  }

  lemma LaterAvailable(s: Shelf, s': Shelf, k: nat)
    requires s.avai != [] && s'.avai == s.avai[1..] && s'.subs == s.subs && FirstAvailable(s', k)
    requires s.avai[0] in s.subs && !HasFree(s.subs[s.avai[0]].slots)
    ensures FirstAvailable(s, k + 1)
  {
    forall j | 0 <= j < k + 1
      ensures s.avai[j] in s.subs && !HasFree(s.subs[s.avai[j]].slots)
    {
      if j > 0 {
        assert s.avai[j] == s'.avai[j - 1];
      }
    }
  }

  lemma WithoutHeadOf(s: Shelf)
    requires SoundShelf(s) && s.avai != []
    ensures Shelved(s, s.avai[0]).avai == s.avai[1..]
  {
    WithoutHead(s.avai);
    assert [] + s.avai[1..] == s.avai[1..];
  }

  lemma AllFull(s: Shelf)
    requires SoundShelf(s) && s.avai == []
    ensures NoneLeft(s)
  {
    hide Shapes, Separated, NoneIdle;
  }

  ghost predicate CanMalloc(s: Shelf, size: nat, recycled: nat -> nat, space: nat) {
    && 0 < size < PAGE_SIZE && (s.objectSize == 0 || s.objectSize == size)
    && Recycles(s, recycled) && (NoneLeft(s) && space != NULL ==> FreshReap(s, space))
  }

  lemma FirstSize(s: Shelf, size: nat)
    requires SoundShelf(s) && (s.objectSize == 0 || s.objectSize == size)
    ensures SoundShelf(s.(objectSize := size)) && LiveObjects(s.(objectSize := size)) == LiveObjects(s)
  {
    if s.objectSize == 0 {
      NoSubs(s);
      SameObjects(s, s.(objectSize := size));
    } else {
      assert s.(objectSize := size) == s;
    }
  }

  lemma NoSubs(s: Shelf)
    requires Shapes(s)
    ensures forall a :: a in s.subs ==> 0 < s.objectSize
  {
    forall a | a in s.subs
      ensures 0 < s.objectSize
    {
      assert SubShape(a, s.subs[a], s.objectSize);
    }
  }

  /** The state after `malloc` and the pointer it returns. */
  ghost function Served(s: Shelf, size: nat, recycled: nat -> nat, space: nat): (Shelf, int)
    requires SoundShelf(s) && CanMalloc(s, size, recycled, space)
  {
    FirstSize(s, size);
    var t := s.(objectSize := size);
    SearchedFinds(t);
    var f := Searched(t);
    if f.avai != [] then
      var a := f.avai[0];
      (TakenFrom(f, a, recycled(a)),
       Address(LayoutOf(a, f.subs[a].order, size).base, size, SlotOf(f.subs[a].slots, recycled(a))))
    else if space == NULL then (f, NULL)
    else
      var l := LayoutOf(space, f.nextOrder, size);
      LayoutInRegion(space, f.nextOrder, size);
      (WithNew(f, space, l.total), if l.total == 0 then NULL else Address(l.base, size, 0))
  }

  lemma ServedSound(s: Shelf, size: nat, recycled: nat -> nat, space: nat)
    requires SoundShelf(s) && CanMalloc(s, size, recycled, space)
    ensures var (s', ptr) := Served(s, size, recycled, space);
      && SoundShelf(s')
      && (ptr == NULL <==> NoneLeft(s) && (space == NULL || LayoutOf(space, s.nextOrder, size).total == 0))
      && (ptr == NULL ==> LiveObjects(s') == LiveObjects(s))
      && (ptr != NULL ==> ptr !in LiveObjects(s) && LiveObjects(s') == LiveObjects(s) + iset{ptr})
      && s'.subs.Keys == if NoneLeft(s) && space != NULL then s.subs.Keys + {space} else s.subs.Keys
  {
    FirstSize(s, size);
    var t := s.(objectSize := size);
    SearchedFinds(t);
    var f := Searched(t);
    hide SoundShelf, LiveObjects, LayoutOf, FreshReap, Address, TakenFrom, WithNew, SlotOf;
    if f.avai != [] {
      OldServed(f, f.avai[0], recycled(f.avai[0]));
    } else if space != NULL {
      FreshSame(s, f, space);
      NewServed(f, space, size);
    }
  }

  lemma OldServed(f: Shelf, a: nat, recycled: nat)
    requires SoundShelf(f) && a in f.avai && a in f.subs && HasFree(f.subs[a].slots)
    requires f.subs[a].slots.bumped == f.subs[a].slots.total ==> recycled in f.subs[a].slots.freed
    ensures SoundShelf(TakenFrom(f, a, recycled)) && TakenFrom(f, a, recycled).subs.Keys == f.subs.Keys && 0 < f.objectSize
    ensures var ptr := Address(LayoutOf(a, f.subs[a].order, f.objectSize).base, f.objectSize, SlotOf(f.subs[a].slots, recycled));
      ptr != NULL && ptr !in LiveObjects(f) && LiveObjects(TakenFrom(f, a, recycled)) == LiveObjects(f) + iset{ptr}
  {
    hide SoundShelf, LiveObjects, LayoutOf, Address;
    TakenSound(f, a, recycled);
    LiveIsPositive(TakenFrom(f, a, recycled));
  }

  lemma NewServed(f: Shelf, space: nat, size: nat)
    requires SoundShelf(f) && 0 < size == f.objectSize && FreshReap(f, space)
    ensures var l := LayoutOf(space, f.nextOrder, size);
      var ptr := Address(l.base, size, 0);
      && 0 <= l.total && SoundShelf(WithNew(f, space, l.total))
      && WithNew(f, space, l.total).subs.Keys == f.subs.Keys + {space}
      && LiveObjects(WithNew(f, space, l.total)) == (if l.total == 0 then LiveObjects(f) else LiveObjects(f) + iset{ptr})
      && (l.total != 0 ==> ptr != NULL) && ptr !in LiveObjects(f)
  {
    hide SoundShelf, LiveObjects, LayoutOf, Address;
    LayoutInRegion(space, f.nextOrder, size);
    NewSound(f, space, LayoutOf(space, f.nextOrder, size).total);
    LiveIsPositive(WithNew(f, space, LayoutOf(space, f.nextOrder, size).total));
  }

  /** The subheap at place `k` of the available list serves a request; those before it leave the list. */
  ghost predicate ServedAt(s: Shelf, s': Shelf, k: nat)
    requires k < |s.avai|
  {
    s'.avai == s.avai[k..] && s.avai[k] in s'.subs && s'.subs == s.subs[s.avai[k] := s'.subs[s.avai[k]]]
  }

  /** A request is served by the first available subheap; a new subheap is the only one left available. */
  ghost predicate ServedInOrder(s: Shelf, s': Shelf, space: nat) {
    if !NoneLeft(s) then
      && s'.nextOrder == s.nextOrder
      && exists k: nat :: FirstAvailable(s, k) && ServedAt(s, s', k)
    else if space == NULL then s'.subs == s.subs && s'.avai == [] && s'.nextOrder == s.nextOrder
    else
      && space !in s.subs && space in s'.subs && s'.subs == s.subs[space := s'.subs[space]] && s'.avai == [space]
      && s'.subs[space].order == s.nextOrder && s'.subs[space].slots.freed == {}
      && s'.nextOrder == if s.nextOrder < MAX_PAGE_ORDER then s.nextOrder + 1 else s.nextOrder
  }

  lemma ServedOrder(s: Shelf, size: nat, recycled: nat -> nat, space: nat)
    requires SoundShelf(s) && CanMalloc(s, size, recycled, space)
    ensures ServedInOrder(s, Served(s, size, recycled, space).0, space)
  {
    hide SoundShelf, LayoutOf, FreshReap, Address, LiveObjects, WithNew, SlotOf, Recycles, HasFree, Taken;
    FirstSize(s, size);
    var t := s.(objectSize := size);
    SearchedFinds(t);
    var f := Searched(t);
    var k := SearchedOrder(t);
    if f.avai == [] && space != NULL {
      FreshSame(s, f, space);
      FreshNotThere(f, space);
      LayoutInRegion(space, f.nextOrder, size);
      NewPlaced(f, space, LayoutOf(space, f.nextOrder, size).total);
    }
    assert FirstAvailable(t, k) ==> FirstAvailable(s, k);
  }

  lemma FreshSame(s: Shelf, f: Shelf, space: nat)
    requires FreshReap(s, space) && f.subs == s.subs && f.nextOrder == s.nextOrder
    ensures FreshReap(f, space) && ReapRegion(space, f.nextOrder)
  {}

  lemma LiveIsPositive(s: Shelf)
    requires SoundShelf(s)
    ensures NULL !in LiveObjects(s)
  {
    forall a: nat, i: nat | Holds(s, NULL, a, i)
      ensures false
    {
      ObjectInside(s, NULL, a, i);
    }
  }

  /** Subheaps keep their places; `added` is the only new one. */
  ghost predicate PlacesKept(s: Shelf, s': Shelf, added: nat) {
    forall b :: b in s'.subs ==>
      if b in s.subs then s'.subs[b].order == s.subs[b].order else b == added && s'.subs[b].order == s.nextOrder
  }

  lemma TakenPlaces(f: Shelf, a: nat, recycled: nat)
    requires a in f.subs
    ensures PlacesKept(f, TakenFrom(f, a, recycled), NULL) && TakenFrom(f, a, recycled).objectSize == f.objectSize
  {}

  lemma NewPlaces(f: Shelf, space: nat, total: nat)
    requires space !in f.subs
    ensures PlacesKept(f, WithNew(f, space, total), space) && WithNew(f, space, total).objectSize == f.objectSize
  {}

  lemma SamePlaces(s: Shelf, f: Shelf, s': Shelf, added: nat)
    requires f.subs == s.subs && f.nextOrder == s.nextOrder && PlacesKept(f, s', added)
    ensures PlacesKept(s, s', added)
  {}

  /** A new subheap is at `space` and of the next order, and there is one only if no other has a free slot. */
  lemma ServedSubs(s: Shelf, size: nat, recycled: nat -> nat, space: nat)
    requires SoundShelf(s) && CanMalloc(s, size, recycled, space)
    ensures var s' := Served(s, size, recycled, space).0;
      s'.objectSize == size && PlacesKept(s, s', if NoneLeft(s) then space else NULL)
  {
    FirstSize(s, size);
    var t := s.(objectSize := size);
    SearchedFinds(t);
    var f := Searched(t);
    if f.avai == [] && space != NULL {
      FreshSame(s, f, space);
      FreshNotThere(f, space);
      LayoutInRegion(space, f.nextOrder, size);
    }
    hide SoundShelf, LayoutOf, FreshReap, Address, LiveObjects, TakenFrom, WithNew, PlacesKept, SlotOf;
    if f.avai != [] {
      TakenPlaces(f, f.avai[0], recycled(f.avai[0]));
    } else if space != NULL {
      NewPlaces(f, space, LayoutOf(space, f.nextOrder, size).total);
    } else {
      KeptPlaces(f);
    }
    SamePlaces(s, f, Served(s, size, recycled, space).0, if NoneLeft(s) then space else NULL);
  }

  lemma KeptPlaces(s: Shelf)
    ensures PlacesKept(s, s, NULL)
  {}

  /** Live objects stay where they are when another one is allocated. */
  lemma ServedKeeps(s: Shelf, size: nat, recycled: nat -> nat, space: nat, ptr: int, a: nat, i: nat)
    requires SoundShelf(s) && CanMalloc(s, size, recycled, space) && Holds(s, ptr, a, i)
    ensures Holds(Served(s, size, recycled, space).0, ptr, a, i)
  {
    FirstSize(s, size);
    var t := s.(objectSize := size);
    SearchedFinds(t);
    var f := Searched(t);
    if f.avai == [] && space != NULL {
      FreshSame(s, f, space);
      FreshNotThere(f, space);
    }
    hide SoundShelf, LayoutOf, FreshReap, Address, LiveObjects;
    assert Holds(f, ptr, a, i);
  }

  /** Asking for a cluster only after a first attempt without one failed gives the same result. */
  lemma ServedTwice(s: Shelf, size: nat, recycled: nat -> nat, space: nat)
    requires SoundShelf(s) && CanMalloc(s, size, recycled, space)
    ensures CanMalloc(s, size, recycled, NULL)
    ensures var (f, ptr) := Served(s, size, recycled, NULL);
      && (ptr == NULL <==> NoneLeft(s))
      && (ptr != NULL ==> Served(s, size, recycled, space) == (f, ptr))
      && (ptr == NULL ==>
           && SoundShelf(f) && f.nextOrder == s.nextOrder && CanMalloc(f, size, recycled, space)
           && Served(f, size, recycled, space) == Served(s, size, recycled, space))
  {
    ServedSound(s, size, recycled, NULL);
    FirstSize(s, size);
    var t := s.(objectSize := size);
    SearchedFinds(t);
    var f := Searched(t);
    if f.avai == [] {
      if space != NULL {
        FreshSame(s, f, space);
      }
      assert f.(objectSize := size) == f && Searched(f) == f;
    }
    hide SoundShelf, LayoutOf, FreshReap, Address, LiveObjects, TakenFrom, WithNew, SlotOf;
  }

  lemma FreshNotThere(s: Shelf, a: nat)
    requires SoundShelf(s) && FreshReap(s, a)
    ensures a !in s.subs && Arranged(s)
  {
    FreshIsNew(s, a);
  }

  class OneSizeHeap {
    var full: seq<nat>
    var avai: seq<nat>
    var subs: map<nat, Sub>
    var objectSize: nat
    var nextOrder: nat

    function State(): Shelf
      reads this
    {
      Shelf(full, avai, subs, objectSize, nextOrder)
    }

    ghost predicate Valid()
      reads this
    {
      SoundShelf(State())
    }

    constructor ()
      ensures Valid() && LiveObjects(State()) == iset{} && objectSize == 0 && subs == map[]
    {
      full, avai, subs, objectSize, nextOrder := [], [], map[], 0, 1;
    }

    method MoveToFull(a: nat)
      modifies this`full, this`avai
      ensures State() == Shelved(old(State()), a)
    {
      avai := Moved(avai, a, false);
      full := Moved(full, a, true);
    }

    method TakeSlot(a: nat, recycled: nat) returns (ptr: int)
      requires a in subs && 0 < objectSize
      modifies this`subs
      ensures State() == TakenFrom(old(State()), a, recycled)
      ensures ptr == Address(LayoutOf(a, old(subs)[a].order, objectSize).base, objectSize, SlotOf(old(subs)[a].slots, recycled))
    {
      var sub := subs[a];
      ptr := Address(LayoutOf(a, sub.order, objectSize).base, objectSize, SlotOf(sub.slots, recycled));
      subs := subs[a := sub.(slots := Taken(sub.slots, recycled))];
    }

    /** `space` is what the super heap gives for a new subheap, NULL if it has nothing. */
    method Malloc(size: nat, recycled: nat -> nat, space: nat) returns (ptr: int)
      requires Valid() && CanMalloc(State(), size, recycled, space)
      modifies this
      ensures Valid() && (State(), ptr) == Served(old(State()), size, recycled, space)
      ensures ServedInOrder(old(State()), State(), space)
      // subheaps grow only when one is created
      ensures nextOrder ==
        if NoneLeft(old(State())) && space != NULL && old(nextOrder) < MAX_PAGE_ORDER then old(nextOrder) + 1 else old(nextOrder)
      ensures NoneLeft(old(State())) && space != NULL ==> space in subs && subs[space].order == old(nextOrder)
    {
      hide ServedInOrder, CanMalloc, SoundShelf, Served;
      ghost var before := State();
      ServedOrder(before, size, recycled, space);
      InOrderMeans(before, Served(before, size, recycled, space).0, space);
      ptr := ServeRequest(size, recycled, space);
    }

    method ServeRequest(size: nat, recycled: nat -> nat, space: nat) returns (ptr: int)
      requires Valid() && CanMalloc(State(), size, recycled, space)
      modifies this
      ensures Valid() && (State(), ptr) == Served(old(State()), size, recycled, space)
    {
      ghost var before := State();
      ServedSound(before, size, recycled, space);
      FirstSize(before, size);
      SearchedFinds(before.(objectSize := size));
      hide SoundShelf, Shelved, TakenFrom, WithNew, LiveObjects, FreshReap, LayoutOf, Address, SlotOf;
      ptr := NULL;
      // the first allocation sets the object size
      if objectSize == 0 {
        objectSize := size;
      }
      while avai != []
        invariant Valid() && objectSize == size && subs == before.subs
        invariant Searched(State()) == Searched(before.(objectSize := size))
        decreases |avai|
      {
        HeadKnown(State());
        if HasFree(subs[avai[0]].slots) {
          ptr := TakeSlot(avai[0], recycled(avai[0]));
          return;
        }
        ShelvedSound(State(), avai[0]);
        SameSubs(State(), avai[0]);
        MoveToFull(avai[0]);
      }
      if space != NULL {
        ptr := CreateSubheap(before, space);
      }
    }

    /** `createSubHeap`, and the first object in the new subheap. */
    method CreateSubheap(ghost before: Shelf, space: nat) returns (ptr: int)
      requires Valid() && 0 < objectSize && FreshReap(before, space) && subs == before.subs && nextOrder == before.nextOrder
      modifies this`full, this`avai, this`subs, this`nextOrder
      ensures var l := LayoutOf(space, before.nextOrder, objectSize);
        && 0 <= l.total && State() == WithNew(old(State()), space, l.total)
        && ptr == if l.total == 0 then NULL else Address(l.base, objectSize, 0)
    {
      FreshSame(before, State(), space);
      LayoutInRegion(space, nextOrder, objectSize);
      hide SoundShelf, LayoutOf, Address, FreshReap;
      var l := LayoutOf(space, nextOrder, objectSize);
      var slots := Slots(l.total, 0, {});
      ptr := NULL;
      if HasFree(slots) {
        slots := Taken(slots, 0);
        ptr := Address(l.base, objectSize, 0);
      }
      subs := subs[space := Sub(nextOrder, slots)];
      avai := Moved(avai, space, true);
      full := Moved(full, space, false);
      if nextOrder < MAX_PAGE_ORDER {
        nextOrder := nextOrder + 1;
      }
    }

    /**
     * `free`; `order` is the type of the partition the object is in, and `released` the subheap that goes back to the
     * super heap, NULL if none does.
     */
    method Free(ptr: int, order: nat) returns (released: nat, ghost a: nat, ghost i: nat)
      requires Valid() && ptr in LiveObjects(State())
      requires forall b, j :: Holds(State(), ptr, b, j) ==> order == subs[b].order
      modifies this`full, this`avai, this`subs, this`nextOrder
      ensures Valid() && LiveObjects(State()) == LiveObjects(old(State())) - iset{ptr}
      ensures Holds(old(State()), ptr, a, i) && State() == Returned(old(State()), a, i)
      ensures released == if a in subs then NULL else a
      ensures ReturnedInOrder(old(State()), State(), a, i)
      ensures nextOrder == if released != NULL && old(nextOrder) > 1 then old(nextOrder) - 1 else old(nextOrder)
    {
      hide SoundShelf, Holds, LayoutOf, SubheapOf, Returned, ReturnedInOrder;
      a, i :| Holds(State(), ptr, a, i);
      FreeNeeds(State(), ptr, a, i);
      hide LiveObjects;
      var subheap := SubheapOf(ptr, order);
      released := PutSlotBack(subheap, (ptr - LayoutOf(subheap, order, objectSize).base) / objectSize);
    }

    method PutSlotBack(a: nat, i: nat) returns (released: nat)
      requires a in subs
      modifies this`full, this`avai, this`subs, this`nextOrder
      ensures State() == Returned(old(State()), a, i) && released == if a in subs then NULL else a
    {
      released := NULL;
      var slots := Given(subs[a].slots, i);
      if NumFree(slots) == 1 {
        avai := Moved(avai, a, true);
        full := Moved(full, a, false);
        subs := subs[a := subs[a].(slots := slots)];
      } else if NumFree(slots) == slots.total {
        RemoveSubheap(a);
        released := a;
      } else {
        subs := subs[a := subs[a].(slots := slots)];
      }
    }

    method RemoveSubheap(a: nat)
      modifies this`full, this`avai, this`subs, this`nextOrder
      ensures subs == old(subs) - {a} && avai == Moved(old(avai), a, false) && full == Moved(old(full), a, false)
      ensures nextOrder == if old(nextOrder) > 1 then old(nextOrder) - 1 else old(nextOrder)
    {
      avai := Moved(avai, a, false);
      full := Moved(full, a, false);
      subs := subs - {a};
      if nextOrder > 1 {
        nextOrder := nextOrder - 1;
      }
    }
  }

  lemma InOrderMeans(s: Shelf, s': Shelf, space: nat)
    requires ServedInOrder(s, s', space)
    ensures s'.nextOrder == if NoneLeft(s) && space != NULL && s.nextOrder < MAX_PAGE_ORDER then s.nextOrder + 1 else s.nextOrder
    ensures NoneLeft(s) && space != NULL ==> space in s'.subs && s'.subs[space].order == s.nextOrder
  {
    hide NoneLeft;
  }

  /** What a free does to the lists, the subheaps and the order of the next one. */
  ghost predicate ReturnedInOrder(s: Shelf, s': Shelf, a: nat, i: nat) {
    && a in s.subs
    && (a !in s'.subs <==> ReapSlots.Live(s.subs[a].slots) == {i} && s.subs[a].slots.total >= 2)
    && (a !in s'.subs ==>
        s'.subs == s.subs - {a} && s'.nextOrder == if s.nextOrder > 1 then s.nextOrder - 1 else s.nextOrder)
    && (a in s'.subs ==> s'.subs == s.subs[a := s'.subs[a]] && s'.nextOrder == s.nextOrder && s'.subs[a].order == s.subs[a].order)
    && (a in s'.subs && !HasFree(s.subs[a].slots) ==> s'.avai != [] && s'.avai[0] == a)
  }

  lemma ReturnedOrder(s: Shelf, a: nat, i: nat)
    requires SoundShelf(s) && a in s.subs && i in ReapSlots.Live(s.subs[a].slots)
    ensures ReturnedInOrder(s, Returned(s, a, i), a, i) && a != NULL
  {
    RemovalCondition(s, a, i);
    assert SubShape(a, s.subs[a], s.objectSize);
    SoleObject(s.subs[a].slots, i);
    hide SoundShelf, SubShape, Proper, ReapSlots.Live;
  }

  lemma FreeNeeds(s: Shelf, ptr: int, a: nat, i: nat)
    requires SoundShelf(s) && Holds(s, ptr, a, i)
    ensures a in s.subs && 0 < s.objectSize && 0 < ClusterSize(s.subs[a].order) && SubheapOf(ptr, s.subs[a].order) == a
    ensures (ptr - LayoutOf(a, s.subs[a].order, s.objectSize).base) / s.objectSize == i
    ensures SoundShelf(Returned(s, a, i)) && LiveObjects(Returned(s, a, i)) == LiveObjects(s) - iset{ptr}
    ensures ReturnedInOrder(s, Returned(s, a, i), a, i) && a != NULL
    ensures Returned(s, a, i).nextOrder ==
      if a !in Returned(s, a, i).subs && s.nextOrder > 1 then s.nextOrder - 1 else s.nextOrder
  {
    HeldHere(s, ptr, a, i);
    ReturnedOrder(s, a, i);
    hide SoundShelf, LiveObjects, SubheapOf, Returned;
    MaskFindsOwner(s, ptr, a, i, ptr);
    ObjectInside(s, ptr, a, i);
    ReturnedSound(s, a, i, ptr);
  }

  lemma SameSubs(s: Shelf, a: nat)
    ensures Shelved(s, a).subs == s.subs && Shelved(s, a).objectSize == s.objectSize
  {}

  // ---- growth over runs

  /** One call of the heap, with what the layers below answer. */
  datatype ShelfStep = Serve(size: nat, recycled: nat -> nat, space: nat) | TakeBack(a: nat, i: nat)

  /** A call that removes no subheap. */
  ghost predicate Grows(s: Shelf, step: ShelfStep, s': Shelf) {
    SoundShelf(s) &&
    match step
    case Serve(size, recycled, space) => CanMalloc(s, size, recycled, space) && s' == Served(s, size, recycled, space).0
    case TakeBack(a, i) => a in s.subs && i in ReapSlots.Live(s.subs[a].slots) && s' == Returned(s, a, i) && a in s'.subs
  }

  /** A run from the new heap in which no subheap is removed. */
  ghost predicate IsGrowth(states: seq<Shelf>, steps: seq<ShelfStep>) {
    && |states| == |steps| + 1 && SoundShelf(states[0]) && states[0].subs == map[] && states[0].nextOrder == 1
    && forall k {:trigger steps[k]} :: 0 <= k < |steps| ==> Grows(states[k], steps[k], states[k + 1])
  }

  /** The region of the `i`-th subheap: PAGE_SIZE << (min(i, MAX_PAGE_ORDER) - 1) bytes. */
  function RegionBytes(i: nat): nat
    requires 0 < i
  {
    PAGE_SIZE * Power2((if i < MAX_PAGE_ORDER then i else MAX_PAGE_ORDER) - 1)
  }

  /** The next subheap is the one after those there are, in the doubling sizes. */
  ghost predicate NextInLine(s: Shelf) {
    s.nextOrder == if |s.subs| < MAX_PAGE_ORDER then |s.subs| + 1 else MAX_PAGE_ORDER
  }

  lemma GrowthStep(s: Shelf, step: ShelfStep, s': Shelf)
    requires Grows(s, step, s') && NextInLine(s)
    ensures SoundShelf(s') && InLine(s, s')
  {
    hide SoundShelf, CanMalloc, Served, Returned, InLine, NextInLine, ReapSlots.Live;
    match step
    case Serve(size, recycled, space) => ServedInLine(s, size, recycled, space);
    case TakeBack(a, i) => ReturnedInLine(s, a, i);
  }

  /** The other subheaps are kept, and a new one is the next in line. */
  ghost predicate InLine(s: Shelf, s': Shelf) {
    && NextInLine(s')
    && (forall a :: a in s.subs ==> a in s'.subs && s'.subs[a].order == s.subs[a].order)
    && forall a :: a in s'.subs && a !in s.subs ==> |s'.subs| == |s.subs| + 1 && s'.subs[a].order == s.nextOrder
  }

  lemma ServedInLine(s: Shelf, size: nat, recycled: nat -> nat, space: nat)
    requires SoundShelf(s) && CanMalloc(s, size, recycled, space) && NextInLine(s)
    ensures SoundShelf(Served(s, size, recycled, space).0) && InLine(s, Served(s, size, recycled, space).0)
  {
    hide SoundShelf, CanMalloc, Served, LiveObjects, NextInLine, InLine, ServedInOrder, PlacesKept, NoneLeft;
    ServedSound(s, size, recycled, space);
    ServedOrder(s, size, recycled, space);
    ServedSubs(s, size, recycled, space);
    ServedGrowth(s, Served(s, size, recycled, space).0, space);
  }

  lemma ReturnedInLine(s: Shelf, a: nat, i: nat)
    requires SoundShelf(s) && a in s.subs && i in ReapSlots.Live(s.subs[a].slots) && a in Returned(s, a, i).subs && NextInLine(s)
    ensures SoundShelf(Returned(s, a, i)) && InLine(s, Returned(s, a, i))
  {
    ReturnedKeeps(s, a, i);
    ReturnedOrder(s, a, i);
    hide SoundShelf, Returned, ReapSlots.Live, InLine, NextInLine, ReturnedInOrder;
    ReturnedGrowth(s, Returned(s, a, i), a, i);
  }

  lemma ReturnedGrowth(s: Shelf, s': Shelf, a: nat, i: nat)
    requires ReturnedInOrder(s, s', a, i) && a in s'.subs && NextInLine(s)
    ensures InLine(s, s')
  {
    hide ReapSlots.Live, HasFree;
    assert s'.subs.Keys == s.subs.Keys;
    assert |s'.subs| == |s'.subs.Keys| && |s.subs| == |s.subs.Keys|;
  }

  lemma ServedGrowth(s: Shelf, s': Shelf, space: nat)
    requires ServedInOrder(s, s', space) && PlacesKept(s, s', if NoneLeft(s) then space else NULL) && NextInLine(s)
    ensures InLine(s, s')
  {
    hide NoneLeft, HasFree;
    assert s'.subs.Keys == if NoneLeft(s) && space != NULL then s.subs.Keys + {space} else s.subs.Keys;
    assert |s'.subs| == |s'.subs.Keys| && |s.subs| == |s.subs.Keys|;
  }

  lemma LineBytes(s: Shelf, s': Shelf, a: nat)
    requires NextInLine(s) && InLine(s, s') && a in s'.subs && a !in s.subs
    ensures |s'.subs| == |s.subs| + 1 && ClusterSize(s'.subs[a].order) == RegionBytes(|s'.subs|)
  {}

  lemma LineKept(s: Shelf, s': Shelf, a: nat)
    requires InLine(s, s') && a in s.subs
    ensures a in s'.subs && s'.subs[a].order == s.subs[a].order
  {}

  /** Without removals the i-th subheap has `PAGE_SIZE << (min(i, MAX_PAGE_ORDER) - 1)` bytes, when it is created and after. */
  lemma {:induction false} GrowthLaw(states: seq<Shelf>, steps: seq<ShelfStep>, k: nat, j: nat, a: nat)
    requires IsGrowth(states, steps) && k < j < |states| && a !in states[k].subs && a in states[k + 1].subs
    ensures |states[k + 1].subs| == |states[k].subs| + 1
    ensures a in states[j].subs && ClusterSize(states[j].subs[a].order) == RegionBytes(|states[k + 1].subs|)
    decreases j
  {
    hide IsGrowth, SoundShelf, Grows, NextInLine, InLine, ClusterSize, RegionBytes;
    GrowthSound(states, steps, j - 1);
    GrowthStep(states[j - 1], steps[j - 1], states[j]);
    if k + 1 < j {
      GrowthLaw(states, steps, k, j - 1, a);
      LineKept(states[j - 1], states[j], a);
    } else {
      LineBytes(states[k], states[j], a);
    }
  }

  lemma GrowthAt(states: seq<Shelf>, steps: seq<ShelfStep>, k: nat)
    requires IsGrowth(states, steps) && k < |states|
    ensures |states| == |steps| + 1 && (k < |steps| ==> Grows(states[k], steps[k], states[k + 1]))
    ensures k == 0 ==> SoundShelf(states[0]) && NextInLine(states[0])
  {
    hide SoundShelf, Grows;
    assert k < |steps| ==> steps[k] == steps[k];
  }

  /** How many subheaps there are tells the order of the next one. */
  lemma {:induction false} GrowthSound(states: seq<Shelf>, steps: seq<ShelfStep>, k: nat)
    requires IsGrowth(states, steps) && k < |states|
    ensures SoundShelf(states[k]) && NextInLine(states[k])
    ensures |states| == |steps| + 1 && (k < |steps| ==> Grows(states[k], steps[k], states[k + 1]))
  {
    hide IsGrowth, SoundShelf, Grows, NextInLine, InLine;
    GrowthAt(states, steps, k);
    if k > 0 {
      GrowthSound(states, steps, k - 1);
      GrowthStep(states[k - 1], steps[k - 1], states[k]);
      LineNext(states[k - 1], states[k]);
    }
  }

  lemma LineNext(s: Shelf, s': Shelf)
    requires InLine(s, s')
    ensures NextInLine(s')
  {}
}
