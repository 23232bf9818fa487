/** The allocator of vam.h as one object: FrequencyHeap over SegSizeHeap and TwoHeap over one PartitionHeap. */
module VamHeaps {
  import opened IntrusiveLists
  import opened ObjectHeaders
  import opened Partitions
  import opened PartitionAllocation
  import opened PartitionFrames
  import opened PartitionHeaps
  import opened Shelves
  import opened OneSizeHeaps
  import opened FrequencyHeaps
  import opened TwoHeaps
  import opened Routing
  import opened VamStates
  import opened VamRouting
  import opened VamSupply
  import SplitCoalesce
  import B = BoundaryTags

  class VamHeap {
    const pages: PartitionHeap
    const low: TwoHeap
    const frequency: FrequencyHeap
    // the heaps of one size of SegSizeHeap
    const classes: seq<OneSizeHeap>
    // the `_object_size` fields in the memory of the reaps
    var objectSizes: map<int, nat>

    ghost function Shelves(): seq<Shelf>
      reads this, classes
    {
      seq(|classes|, c requires 0 <= c < |classes| reads this, classes => classes[c].State())
    }

    ghost function State(): Vam
      reads this, classes, pages, pages.avai, pages.full, pages.typeMap, low, low.regular
    {
      Vam(pages.State(), Shelves(), B.Heap(low.regular.view, low.regular.bases), low.huge, pages.aggressive)
    }

    /** No two heaps share memory. */
    ghost predicate Separate()
      reads low, low.regular, low.regular.seg
    {
      && (forall c, d :: 0 <= c < d < |classes| ==> classes[c] != classes[d])
      && pages.typeMap != frequency.counts && pages.typeMap != low.regular.seg.counter
      && frequency.counts != low.regular.seg.counter
    }

    ghost predicate Valid()
      reads this, classes, pages, pages.avai, pages.full, pages.typeMap
      reads low, low.regular, low.regular.mem, low.regular.seg, low.regular.seg.store, low.regular.seg.counter, low.regular.seg.bitmap
      reads frequency, frequency.frequent, frequency.counts
    {
      && Separate() && pages.Valid() && low.Valid() && frequency.Valid() && Composed(State()) && Recorded(Shelves(), objectSizes)
    }

    constructor (aggressive: bool)
      ensures Valid() && State().huge == map[] && State().blocks == B.Heap(map[], {})
      ensures forall c: nat, a :: !InSubs(State().shelves, c, a)
    {
      hide SoundPool, SoundShelf, Composed, Recorded, InSubs, TwoHeap.Valid, FrequencyHeap.Valid;
      pages := new PartitionHeap(aggressive);
      low := new TwoHeap();
      frequency := new FrequencyHeap();
      var list := NewClasses();
      classes := list;
      objectSizes := map[];
      new;
      InitialComposed(State());
    }

    method AskForCluster(size: nat, t: nat, space: int) returns (a: nat)
      requires pages.Valid() && CanAllocate(pages.State(), size, t, space)
      modifies pages`subheaps, pages`unused, pages.avai, pages.full, pages.typeMap
      ensures pages.Valid() && (pages.State(), a) == Cluster(old(pages.State()), size, t, space, pages.aggressive)
    {
      AllocatedSound(pages.State(), size, t, space, pages.aggressive);
      hide SoundPool, CanAllocate;
      a := pages.Malloc(size, t, space);
    }

    /** The heap of one size `c`, with a cluster for a new subheap if it needs one. */
    method Serve(c: nat, size: nat, recycled: nat -> nat, space: int, ghost s: Shelf, ghost p: Pool) returns (ptr: int, a: nat)
      requires c < |classes| && pages.Valid() && classes[c].Valid() && s == classes[c].State() && p == pages.State()
      requires CanMalloc(s, size, recycled, NULL)
      requires NoneLeft(s) ==>
        && CanAllocate(p, ClusterSize(s.nextOrder), s.nextOrder, space)
        && CanMalloc(s, size, recycled, Cluster(p, ClusterSize(s.nextOrder), s.nextOrder, space, pages.aggressive).1)
      modifies classes[c], pages`subheaps, pages`unused, pages.avai, pages.full, pages.typeMap
      ensures pages.Valid() && classes[c].Valid()
      ensures (pages.State(), a) ==
        if NoneLeft(s) then Cluster(p, ClusterSize(s.nextOrder), s.nextOrder, space, pages.aggressive) else (p, NULL)
      ensures (classes[c].State(), ptr) == Served(s, size, recycled, a)
    {
      hide SoundShelf, CanMalloc, Served, ServedInOrder, Cluster, NoneLeft, CanAllocate, SoundPool, ClusterSize;
      var heap := classes[c];
      ServedTwice(s, size, recycled, NULL);
      if NoneLeft(s) {
        ServedTwice(s, size, recycled, Cluster(p, ClusterSize(s.nextOrder), s.nextOrder, space, pages.aggressive).1);
      }
      a := NULL;
      ptr := heap.Malloc(size, recycled, NULL);
      if ptr == NULL {
        a := AskForCluster(ClusterSize(heap.nextOrder), heap.nextOrder, space);
        if a != NULL {
          ptr := heap.Malloc(size, recycled, a);
        }
      }
    }

    /**
     * SegSizeHeap and OneSizeHeap: a small object. If no subheap has a free slot, the partition heap is asked for a
     * cluster; `space` is the region that it would be given.
     */
    method MallocSmall(c: nat, size: nat, recycled: nat -> nat, space: int) returns (ptr: int)
      requires Valid() && c < CLASSES && CanServe(State(), c, size, recycled, space)
      modifies this`objectSizes, classes[c], pages`subheaps, pages`unused, pages.avai, pages.full, pages.typeMap
      ensures Valid() && (State(), ptr) == AfterReapMalloc(old(State()), c, size, recycled, space)
    {
      hide Composed, SoundShelf, CanMalloc, Served, CanServe, Cluster, NoneLeft, CanAllocate, SoundPool, ClusterSize;
      hide AfterReapMalloc, Recorded, InSubs;
      ghost var v := State();
      SmallNeeds(v, c, size, recycled, space, objectSizes);
      var a;
      ptr, a := Serve(c, size, recycled, space, v.shelves[c], v.pool);
      assert Shelves() == v.shelves[c := classes[c].State()];
      if a != NULL {
        objectSizes := objectSizes[a := size];
      }
      assert low.Valid();
      assert frequency.Valid();
      assert State() == v.(pool := pages.State(), shelves := v.shelves[c := classes[c].State()]);
      assert Composed(State());
      assert Recorded(Shelves(), objectSizes);
    }

    /** The heap of regular objects, with a chunk from the partition heap if no free block is large enough. */
    method Place(size: nat, space: int, ghost v: Vam) returns (ptr: int)
      requires pages.Valid() && low.Valid() && 8 <= size <= B.MAX_OBJECT_SIZE && size % 8 == 0
      requires v.pool == pages.State() && v.blocks == B.Heap(low.regular.view, low.regular.bases) && v.huge == low.huge
      requires v.aggressive == pages.aggressive && pages.typeMap != low.regular.seg.counter && BlockSpace(v, size, space)
      modifies pages`subheaps, pages`unused, pages.avai, pages.full, pages.typeMap
      modifies low.regular`view, low.regular`bases, low.regular.mem, low.regular.seg`lists
      modifies low.regular.seg.store, low.regular.seg.counter, low.regular.seg.bitmap
      ensures pages.Valid() && low.Valid()
      ensures SplitCoalesce.Fits(v.blocks.view, size) ==> SplitCoalesce.BestFit(v.blocks.view, ptr - HEADER, size)
      ensures Placed(v, size, ptr - HEADER, space, pages.State(), B.Heap(low.regular.view, low.regular.bases), ptr)
    {
      hide Cluster, CanAllocate, SoundPool, SplitCoalesce.Fits, SplitCoalesce.BestFit;
      ptr := low.MallocRegular(size, NULL);
      if ptr == NULL {
        var b := AskForCluster(PARTITION_SIZE, LOW_FREQ_TYPE, space);
        if b != NULL {
          ptr := low.MallocRegular(size, b);
        }
      }
    }

    /** SplitCoalesceHeap: a regular object. If no free block is large enough, the partition heap is asked for a chunk. */
    method MallocBlock(size: nat, space: int) returns (ptr: int, ghost h: int)
      requires Valid() && 8 <= size <= B.MAX_OBJECT_SIZE && size % 8 == 0
      requires !SplitCoalesce.Fits(low.regular.view, size) ==> CanAllocate(pages.State(), PARTITION_SIZE, LOW_FREQ_TYPE, space)
      modifies pages`subheaps, pages`unused, pages.avai, pages.full, pages.typeMap
      modifies low.regular`view, low.regular`bases, low.regular.mem, low.regular.seg`lists
      modifies low.regular.seg.store, low.regular.seg.counter, low.regular.seg.bitmap
      ensures CanPlace(old(State()), size, h, space)
      ensures Valid() && (State(), ptr) == AfterBlockMalloc(old(State()), size, h, space)
    {
      hide Composed, Cluster, CanAllocate, SoundPool, AfterBlockMalloc, Recorded, Placed, BlockSpace;
      hide SplitCoalesce.Fits, SplitCoalesce.BestFit;
      ghost var v := State();
      BlockNeeds(v, size, space);
      ptr := Place(size, space, v);
      h := ptr - HEADER;
      BlockDone(v, size, h, space, pages.State(), B.Heap(low.regular.view, low.regular.bases), ptr);
      assert Shelves() == v.shelves;
      assert frequency.Valid();
      assert State() == v.(pool := pages.State(), blocks := B.Heap(low.regular.view, low.regular.bases));
    }

    /** TwoHeap: a huge object, in a region of its own from the partition heap. */
    method MallocLarge(size: nat, space: int) returns (ptr: int)
      requires Valid() && Enabled(State(), HugeMalloc(size, space))
      modifies pages`subheaps, pages`unused, pages.avai, pages.full, pages.typeMap, low`huge, low.regular.mem
      ensures Valid() && (State(), ptr) == AfterHugeMalloc(old(State()), size, space)
    {
      hide Composed, Cluster, CanAllocate, SoundPool, AfterHugeMalloc, Recorded, Enabled, HugeSize;
      ghost var v := State();
      LargeNeeds(v, size, space);
      ptr := NULL;
      var g := AskForCluster(HugeSize(size), LOW_FREQ_TYPE, space);
      if g != NULL {
        ptr := low.MallocHuge(size, g);
      }
      assert Shelves() == v.shelves;
      assert frequency.Valid();
      assert State() == v.(pool := pages.State(), huge := low.huge);
    }

    /** A cluster goes back to the partition heap. */
    method GiveBack(a: int)
      requires pages.Valid() && a in Live(pages.State())
      modifies pages`subheaps, pages`unused, pages.avai, pages.full, pages.typeMap
      ensures pages.Valid() && pages.State() == Released(old(pages.State()), a)
    {
      LiveFreeable(pages.State(), a);
      hide SoundPool, Live, Released;
      pages.Free(a);
    }

    /** SegSizeHeap and OneSizeHeap: the mask of the type finds the reap, and its object size the heap it belongs to. */
    method FreeSmall(ptr: int, t: nat, ghost c: nat, ghost a: nat, ghost i: nat)
      requires Valid() && Owns(State(), ptr, Reap(c, a, i)) && SeenType(pages.State(), ptr, t)
      modifies classes, pages`subheaps, pages`unused, pages.avai, pages.full, pages.typeMap
      ensures InSubs(old(State()).shelves, c, a) && Valid() && State() == AfterReapFree(old(State()), c, a, i)
    {
      ghost var v := State();
      hide Composed, SoundShelf, SoundPool, SubheapOf, ClusterSize, Recorded, InSubs, Live, Holds, Returned, AfterReapFree, Released;
      hide SeenType, LiveObjects;
      SmallFound(v, ptr, t, c, a, i, objectSizes);
      var subheap := SubheapOf(ptr, t);
      var heap := classes[SizeIndex(objectSizes[subheap])];
      var gone;
      ghost var b, j;
      gone, b, j := heap.Free(ptr, t);
      OneOwner(v.shelves[c], ptr, a, i, b, j);
      if gone != NULL {
        GiveBack(gone);
      }
      assert low.Valid();
      assert frequency.Valid();
      assert State() == v.(pool := pages.State(), shelves := v.shelves[c := classes[c].State()]);
    }

    /** TwoHeap: the header tells a regular object from a huge one, whose region goes back to the partition heap. */
    method FreeLow(ptr: int, ghost o: Owner)
      requires Valid() && Owns(State(), ptr, o) && !o.Reap?
      modifies low`huge, low.regular`view, low.regular.mem, low.regular.seg`lists
      modifies low.regular.seg.store, low.regular.seg.counter, low.regular.seg.bitmap
      modifies pages`subheaps, pages`unused, pages.avai, pages.full, pages.typeMap
      ensures Enabled(old(State()), FreeStep(ptr, o)) && Valid() && State() == After(old(State()), FreeStep(ptr, o)).0
    {
      ghost var v := State();
      hide Composed, SoundPool, Recorded, InSubs, Live, Released, After, Owns, Enabled, HugeSize;
      if o == Block {
        BlockFound(v, ptr);
      } else {
        HugeFound(v, ptr);
      }
      var released := low.Free(ptr);
      if released != NULL {
        GiveBack(released);
      }
      assert Shelves() == v.shelves;
      assert frequency.Valid();
      assert State() == v.(pool := pages.State(), blocks := B.Heap(low.regular.view, low.regular.bases), huge := low.huge);
    }

    /** TwoHeap: regular and huge objects. */
    method MallocLow(size: nat, space: int) returns (ptr: int, ghost o: Owner)
      requires Valid() && LowSupplied(State(), size, space)
      modifies low`huge, low.regular`view, low.regular`bases, low.regular.mem, low.regular.seg`lists
      modifies low.regular.seg.store, low.regular.seg.counter, low.regular.seg.bitmap
      modifies pages`subheaps, pages`unused, pages.avai, pages.full, pages.typeMap
      ensures Valid() && Keeps(old(State()), State()) && Gives(old(State()), State(), ptr, o, size)
      ensures ptr != NULL <==> LowServes(old(State()), size)
      ensures ptr != NULL ==> o == if size <= B.MAX_OBJECT_SIZE then Block else Huge
    {
      ghost var v := State();
      hide Composed, Recorded, Enabled, Owns, Keeps, Gives, CanAllocate, AfterBlockMalloc, AfterHugeMalloc, CanPlace, LowServes;
      if size <= B.MAX_OBJECT_SIZE {
        ghost var h;
        ptr, h := MallocBlock(size, space);
        BlockStep(v, size, h, space);
        o := StepGives(v, BlockMalloc(size, h, space));
      } else {
        LargeStep(v, size, space);
        ptr := MallocLarge(size, space);
        o := StepGives(v, HugeMalloc(size, space));
      }
    }

    /** A frequent request: the reaps of its class serve it if they can, and if not, nothing has changed for the others. */
    method MallocFrequent(size: nat, recycled: nat -> nat, space: int) returns (ptr: int, ghost o: Owner)
      requires Valid() && LowSupplied(State(), size, space) && size <= MAX_FREQ_SIZE
      requires CanServe(State(), SizeIndex(size), size, recycled, space)
      modifies this`objectSizes, classes, pages`subheaps, pages`unused, pages.avai, pages.full, pages.typeMap
      ensures Valid() && Keeps(old(State()), State()) && Gives(old(State()), State(), ptr, o, size)
      ensures ptr != NULL <==> ReapsServe(old(State()), SizeIndex(size))
      ensures ptr != NULL ==> o.Reap? && o.c == SizeIndex(size)
      ensures ptr == NULL ==> LowSupplied(State(), size, space) && (LowServes(State(), size) <==> LowServes(old(State()), size))
    {
      hide Composed, Recorded, Owns, Keeps, Gives, AddsOnly, CanServe, AfterReapMalloc, LowSupplied, LowServes, ReapsServe;
      RequestSize(State(), size, space);
      SmallStep(State(), SizeIndex(size), size, recycled, space);
      o := StepGives(State(), ReapMalloc(SizeIndex(size), size, recycled, space));
      ptr := MallocSmall(SizeIndex(size), size, recycled, space);
    }

    /**
     * `malloc` of the whole allocator. Frequent small sizes go to the reaps. Other sizes up to MAX_OBJECT_SIZE, and the
     * small ones the reaps have no room for, go to the heap with headers, and larger ones to regions of their own.
     */
    method Malloc(size: nat, recycled: nat -> nat, space: int) returns (ptr: int, ghost o: Owner)
      requires Valid() && LowSupplied(State(), size, space)
      requires size <= MAX_FREQ_SIZE ==> CanServe(State(), SizeIndex(size), size, recycled, space)
      modifies this`objectSizes, frequency, frequency.frequent, frequency.counts, classes
      modifies low`huge, low.regular`view, low.regular`bases, low.regular.mem, low.regular.seg`lists
      modifies low.regular.seg.store, low.regular.seg.counter, low.regular.seg.bitmap
      modifies pages`subheaps, pages`unused, pages.avai, pages.full, pages.typeMap
      ensures Valid() && frequency.history == old(frequency.history) + [size]
      ensures Keeps(old(State()), State()) && Gives(old(State()), State(), ptr, o, size)
      ensures var hot := size <= MAX_FREQ_SIZE && Hot(frequency.history, SizeIndex(size));
        var reaps := hot && ReapsServe(old(State()), SizeIndex(size));
        && (ptr != NULL <==> reaps || LowServes(old(State()), size))
        && (reaps ==> o.Reap? && o.c == SizeIndex(size))
        && (!reaps && ptr != NULL ==> o == if size <= B.MAX_OBJECT_SIZE then Block else Huge)
    {
      ghost var v := State();
      hide Composed, Recorded, Owns, Keeps, Gives, AddsOnly, CanServe, AfterReapMalloc, LowSupplied, LowServes, ReapsServe, Hot;
      RequestSize(v, size, space);
      KeepsItself(v, size);
      var frequently := frequency.Decide(size);
      assert State() == v;
      ptr, o := NULL, Block;
      if frequently {
        ptr, o := MallocFrequent(size, recycled, space);
      }
      if ptr == NULL {
        ghost var v1, failed := State(), o;
        ptr, o := MallocLow(size, space);
        GivesAfter(v, v1, State(), failed, ptr, o, size);
      }
    }

    /** `free` of the whole allocator: the type of the object's partition decides first. */
    method Free(ptr: int) returns (ghost o: Owner)
      requires Valid() && exists o :: Owns(State(), ptr, o)
      modifies low`huge, low.regular`view, low.regular.mem, low.regular.seg`lists
      modifies low.regular.seg.store, low.regular.seg.counter, low.regular.seg.bitmap
      modifies classes, pages`subheaps, pages`unused, pages.avai, pages.full, pages.typeMap
      ensures Owns(old(State()), ptr, o) && Enabled(old(State()), FreeStep(ptr, o))
      ensures Valid() && State() == After(old(State()), FreeStep(ptr, o)).0
      ensures Takes(old(State()), State(), ptr, o)
    {
      o :| Owns(State(), ptr, o);
      FreeTakes(State(), ptr, o);
      hide Composed, SoundPool, Recorded, InSubs, Live, After, Owns, SeenType, Enabled, AfterReapFree, Takes;
      TypeSeen(State(), ptr, o);
      var t := pages.typeMap[PartitionOf(ptr)];
      if t == LOW_FREQ_TYPE {
        FreeLow(ptr, o);
      } else {
        FreeStepOf(State(), ptr, o);
        FreeSmall(ptr, t, o.c, o.a, o.i);
      }
    }
  }

  lemma TypeSeen(v: Vam, ptr: int, o: Owner)
    requires Composed(v) && Owns(v, ptr, o)
    ensures 0 <= PartitionOf(ptr) < |v.pool.types| && SeenType(v.pool, ptr, v.pool.types[PartitionOf(ptr)])
    ensures v.pool.types[PartitionOf(ptr)] == LOW_FREQ_TYPE <==> !o.Reap?
  {
    hide Composed, Holds;
    match o
    case Reap(c, a, i) => ReapSeen(v, ptr, c, a, i);
    case Block => BlockSeen(v, ptr);
    case Huge => HugeSeen(v, ptr);
  }

  lemma FreeStepOf(v: Vam, ptr: int, o: Owner)
    requires Composed(v) && Owns(v, ptr, o) && o.Reap?
    ensures Enabled(v, FreeStep(ptr, o)) && InSubs(v.shelves, o.c, o.a)
    ensures After(v, FreeStep(ptr, o)).0 == AfterReapFree(v, o.c, o.a, o.i)
  {
    HeldHere(v.shelves[o.c], ptr, o.a, o.i);
    hide Composed, AfterReapFree;
  }

  lemma BlockFound(v: Vam, ptr: int)
    requires Composed(v) && Owns(v, ptr, Block)
    ensures Enabled(v, BlockFree(ptr - HEADER)) && ptr - HEADER !in v.huge
    ensures ptr - HEADER in v.blocks.view && !v.blocks.view[ptr - HEADER].free
    ensures var v' := v.(blocks := B.Heap(B.Release(v.blocks.view, ptr - HEADER), v.blocks.bases));
      After(v, BlockFree(ptr - HEADER)).0 == v' && Composed(v')
  {
    hide Composed;
    BlockSeen(v, ptr);
    StepLinked(v, BlockFree(ptr - HEADER));
  }

  lemma HugeFound(v: Vam, ptr: int)
    requires Composed(v) && Owns(v, ptr, Huge)
    ensures Enabled(v, HugeFree(ptr - HEADER)) && ptr - HEADER in v.huge && ptr - HEADER != NULL
    ensures SoundPool(v.pool) && ptr - HEADER in Live(v.pool)
    ensures var v' := v.(pool := Released(v.pool, ptr - HEADER), huge := v.huge - {ptr - HEADER});
      After(v, HugeFree(ptr - HEADER)).0 == v' && Composed(v')
  {
    hide Composed, Live, Released, SoundPool;
    SoundPoolOf(v);
    HugeNotOther(v, ptr - HEADER);
    NullOwnsNothing(v);
    StepLinked(v, HugeFree(ptr - HEADER));
  }

  lemma LiveFreeable(p: Pool, ptr: int)
    requires SoundPool(p) && ptr in Live(p)
    ensures Freeable(p, ptr)
  {
    hide SoundPool, Shape, PartitionOf;
    var q: nat, i: nat :| Held(p, ptr, q, i);
    ShapeOf(p, q);
    ClusterInside(p.subheaps[q], p.types[q], q, i);
    InAddressSpace(p.subheaps[q], p.types[q], q);
  }

  lemma InAddressSpace(h: Subheap, t: nat, q: nat)
    requires Shape(h, t, q)
    ensures 0 < h.address && h.address + h.size <= ADDRESS_SPACE && 0 < h.clusterSize
  {}

  /** The decisions on the way to the reap of a small object, and what the free leads to. */
  lemma SmallFound(v: Vam, ptr: int, t: nat, c: nat, a: nat, i: nat, sizes: map<int, nat>)
    requires Composed(v) && Owns(v, ptr, Reap(c, a, i)) && SeenType(v.pool, ptr, t) && Recorded(v.shelves, sizes)
    ensures |v.shelves| == CLASSES && c < CLASSES && InSubs(v.shelves, c, a) && 0 < ClusterSize(t) && SubheapOf(ptr, t) == a
    ensures a in sizes && 0 < sizes[a] && SizeIndex(sizes[a]) == c && a in Live(v.pool) && a != NULL
    ensures SoundShelf(v.shelves[c]) && ptr in LiveObjects(v.shelves[c])
    ensures forall b, j :: Holds(v.shelves[c], ptr, b, j) ==> t == v.shelves[c].subs[b].order
    ensures var s' := Returned(v.shelves[c], a, i);
      var v' := v.(shelves := v.shelves[c := s'], pool := if a in s'.subs then v.pool else Released(v.pool, a));
      v' == AfterReapFree(v, c, a, i) && Composed(v') && Recorded(v'.shelves, sizes)
  {
    ClassesOf(v);
    ReapSeen(v, ptr, c, a, i);
    SeenOnce(v.pool, ptr);
    ShelfAt(v.pool, v.shelves, c);
    SubNotLow(v, c, a);
    NullOwnsNothing(v);
    HeldHere(v.shelves[c], ptr, a, i);
    ReapFreeLinked(v, c, a, i);
    hide Composed, SoundShelf, SubheapOf, ClusterSize, Holds, Returned, SeenType, Live, Released;
    forall b, j | Holds(v.shelves[c], ptr, b, j)
      ensures b == a
    {
      OneOwner(v.shelves[c], ptr, a, i, b, j);
    }
    assert IsObject(v.shelves[c], ptr);
    RecordedReturned(v.shelves, sizes, c, a, i);
  }

  lemma RecordedReturned(shelves: seq<Shelf>, sizes: map<int, nat>, c: nat, a: nat, i: nat)
    requires Recorded(shelves, sizes) && InSubs(shelves, c, a)
    ensures Recorded(shelves[c := Returned(shelves[c], a, i)], sizes)
  {
    ReturnedSubs(shelves[c], a, i);
    hide Returned;
    var after := shelves[c := Returned(shelves[c], a, i)];
    forall d: nat, b | InSubs(after, d, b)
      ensures b in sizes && sizes[b] == after[d].objectSize
    {
      assert InSubs(shelves, d, b);
    }
  }

  /** A chunk is there if it is needed, and it is apart from everything. */
  ghost predicate BlockSpace(v: Vam, size: nat, space: int) {
    && SoundPool(v.pool)
    && (!SplitCoalesce.Fits(v.blocks.view, size) ==>
        && CanAllocate(v.pool, PARTITION_SIZE, LOW_FREQ_TYPE, space)
        && var b := Cluster(v.pool, PARTITION_SIZE, LOW_FREQ_TYPE, space, v.aggressive).1;
        b != NULL ==>
          && b % 8 == 0 && B.Apart(v.blocks.bases, b)
          && forall g :: g in v.huge ==> Disjoint(g, HugeSize(v.huge[g]), b, B.CHUNK))
  }

  lemma BlockNeeds(v: Vam, size: nat, space: int)
    requires Composed(v)
    requires !SplitCoalesce.Fits(v.blocks.view, size) ==> CanAllocate(v.pool, PARTITION_SIZE, LOW_FREQ_TYPE, space)
    ensures BlockSpace(v, size, space)
  {
    hide Composed, Cluster, CanAllocate, SoundPool, ObjectAt, Live, HugeSize;
    SoundPoolOf(v);
    if !SplitCoalesce.Fits(v.blocks.view, size) {
      ClusterKeeps(v.pool, PARTITION_SIZE, LOW_FREQ_TYPE, space, v.aggressive);
      var (p', b) := Cluster(v.pool, PARTITION_SIZE, LOW_FREQ_TYPE, space, v.aggressive);
      if b != NULL {
        ChunkSpace(v, p', b);
        forall g | g in v.huge
          ensures Disjoint(g, HugeSize(v.huge[g]), b, B.CHUNK)
        {
          HugeBeside(v, p', g, b, PARTITION_SIZE);
        }
      }
    }
  }

  /** What becomes of the partition heap and the blocks when a regular object is placed. */
  ghost predicate Placed(v: Vam, size: nat, h: int, space: int, p': Pool, blocks': B.Heap, ptr: int) {
    var view, bases := v.blocks.view, v.blocks.bases;
    if SplitCoalesce.Fits(view, size) then
      && h in view && p' == v.pool && blocks' == B.Heap(B.Allocate(view, h, size), bases) && ptr == h + HEADER
    else
      && SoundPool(v.pool) && CanAllocate(v.pool, PARTITION_SIZE, LOW_FREQ_TYPE, space)
      && var (q, b) := Cluster(v.pool, PARTITION_SIZE, LOW_FREQ_TYPE, space, v.aggressive);
      && p' == q
      && if b == NULL then blocks' == v.blocks && ptr == NULL
         else
           && blocks' == B.Heap(B.Allocate(B.NewChunk(view, b), b + HEADER, size), bases + {b})
           && ptr == b + 2 * HEADER
  }

  /** A new cluster overlaps no huge region. */
  lemma HugeBeside(v: Vam, p': Pool, g: int, b: int, size: nat)
    requires Composed(v) && SoundPool(p') && KeepsBut(v.pool, p', NULL) && g in v.huge
    requires b !in Live(v.pool) && ObjectAt(p', b, size, LOW_FREQ_TYPE)
    ensures Disjoint(g, HugeSize(v.huge[g]), b, size)
  {
    hide SoundPool, ObjectAt, Live, HugeSize, ShelvesLinked, BlocksLinked;
    HugeNotOther(v, g);
    NullOwnsNothing(v);
    assert ObjectAt(p', g, HugeSize(v.huge[g]), LOW_FREQ_TYPE);
    ObjectsDisjoint(p', g, HugeSize(v.huge[g]), LOW_FREQ_TYPE, b, size, LOW_FREQ_TYPE);
  }

  lemma ChunkBeside(v: Vam, p': Pool, b: int, g: int, size: nat)
    requires Composed(v) && SoundPool(p') && KeepsBut(v.pool, p', NULL) && b in v.blocks.bases
    requires g !in Live(v.pool) && ObjectAt(p', g, size, LOW_FREQ_TYPE)
    ensures Disjoint(g, size, b, B.CHUNK)
  {
    hide SoundPool, ObjectAt, Live, ShelvesLinked, HugeLinked, B.Sound;
    NullOwnsNothing(v);
    OneObject(v.pool, b, PARTITION_SIZE, LOW_FREQ_TYPE, PARTITION_SIZE, LOW_FREQ_TYPE);
    assert ObjectAt(p', b, PARTITION_SIZE, LOW_FREQ_TYPE);
    ObjectsDisjoint(p', g, size, LOW_FREQ_TYPE, b, PARTITION_SIZE, LOW_FREQ_TYPE);
  }

  lemma BlockDone(v: Vam, size: nat, h: int, space: int, p': Pool, blocks': B.Heap, ptr: int)
    requires Composed(v) && CanPlace(v, size, h, space) && Placed(v, size, h, space, p', blocks', ptr)
    ensures Composed(v.(pool := p', blocks := blocks'))
    ensures AfterBlockMalloc(v, size, h, space) == (v.(pool := p', blocks := blocks'), ptr)
  {
    hide Composed, Cluster, CanAllocate, SoundPool, SplitCoalesce.Fits;
    BlockMallocLinked(v, size, h, space);
    assert AfterBlockMalloc(v, size, h, space).0 == v.(pool := p', blocks := blocks');
  }

  lemma LargeNeeds(v: Vam, size: nat, space: int)
    requires Composed(v) && Enabled(v, HugeMalloc(size, space))
    ensures B.MAX_OBJECT_SIZE < size < ADDRESS_SPACE && SoundPool(v.pool)
    ensures CanAllocate(v.pool, HugeSize(size), LOW_FREQ_TYPE, space)
    ensures Composed(AfterHugeMalloc(v, size, space).0)
    ensures var (p', g) := Cluster(v.pool, HugeSize(size), LOW_FREQ_TYPE, space, v.aggressive);
      if g == NULL then AfterHugeMalloc(v, size, space) == (v.(pool := p'), NULL)
      else
        && AfterHugeMalloc(v, size, space) == (v.(pool := p', huge := v.huge[g := size]), g + HEADER)
        && Beside(v.blocks.bases, g, size)
        && forall k :: k in v.huge ==> Disjoint(k, HugeSize(v.huge[k]), g, HugeSize(size))
  {
    hide Composed, Cluster, CanAllocate, SoundPool, HugeSize, Beside;
    SoundPoolOf(v);
    HugeMallocLinked(v, size, space);
    if Cluster(v.pool, HugeSize(size), LOW_FREQ_TYPE, space, v.aggressive).1 != NULL {
      RegionBeside(v, size, space);
    }
  }

  lemma RegionBeside(v: Vam, size: nat, space: int)
    requires Composed(v) && SoundPool(v.pool) && CanAllocate(v.pool, HugeSize(size), LOW_FREQ_TYPE, space)
    requires HEADER <= HugeSize(size)
    ensures var g := Cluster(v.pool, HugeSize(size), LOW_FREQ_TYPE, space, v.aggressive).1;
      g != NULL ==>
        && Beside(v.blocks.bases, g, size)
        && forall k :: k in v.huge ==> Disjoint(k, HugeSize(v.huge[k]), g, HugeSize(size))
  {
    hide Composed, Cluster, CanAllocate, SoundPool, ObjectAt, Live, HugeSize;
    ClusterKeeps(v.pool, HugeSize(size), LOW_FREQ_TYPE, space, v.aggressive);
    var (p', g) := Cluster(v.pool, HugeSize(size), LOW_FREQ_TYPE, space, v.aggressive);
    if g != NULL {
      forall k | k in v.huge
        ensures Disjoint(k, HugeSize(v.huge[k]), g, HugeSize(size))
      {
        HugeBeside(v, p', k, g, HugeSize(size));
      }
      forall b | b in v.blocks.bases
        ensures Disjoint(g, HugeSize(size), b, B.CHUNK)
      {
        ChunkBeside(v, p', b, g, HugeSize(size));
      }
    }
  }

  method NewClasses() returns (list: seq<OneSizeHeap>)
    ensures |list| == CLASSES
    ensures forall c :: 0 <= c < |list| ==> fresh(list[c]) && list[c].Valid() && Unused(list[c].State())
    ensures forall c, d :: 0 <= c < d < |list| ==> list[c] != list[d]
  {
    hide SoundShelf;
    list := [];
    while |list| < CLASSES
      invariant |list| <= CLASSES
      invariant forall c :: 0 <= c < |list| ==> fresh(list[c]) && list[c].Valid() && Unused(list[c].State())
      invariant forall c, d :: 0 <= c < d < |list| ==> list[c] != list[d]
    {
      var heap := new OneSizeHeap();
      list := list + [heap];
    }
  }

  /** What a small request needs from the layers below, and what it leads to. */
  lemma SmallNeeds(v: Vam, c: nat, size: nat, recycled: nat -> nat, space: int, sizes: map<int, nat>)
    requires Composed(v) && c < CLASSES && CanServe(v, c, size, recycled, space) && Recorded(v.shelves, sizes)
    ensures |v.shelves| == CLASSES && SoundShelf(v.shelves[c]) && SoundPool(v.pool) && CanMalloc(v.shelves[c], size, recycled, NULL)
    ensures NoneLeft(v.shelves[c]) ==> CanAllocate(v.pool, ClusterSize(v.shelves[c].nextOrder), v.shelves[c].nextOrder, space)
    ensures var s := v.shelves[c];
      var (p', a) := if NoneLeft(s) then Cluster(v.pool, ClusterSize(s.nextOrder), s.nextOrder, space, v.aggressive) else (v.pool, NULL);
      && CanMalloc(s, size, recycled, a)
      && var (s', ptr) := Served(s, size, recycled, a);
      && AfterReapMalloc(v, c, size, recycled, space) == (v.(pool := p', shelves := v.shelves[c := s']), ptr)
      && Composed(v.(pool := p', shelves := v.shelves[c := s']))
      && Recorded(v.shelves[c := s'], if a == NULL then sizes else sizes[a := size])
  {
    hide Recorded, NoneLeft, Cluster, Served;
    ClassesOf(v);
    SubheapSpace(v, c, size, recycled, space);
    ReapMallocLinked(v, c, size, recycled, space);
    var s := v.shelves[c];
    var o := s.nextOrder;
    var (p', a) := if NoneLeft(s) then Cluster(v.pool, ClusterSize(o), o, space, v.aggressive) else (v.pool, NULL);
    SoundPoolOf(v);
    if NoneLeft(s) {
      ClusterKeeps(v.pool, ClusterSize(o), o, space, v.aggressive);
    }
    hide Composed, SoundPool, CanMalloc, SoundShelf, ObjectAt, Live;
    RecordedAfter(v, sizes, c, size, recycled, a, Served(s, size, recycled, a).0);
  }

  /** The memory of every reap holds the object size of its heap. */
  ghost predicate Recorded(shelves: seq<Shelf>, sizes: map<int, nat>) {
    forall c: nat, a {:trigger InSubs(shelves, c, a)} :: InSubs(shelves, c, a) ==> a in sizes && sizes[a] == shelves[c].objectSize
  }

  lemma SizeKept(s: Shelf, size: nat, recycled: nat -> nat, a: nat)
    requires SoundShelf(s) && CanMalloc(s, size, recycled, a)
    ensures forall b :: b in s.subs ==> s.objectSize == size
  {
    NoSubs(s);
  }

  lemma RecordedAfter(v: Vam, sizes: map<int, nat>, c: nat, size: nat, recycled: nat -> nat, a: nat, s': Shelf)
    requires Composed(v) && Recorded(v.shelves, sizes) && c < |v.shelves| && SoundShelf(v.shelves[c])
    requires CanMalloc(v.shelves[c], size, recycled, a) && (a != NULL ==> NoneLeft(v.shelves[c]))
    requires s' == Served(v.shelves[c], size, recycled, a).0 && (a != NULL ==> a !in Live(v.pool))
    ensures Recorded(v.shelves[c := s'], if a == NULL then sizes else sizes[a := size])
  {
    hide Composed, SoundShelf, CanMalloc, Served, NoneLeft, Live;
    var s := v.shelves[c];
    var after := v.shelves[c := s'];
    ServedKeys(s, size, recycled, a);
    ServedSubs(s, size, recycled, a);
    SizeKept(s, size, recycled, a);
    forall d: nat, b | InSubs(after, d, b)
      ensures b == a && a != NULL ==> d == c && after[d].objectSize == size
      ensures b != a || a == NULL ==> b in sizes && sizes[b] == after[d].objectSize
    {
      if d != c {
        assert InSubs(v.shelves, d, b);
        if a != NULL {
          SubNotLow(v, d, b);
        }
      } else if b in s.subs {
        assert InSubs(v.shelves, c, b);
      }
    }
  }

  /** A heap of one size that was never used. */
  ghost predicate Unused(s: Shelf) {
    s.subs == map[] && s.objectSize == 0
  }

  lemma InitialComposed(v: Vam)
    requires SoundPool(v.pool) && |v.shelves| == CLASSES && v.blocks == B.Heap(map[], {}) && v.huge == map[]
    requires Live(v.pool) == iset{} && forall c :: 0 <= c < CLASSES ==> SoundShelf(v.shelves[c]) && Unused(v.shelves[c])
    ensures Composed(v) && (forall c: nat, a :: !InSubs(v.shelves, c, a)) && Recorded(v.shelves, map[])
  {
    hide SoundPool, SoundShelf, Live;
  }
}
