/** twoheap.h: regular objects come from chunks, larger ones from regions of their own. */
module TwoHeaps {
  import opened IntrusiveLists
  import opened ObjectHeaders
  import opened SegFitLists
  import opened BoundaryTags
  import opened HeaderTags
  import opened SplitCoalesce
  import opened ReapLayouts
  import opened Partitions

  /** Arithmetic on `size_t`. */
  function Wrap(x: nat): nat {
    x % ADDRESS_SPACE
  }

  /** The size of the region for a huge object and its header. */
  function HugeSize(size: nat): nat {
    var h := Wrap(size + HEADER);
    if h <= PARTITION_SIZE then PARTITION_SIZE + PAGE_SIZE
    else Wrap(h + PAGE_SIZE - 1) / PAGE_SIZE * PAGE_SIZE
  }

  /** A huge region is page-aligned, more than a partition, and less than a page larger than it has to be. */
  lemma HugeSizeShape(size: nat)
    requires MAX_OBJECT_SIZE < size < ADDRESS_SPACE - HEADER - PAGE_SIZE + 1
    ensures HugeSize(size) % PAGE_SIZE == 0 && PARTITION_SIZE < HugeSize(size)
    ensures size + HEADER <= HugeSize(size)
    ensures HugeSize(size) < size + HEADER + PAGE_SIZE || HugeSize(size) == PARTITION_SIZE + PAGE_SIZE
  {}

  /** Near the end of the address space the size wraps around, and only there the region is too small for the object. */
  lemma HugeSizeSuffices(size: nat)
    requires MAX_OBJECT_SIZE < size < ADDRESS_SPACE
    ensures size + HEADER <= HugeSize(size) <==> size <= ADDRESS_SPACE - HEADER - PAGE_SIZE
  {
    if size <= ADDRESS_SPACE - HEADER - PAGE_SIZE {
      HugeSizeShape(size);
    }
  }

  lemma HugeSizeWraps()
    ensures HugeSize(ADDRESS_SPACE - 1) == PARTITION_SIZE + PAGE_SIZE
  {}

  /** A live huge object: its header holds the size asked for, and its region overlaps no chunk. */
  ghost predicate HugeBlock(bases: set<int>, hd: Headers, g: int, size: nat) {
    && 0 < g && MAX_OBJECT_SIZE < size < ADDRESS_SPACE && g in hd.size && hd.size[g] == size
    && Beside(bases, g, size)
  }

  ghost predicate Beside(bases: set<int>, g: int, size: nat) {
    HEADER <= HugeSize(size) && forall b :: b in bases ==> Disjoint(g, HugeSize(size), b, CHUNK)
  }

  ghost predicate HugeBlocks(bases: set<int>, hd: Headers, huge: map<int, nat>) {
    forall g {:trigger HugeBlock(bases, hd, g, huge[g])} :: g in huge ==> HugeBlock(bases, hd, g, huge[g])
  }

  ghost predicate HugeApart(huge: map<int, nat>) {
    forall g, k :: g in huge && k in huge && g != k ==> Disjoint(g, HugeSize(huge[g]), k, HugeSize(huge[k]))
  }

  /** A header outside the chunks can be written without touching the regular heap. */
  lemma WriteOutside(v: View, bases: set<int>, hd: Headers, lists: Lists, g: int, size: int)
    requires Tiled(v, bases) && Tagged(v, bases, hd) && Sized(lists, hd.size) && FreeListed(v, Members(lists))
    requires Outside(bases, g)
    ensures var hd' := hd.(size := hd.size[g := size]);
      Tagged(v, bases, hd') && Sized(lists, hd'.size)
  {
    var hd' := hd.(size := hd.size[g := size]);
    forall h | h in v
      ensures h != g
    {
      BlockInside(v, bases, h);
    }
    forall h | h in v
      ensures TaggedBlock(v, hd', h)
    {
      assert TaggedBlock(v, hd, h);
    }
    forall b | b in bases
      ensures TaggedChunk(hd', b)
    {
      assert TaggedChunk(hd, b);
    }
    forall x | x in Members(lists)
      ensures x - HEADER in hd'.size && SizeOf(hd'.size, x) == SizeOf(hd.size, x)
    {
      assert IsFreeObject(v, x) && TaggedBlock(v, hd, x - HEADER);
    }
    SizedFrame(lists, hd.size, hd'.size);
  }

  lemma HugeKept(bases: set<int>, bases': set<int>, hd: Headers, hd': Headers, huge: map<int, nat>)
    requires HugeBlocks(bases, hd, huge) && SizesKept(hd, hd', bases')
    requires forall g :: g in huge ==> Beside(bases', g, huge[g])
    ensures HugeBlocks(bases', hd', huge)
  {
    forall g | g in huge
      ensures HugeBlock(bases', hd', g, huge[g])
    {
      assert HugeBlock(bases, hd, g, huge[g]);
      assert Beside(bases', g, huge[g]);
      assert Outside(bases', g);
    }
  }

  /** A regular block's header never says more than MAX_OBJECT_SIZE. */
  lemma RegularSize(v: View, bases: set<int>, hd: Headers, h: int)
    requires Tiled(v, bases) && Tagged(v, bases, hd) && h in v
    ensures h in hd.size && hd.size[h] <= MAX_OBJECT_SIZE
  {
    assert Placed(v, bases, h) && TaggedBlock(v, hd, h);
  }

  class TwoHeap {
    const regular: SplitCoalesceHeap
    // the requested sizes of the live huge objects, by their headers
    ghost var huge: map<int, nat>

    ghost predicate Valid()
      reads this, regular, regular.mem, regular.seg, regular.seg.store, regular.seg.counter, regular.seg.bitmap
    {
      && regular.Valid() && HugeBlocks(regular.bases, regular.mem.hd, huge) && HugeApart(huge)
    }

    constructor ()
      ensures Valid() && huge == map[] && regular.view == map[] && regular.bases == {}
      ensures fresh(regular) && fresh(regular.mem) && fresh(regular.seg)
      ensures fresh(regular.seg.store) && fresh(regular.seg.counter) && fresh(regular.seg.bitmap)
    {
      regular := new SplitCoalesceHeap();
      huge := map[];
    }

    /** A regular request; `chunk` as in `SplitCoalesceHeap.Malloc`, beside the huge regions. */
    method MallocRegular(size: nat, chunk: int) returns (ptr: int)
      requires Valid() && 8 <= size <= MAX_OBJECT_SIZE && size % 8 == 0
      requires chunk == NULL || (0 < chunk && chunk % 8 == 0 && Apart(regular.bases, chunk))
      requires chunk != NULL ==> forall g :: g in huge ==> Disjoint(g, HugeSize(huge[g]), chunk, CHUNK)
      modifies regular`view, regular`bases, regular.mem, regular.seg`lists, regular.seg.store, regular.seg.counter, regular.seg.bitmap
      ensures Valid() && (ptr == NULL <==> !Fits(old(regular.view), size) && chunk == NULL)
      ensures if Fits(old(regular.view), size) then
          && BestFit(old(regular.view), ptr - HEADER, size)
          && regular.view == Allocate(old(regular.view), ptr - HEADER, size) && regular.bases == old(regular.bases)
        else if chunk == NULL then
          ptr == NULL && regular.view == old(regular.view) && regular.bases == old(regular.bases)
        else
          && ptr == chunk + 2 * HEADER && regular.bases == old(regular.bases) + {chunk}
          && regular.view == Allocate(NewChunk(old(regular.view), chunk), chunk + HEADER, size)
    {
      ghost var bases, hd := regular.bases, regular.mem.hd;
      ptr := regular.Malloc(size, chunk);
      ghost var bases' := regular.bases;
      assert forall b :: b in bases' ==> b in bases || b == chunk;
      forall g | g in huge
        ensures Beside(bases', g, huge[g])
      {
        assert HugeBlock(bases, hd, g, huge[g]);
      }
      HugeKept(bases, bases', hd, regular.mem.hd, huge);
    }

    /** A huge request; `region` is what the next heap returns for `HugeSize(size)`. */
    method MallocHuge(size: nat, region: int) returns (ptr: int)
      requires Valid() && MAX_OBJECT_SIZE < size < ADDRESS_SPACE
      requires region != NULL ==> 0 < region && Beside(regular.bases, region, size)
      requires region != NULL ==> forall g :: g in huge ==> Disjoint(g, HugeSize(huge[g]), region, HugeSize(size))
      modifies this`huge, regular.mem
      ensures Valid() && ptr == if region == NULL then NULL else region + HEADER
      ensures huge == if region == NULL then old(huge) else old(huge)[region := size]
    {
      ptr := NULL;
      if region != NULL {
        ghost var hd := regular.mem.hd;
        WriteOutside(regular.view, regular.bases, hd, regular.seg.lists, region, size);
        NewHuge(regular.bases, hd, huge, region, size);
        regular.mem.WriteSize(region, size);
        huge := huge[region := size];
        ptr := region + HEADER;
      }
    }

    /**
     * `free` decides by the size in the header. A huge region goes back to the next heap: `released` is its address,
     * NULL if the object was regular.
     */
    method Free(ptr: int) returns (released: int)
      requires Valid()
      requires ptr - HEADER in huge || (ptr - HEADER in regular.view && !regular.view[ptr - HEADER].free)
      modifies this`huge, regular`view, regular.mem, regular.seg`lists, regular.seg.store, regular.seg.counter, regular.seg.bitmap
      ensures Valid() && regular.bases == old(regular.bases)
      ensures ptr - HEADER in old(huge) ==>
        released == ptr - HEADER && huge == old(huge) - {ptr - HEADER} && regular.view == old(regular.view)
      ensures ptr - HEADER !in old(huge) ==>
        released == NULL && huge == old(huge) && regular.view == Release(old(regular.view), ptr - HEADER)
    {
      var header := ptr - HEADER;
      ghost var hd := regular.mem.hd;
      if header in huge {
        assert HugeBlock(regular.bases, hd, header, huge[header]);
      } else {
        RegularSize(regular.view, regular.bases, hd, header);
      }
      if regular.mem.hd.size[header] <= MAX_OBJECT_SIZE {
        released := NULL;
        regular.Free(ptr);
        forall g | g in huge
          ensures Beside(regular.bases, g, huge[g])
        {
          assert HugeBlock(regular.bases, hd, g, huge[g]);
        }
        HugeKept(regular.bases, regular.bases, hd, regular.mem.hd, huge);
      } else {
        released := header;
        huge := huge - {header};
      }
    }
  }

  lemma NewHuge(bases: set<int>, hd: Headers, huge: map<int, nat>, g: int, size: nat)
    requires HugeBlocks(bases, hd, huge) && HugeApart(huge)
    requires 0 < g && MAX_OBJECT_SIZE < size < ADDRESS_SPACE && Beside(bases, g, size)
    requires forall k :: k in huge ==> Disjoint(k, HugeSize(huge[k]), g, HugeSize(size))
    ensures Outside(bases, g)
    ensures HugeBlocks(bases, hd.(size := hd.size[g := size]), huge[g := size]) && HugeApart(huge[g := size])
  {
    var hd', huge' := hd.(size := hd.size[g := size]), huge[g := size];
    forall k | k in huge'
      ensures HugeBlock(bases, hd', k, huge'[k])
    {
      if k != g {
        assert HugeBlock(bases, hd, k, huge[k]);
      }
    }
  }
}
