/** When a request is served: what `malloc` finds in the layers below. */
module VamSupply {
  import opened IntrusiveLists
  import opened ReapLayouts
  import opened Partitions
  import opened PartitionAllocation
  import opened PartitionFrames
  import opened Shelves
  import opened OneSizeHeaps
  import opened FrequencyHeaps
  import opened TwoHeaps
  import opened Routing
  import opened VamStates
  import opened VamRouting
  import B = BoundaryTags
  import SplitCoalesce

  /** The partition heap can be asked for what a request to the heaps with headers may need. */
  ghost predicate LowSupplied(v: Vam, size: nat, space: int) {
    && 8 <= size < ADDRESS_SPACE && size % 8 == 0
    && if size <= B.MAX_OBJECT_SIZE then
         !SplitCoalesce.Fits(v.blocks.view, size) ==> CanAllocate(v.pool, PARTITION_SIZE, LOW_FREQ_TYPE, space)
       else PARTITION_SIZE < HugeSize(size) && CanAllocate(v.pool, HugeSize(size), LOW_FREQ_TYPE, space)
  }

  lemma RequestSize(v: Vam, size: nat, space: int)
    requires LowSupplied(v, size, space)
    ensures 8 <= size < ADDRESS_SPACE && size % 8 == 0 && (size <= MAX_FREQ_SIZE ==> SizeIndex(size) < CLASSES)
  {}

  // ---- when the layers have nothing

  /** The reaps of the class have a free slot, or a cluster for a further reap can be had. */
  ghost predicate ReapsServe(v: Vam, c: nat) {
    && c < |v.shelves|
    && var s := v.shelves[c];
    !NoneLeft(s) || !NoCluster(v.pool, ClusterSize(s.nextOrder), s.nextOrder)
  }

  /** The heaps with headers serve the request: from a free block, from a new chunk or with a region of its own. */
  ghost predicate LowServes(v: Vam, size: nat) {
    if size <= B.MAX_OBJECT_SIZE then SplitCoalesce.Fits(v.blocks.view, size) || !NoCluster(v.pool, PARTITION_SIZE, LOW_FREQ_TYPE)
    else v.pool.unused != []
  }

  /** A frequent request is refused by the reaps exactly if they cannot serve it, which changes nothing for the others. */
  lemma ReapsRefuse(v: Vam, c: nat, size: nat, recycled: nat -> nat, space: int)
    requires Composed(v) && c < CLASSES && CanServe(v, c, size, recycled, space) && 8 <= size
    ensures var (v', ptr) := AfterReapMalloc(v, c, size, recycled, space);
      && (ptr == NULL <==> !ReapsServe(v, c))
      && (ptr == NULL ==> v'.blocks == v.blocks && SameClusters(v.pool, v'.pool) && v.pool.unused == [])
  {
    ClassesOf(v);
    SubheapSpace(v, c, size, recycled, space);
    SoundPoolOf(v);
    hide Composed, SoundShelf, Served, SoundPool, CanAllocate, NoneLeft, NoCluster, SameClusters, Cluster, LayoutOf, FreshReap;
    var s := v.shelves[c];
    var o := s.nextOrder;
    var a := if NoneLeft(s) then Cluster(v.pool, ClusterSize(o), o, space, v.aggressive).1 else NULL;
    ServedSound(s, size, recycled, a);
    if NoneLeft(s) {
      AllocationRefused(v.pool, ClusterSize(o), o, space, v.aggressive);
      if a != NULL {
        RoomInCluster(s, a, size);
      }
    }
  }

  lemma RoomInCluster(s: Shelf, a: nat, size: nat)
    requires FreshReap(s, a) && 8 <= size <= MAX_DEDICATED_SIZE
    ensures LayoutOf(a, s.nextOrder, size).total >= 3
  {
    OrderSize(s.nextOrder);
    SeveralSlots(a, ClusterSize(s.nextOrder), size);
  }

  /** A request that the reaps refused stands with the heaps with headers as it did before. */
  lemma SameSupply(v: Vam, v': Vam, size: nat, space: int)
    requires v'.blocks == v.blocks && SameClusters(v.pool, v'.pool) && v.pool.unused == [] && LowSupplied(v, size, space)
    ensures LowSupplied(v', size, space) && (LowServes(v', size) <==> LowServes(v, size))
  {
    hide SameClusters, NoCluster, SplitCoalesce.Fits, HugeSize, ClusterSize;
    SameNeeds(v.pool, v'.pool, PARTITION_SIZE, LOW_FREQ_TYPE);
    SameUnused(v.pool, v'.pool);
  }

  /** What a frequent request does before the heaps with headers are tried. */
  lemma SmallStep(v: Vam, c: nat, size: nat, recycled: nat -> nat, space: int)
    requires Composed(v) && c < CLASSES && CanServe(v, c, size, recycled, space) && LowSupplied(v, size, space)
    ensures Enabled(v, ReapMalloc(c, size, recycled, space))
    ensures After(v, ReapMalloc(c, size, recycled, space)) == AfterReapMalloc(v, c, size, recycled, space)
    ensures var (v', ptr) := AfterReapMalloc(v, c, size, recycled, space);
      && (ptr == NULL <==> !ReapsServe(v, c))
      && (ptr == NULL ==> LowSupplied(v', size, space) && (LowServes(v', size) <==> LowServes(v, size)))
  {
    ClassesOf(v);
    hide Composed, ReapsServe, LowServes, LowSupplied, SameClusters, CanServe, AfterReapMalloc;
    RequestSize(v, size, space);
    ReapsRefuse(v, c, size, recycled, space);
    var (v', ptr) := AfterReapMalloc(v, c, size, recycled, space);
    if ptr == NULL {
      SameSupply(v, v', size, space);
    }
  }

  /** A regular object is refused exactly if no block fits and no chunk can be had. */
  lemma BlockRefused(v: Vam, size: nat, h: int, space: int)
    requires Composed(v) && CanPlace(v, size, h, space)
    ensures AfterBlockMalloc(v, size, h, space).1 == NULL <==> !LowServes(v, size)
  {
    hide Composed, CanAllocate, SoundPool, SplitCoalesce.Fits, NoCluster, SameClusters;
    SoundPoolOf(v);
    if SplitCoalesce.Fits(v.blocks.view, size) {
      BlockShape(v, size, h, space);
    } else {
      AllocationRefused(v.pool, PARTITION_SIZE, LOW_FREQ_TYPE, space, v.aggressive);
    }
  }

  /** A huge object is refused exactly if no further subheap can be had. */
  lemma HugeRefused(v: Vam, size: nat, space: int)
    requires Composed(v) && Enabled(v, HugeMalloc(size, space))
    ensures AfterHugeMalloc(v, size, space).1 == NULL <==> !LowServes(v, size)
  {
    hide Composed, CanAllocate, SoundPool, HugeSize, SameClusters;
    SoundPoolOf(v);
    AllocationRefused(v.pool, HugeSize(size), LOW_FREQ_TYPE, space, v.aggressive);
  }

  lemma BlockStep(v: Vam, size: nat, h: int, space: int)
    requires Composed(v) && CanPlace(v, size, h, space)
    ensures Enabled(v, BlockMalloc(size, h, space))
    ensures After(v, BlockMalloc(size, h, space)) == AfterBlockMalloc(v, size, h, space)
    ensures AfterBlockMalloc(v, size, h, space).1 != NULL <==> LowServes(v, size)
  {
    hide Composed, CanPlace, LowServes, AfterBlockMalloc;
    BlockRefused(v, size, h, space);
  }

  lemma LargeStep(v: Vam, size: nat, space: int)
    requires Composed(v) && LowSupplied(v, size, space) && B.MAX_OBJECT_SIZE < size
    ensures Enabled(v, HugeMalloc(size, space)) && After(v, HugeMalloc(size, space)) == AfterHugeMalloc(v, size, space)
    ensures AfterHugeMalloc(v, size, space).1 != NULL <==> LowServes(v, size)
  {
    hide Composed, LowServes, AfterHugeMalloc, CanAllocate, HugeSize;
    HugeRefused(v, size, space);
  }
}
