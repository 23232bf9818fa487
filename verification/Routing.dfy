/** Where the clusters of the partition heap lie, and what type `free` sees for the addresses in them. */
module Routing {
  import opened ObjectHeaders
  import opened ReapBases
  import opened ReapLayouts
  import opened Partitions
  import opened PartitionSteps
  import opened PartitionAllocation
  import opened PartitionFrames
  import opened Shelves

  const LOW_FREQ_TYPE := 0

  /** The type `free` sees for an address. */
  ghost predicate SeenType(p: Pool, x: int, t: nat) {
    0 <= PartitionOf(x) < |p.types| && p.types[PartitionOf(x)] == t
  }

  /** Clusters of up to a partition's size lie in subheaps that are one partition. */
  lemma RegularSubheap(h: Subheap, t: nat, q: nat)
    requires Shape(h, t, q) && h.clusterSize <= PARTITION_SIZE
    ensures h.size == PARTITION_SIZE
  {}

  lemma AlignedInside(h: Subheap, t: nat, q: nat, i: nat)
    requires Shape(h, t, q) && h.size == PARTITION_SIZE && i < h.clusters.count
    ensures h.clusterSize == ClusterSize(t) && 0 < h.clusterSize
    ensures Address(h.address, h.clusterSize, i) % h.clusterSize == 0 && 0 < Address(h.address, h.clusterSize, i)
  {
    WholePartitions(h, t, q);
    ClusterInside(h, t, q, i);
    hide Region, ClusterSize;
    AlignedAddress(h.address, h.clusterSize, h.clusters.count, h.address / PARTITION_SIZE, i);
  }

  lemma WholePartitions(h: Subheap, t: nat, q: nat)
    requires Shape(h, t, q) && h.size == PARTITION_SIZE
    ensures 0 < h.address && h.address == PARTITION_SIZE * (h.address / PARTITION_SIZE)
  {
    hide ClusterSize;
  }

  lemma AlignedAddress(base: int, size: nat, count: nat, k: int, i: nat)
    requires 0 < size && base == size * count * k
    ensures Address(base, size, i) % size == 0
  {
    var n := count * k + i;
    MulDistributes(size, count * k, i);
    MulAssociates(size, count, k);
    DivUnique(size * n, size, n, 0);
  }

  lemma MulAssociates(a: int, b: int, c: int)
    ensures a * (b * c) == a * b * c
  {}

  /** A cluster of type `t` >= 1 is aligned to its size: a region as a heap of one size needs it for a reap. */
  lemma ClusterHoldsReap(p: Pool, a: int, t: nat)
    requires SoundPool(p) && ObjectAt(p, a, ClusterSize(t), t) && 1 <= t
    ensures 0 < a && ReapRegion(a, t)
  {
    var q, i :| Held(p, a, q, i) && IsOf(p, q, t) && p.subheaps[q].clusterSize == ClusterSize(t);
    ShapeOf(p, q);
    hide SoundPool, ClusterSize;
    AlignedInside(p.subheaps[q], t, q, i);
    hide Shape;
    OrderSize(t);
    PageAligned(a, ClusterSize(t));
  }

  /** Every address inside a cluster of up to a partition's size has the cluster's type. */
  lemma InteriorType(p: Pool, a: int, size: nat, t: nat, x: int)
    requires SoundPool(p) && ObjectAt(p, a, size, t) && size <= PARTITION_SIZE && a <= x < a + size
    ensures SeenType(p, x, t)
  {
    var q, i :| Held(p, a, q, i) && IsOf(p, q, t) && p.subheaps[q].clusterSize == size;
    ShapeOf(p, q);
    RegularSubheap(p.subheaps[q], t, q);
    hide SoundPool, Shape, Held, PartitionOf;
    InteriorOwner(p, a, q, i, x);
  }

  /**
   * The region of a huge object is aligned to pages only. Yet its header and the object behind it are in the same
   * partition, the one that has an owner.
   */
  lemma HeaderType(p: Pool, g: int, size: nat, t: nat)
    requires SoundPool(p) && ObjectAt(p, g, size, t) && PARTITION_SIZE < size
    ensures SeenType(p, g + HEADER, t) && 0 < g
  {
    var q, i :| Held(p, g, q, i) && IsOf(p, q, t) && p.subheaps[q].clusterSize == size;
    ShapeOf(p, q);
    hide SoundPool;
    WholeRegion(p.subheaps[q], t, q, i, g);
    hide Shape, PartitionOf;
    SamePage(g);
  }

  lemma WholeRegion(h: Subheap, t: nat, q: nat, i: nat, g: int)
    requires Shape(h, t, q) && PARTITION_SIZE < h.clusterSize && i < h.clusters.count
    requires g == Address(h.address, h.clusterSize, i)
    ensures g == h.address && 0 < g && g % PAGE_SIZE == 0 && PartitionOf(g) == q
  {
    NotCut(h, t, q);
    OneCluster(h, t, q);
    FirstAddress(h.address, h.clusterSize);
  }

  lemma NotCut(h: Subheap, t: nat, q: nat)
    requires Shape(h, t, q) && PARTITION_SIZE < h.clusterSize
    ensures h.size != PARTITION_SIZE
  {
    hide Region, ClusterSize;
    if h.clusters.count >= 1 {
      MulMonotone(1, h.clusters.count, h.clusterSize);
    } else {
      assert h.clusterSize * 0 == 0;
    }
  }

  lemma SamePage(g: int)
    requires g % PAGE_SIZE == 0
    ensures PartitionOf(g + HEADER) == PartitionOf(g)
  {}

  /** A cluster newly allocated for the next subheap is what `createSubHeap` needs: aligned, and apart from the others. */
  lemma NewClusterIsFresh(p: Pool, s: Shelf, a: int)
    requires SoundPool(p) && 1 <= s.nextOrder && ObjectAt(p, a, ClusterSize(s.nextOrder), s.nextOrder)
    requires forall b :: b in s.subs ==> b != a && ObjectAt(p, b, ClusterSize(s.subs[b].order), s.subs[b].order)
    ensures 0 < a && FreshReap(s, a)
  {
    ClusterHoldsReap(p, a, s.nextOrder);
    hide SoundPool, ObjectAt, ClusterSize, ReapRegion;
    forall b | b in s.subs
      ensures Disjoint(a, ClusterSize(s.nextOrder), b, ClusterSize(s.subs[b].order))
    {
      ObjectsDisjoint(p, a, ClusterSize(s.nextOrder), s.nextOrder, b, ClusterSize(s.subs[b].order), s.subs[b].order);
    }
  }
}
