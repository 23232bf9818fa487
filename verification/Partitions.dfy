/** The bookkeeping of partitionheap.h as a value: every step the heap takes, and what all steps keep. */
module Partitions {
  import opened Sequences
  import opened ReapBases
  import opened ReapLayouts
  import opened ClusterLists

  const PARTITION_SIZE := 8 * 1024 * 1024
  const NUM_PARTITIONS := 512
  const ADDRESS_SPACE := 0x1_0000_0000
  const TYPES := MAX_PAGE_ORDER + 1
  const INVALID_TYPE := 0xFF

  datatype Status = Full | Available

  /** A page cluster heap on its region, with its entry in `_subheap_map`. `instance` is its place in the pool. */
  datatype Subheap = Subheap(address: int, size: nat, clusterSize: nat, clusters: Clusters, status: Status, instance: nat)

  /** The lists and the type map; `subheaps` are the used entries of `_subheap_map`. */
  datatype Pool = Pool(avai: seq<seq<nat>>, full: seq<seq<nat>>, types: seq<nat>, subheaps: map<nat, Subheap>, unused: seq<nat>)

  function PartitionOf(ptr: int): int {
    ptr / PARTITION_SIZE
  }

  /** What each type is asked for: whole partitions for objects with headers, PAGE_SIZE << (n - 1) for reaps. */
  function ClusterSize(t: nat): nat {
    if t == 0 then PARTITION_SIZE else PAGE_SIZE * Power2(t - 1)
  }

  predicate IsEmpty(h: Subheap) {
    |h.clusters.free| == h.clusters.count
  }

  ghost predicate Disjoint(a: int, m: int, b: int, n: int) {
    a + m <= b || b + n <= a
  }

  /** A region as the super heap gives it, in partition `q`. */
  ghost predicate Region(address: int, size: nat, q: nat) {
    && 0 < address && address % PAGE_SIZE == 0 && address + size <= ADDRESS_SPACE
    && PARTITION_SIZE <= size && PartitionOf(address) == q
  }

  /** A partition is cut into clusters of its type's size. A larger region is one cluster for a huge object, of type 0. */
  ghost predicate Divided(t: nat, address: int, size: nat, clusterSize: nat) {
    if size == PARTITION_SIZE then address % PARTITION_SIZE == 0 && clusterSize == ClusterSize(t)
    else t == 0 && clusterSize == size
  }

  ghost predicate Shape(h: Subheap, t: nat, q: nat) {
    && Region(h.address, h.size, q) && 0 < h.clusterSize && h.clusterSize * h.clusters.count == h.size
    && Sound(h.clusters) && (h.status.Full? ==> h.clusters.free == [])
    && Divided(t, h.address, h.size, h.clusterSize) && (h.size != PARTITION_SIZE ==> h.status.Full?)
  }

  ghost predicate IsA(p: Pool, q: nat, t: nat, status: Status) {
    q in p.subheaps && q < |p.types| && p.types[q] == t && p.subheaps[q].status == status
  }

  /** The lists of a type are its subheaps of either status. */
  ghost predicate Listed(p: Pool, t: nat)
    requires t < |p.avai| && t < |p.full|
  {
    && NoDuplicates(p.avai[t]) && (forall q: nat :: q in p.avai[t] <==> IsA(p, q, t, Available))
    && NoDuplicates(p.full[t]) && (forall q: nat :: q in p.full[t] <==> IsA(p, q, t, Full))
  }

  ghost predicate AllListed(p: Pool) {
    && |p.avai| == |p.full| == TYPES
    && forall t: nat {:trigger Listed(p, t)} :: t < TYPES ==> Listed(p, t)
  }

  /** The maps name at most one owner per partition, and the owner's region starts there. */
  ghost predicate Owned(p: Pool) {
    && |p.types| == NUM_PARTITIONS
    && (forall q: nat :: q < NUM_PARTITIONS && q !in p.subheaps ==> p.types[q] == INVALID_TYPE)
    && (forall q :: q in p.subheaps ==> q < NUM_PARTITIONS && p.types[q] < TYPES)
    && (forall q {:trigger p.subheaps[q]} :: q in p.subheaps && q < NUM_PARTITIONS ==> Shape(p.subheaps[q], p.types[q], q))
  }

  ghost predicate RegionsApart(p: Pool) {
    forall q, r :: q in p.subheaps && r in p.subheaps && q != r
      ==> Disjoint(p.subheaps[q].address, p.subheaps[q].size, p.subheaps[r].address, p.subheaps[r].size)
  }

  ghost predicate Instances(p: Pool) {
    && NoDuplicates(p.unused) && (forall u :: u in p.unused ==> u < NUM_PARTITIONS)
    && (forall q :: q in p.subheaps ==> p.subheaps[q].instance < NUM_PARTITIONS && p.subheaps[q].instance !in p.unused)
    && (forall q, r :: q in p.subheaps && r in p.subheaps && q != r ==> p.subheaps[q].instance != p.subheaps[r].instance)
    && |p.unused| + |p.subheaps| == NUM_PARTITIONS
  }

  ghost predicate EmptyOf(p: Pool, q: nat, t: nat) {
    q in p.subheaps && q < |p.types| && p.types[q] == t && IsEmpty(p.subheaps[q])
  }

  /** Each type keeps at most one empty subheap. */
  ghost predicate OneEmpty(p: Pool) {
    forall q, r, t :: EmptyOf(p, q, t) && EmptyOf(p, r, t) ==> q == r
  }

  ghost predicate SoundPool(p: Pool) {
    && |p.avai| == |p.full| == TYPES && |p.types| == NUM_PARTITIONS
    && AllListed(p) && Owned(p) && RegionsApart(p) && Instances(p) && OneEmpty(p)
  }

  /** `ptr` is the allocated cluster `i` of the subheap that starts in partition `q`. */
  ghost predicate Held(p: Pool, ptr: int, q: nat, i: nat) {
    && q in p.subheaps
    && var h := p.subheaps[q];
    i < h.clusters.count && i !in h.clusters.free && ptr == Address(h.address, h.clusterSize, i)
  }

  ghost predicate IsLive(p: Pool, ptr: int) {
    exists q, i :: Held(p, ptr, q, i)
  }

  /** The pointers handed out and not freed. */
  ghost function Live(p: Pool): iset<int> {
    iset ptr: int | IsLive(p, ptr)
  }

  // ---- recovering the owner of a pointer

  lemma ShapeOf(p: Pool, q: nat)
    requires SoundPool(p) && q in p.subheaps
    ensures q < NUM_PARTITIONS == |p.types| && p.types[q] < TYPES && Shape(p.subheaps[q], p.types[q], q)
  {
    hide Shape, AllListed, RegionsApart, Instances, OneEmpty;
    assert p.subheaps[q] == p.subheaps[q];
  }

  /** A cluster lies in its subheap's region. */
  lemma ClusterInside(h: Subheap, t: nat, q: nat, i: nat)
    requires Shape(h, t, q) && i < h.clusters.count
    ensures h.address <= Address(h.address, h.clusterSize, i)
    ensures Address(h.address, h.clusterSize, i) + h.clusterSize <= h.address + h.size
  {
    hide Region, Sound, ClusterSize;
    AddressOrder(h.address, h.clusterSize, i, h.clusters.count);
    assert h.clusterSize * i >= 0;
  }

  lemma OneCluster(h: Subheap, t: nat, q: nat)
    requires Shape(h, t, q) && h.size != PARTITION_SIZE
    ensures h.clusters.count == 1 && h.clusterSize == h.size
  {
    hide Region, Sound, ClusterSize;
    if h.clusters.count > 1 {
      MulMonotone(2, h.clusters.count, h.clusterSize);
    }
  }

  lemma SamePartition(a: int, x: int)
    requires a % PARTITION_SIZE == 0 && a <= x < a + PARTITION_SIZE
    ensures PartitionOf(x) == PartitionOf(a)
  {}

  lemma ClusterPartition(h: Subheap, t: nat, q: nat, i: nat, offset: nat)
    requires Shape(h, t, q) && i < h.clusters.count
    requires if h.size == PARTITION_SIZE then offset < h.clusterSize else offset == 0
    ensures PartitionOf(Address(h.address, h.clusterSize, i) + offset) == q
  {
    ClusterInside(h, t, q, i);
    hide Sound, ClusterSize, PartitionOf, Address;
    if h.size == PARTITION_SIZE {
      SamePartition(h.address, Address(h.address, h.clusterSize, i) + offset);
    } else {
      OneCluster(h, t, q);
      FirstAddress(h.address, h.clusterSize);
    }
  }

  lemma FirstAddress(base: int, size: nat)
    ensures Address(base, size, 0) == base
  {}

  /** A live pointer's partition is the one its subheap starts in, so the maps give back its type and its owner. */
  lemma OwnerFound(p: Pool, ptr: int, q: nat, i: nat)
    requires SoundPool(p) && Held(p, ptr, q, i)
    ensures PartitionOf(ptr) == q && q < NUM_PARTITIONS == |p.types| && p.types[q] < TYPES
    ensures 0 < p.subheaps[q].clusterSize
    ensures (ptr - p.subheaps[q].address) / p.subheaps[q].clusterSize == i
  {
    ShapeOf(p, q);
    var h := p.subheaps[q];
    hide SoundPool, PartitionOf, Address;
    ClusterPartition(h, p.types[q], q, i, 0);
    SlotOfAddress(h.address, h.clusterSize, i);
  }

  /** So does every address inside a regular cluster; the mask arithmetic of the reaps relies on it. */
  lemma InteriorOwner(p: Pool, ptr: int, q: nat, i: nat, x: int)
    requires SoundPool(p) && Held(p, ptr, q, i) && p.subheaps[q].size == PARTITION_SIZE
    requires ptr <= x < ptr + p.subheaps[q].clusterSize
    ensures PartitionOf(x) == q
  {
    ShapeOf(p, q);
    hide SoundPool, PartitionOf, Address, Shape;
    ClusterPartition(p.subheaps[q], p.types[q], q, i, x - ptr);
  }

  /** Clusters of different live pointers do not overlap. */
  lemma LiveDisjoint(p: Pool, ptr: int, q: nat, i: nat, ptr': int, r: nat, j: nat)
    requires SoundPool(p) && Held(p, ptr, q, i) && Held(p, ptr', r, j) && (q != r || i != j)
    ensures Disjoint(ptr, p.subheaps[q].clusterSize, ptr', p.subheaps[r].clusterSize)
  {
    ShapeOf(p, q);
    ShapeOf(p, r);
    assert RegionsApart(p);
    hide SoundPool, Shape, Address;
    ClusterInside(p.subheaps[q], p.types[q], q, i);
    ClusterInside(p.subheaps[r], p.types[r], r, j);
    if q == r {
      if i < j {
        AddressOrder(p.subheaps[q].address, p.subheaps[q].clusterSize, i, j);
      } else {
        AddressOrder(p.subheaps[q].address, p.subheaps[q].clusterSize, j, i);
      }
    }
  }

  /** Regions of at least a partition's size that start in the same partition overlap. */
  lemma OverlapInPartition(a: int, m: nat, b: int, n: nat)
    requires PARTITION_SIZE <= m && PARTITION_SIZE <= n && PartitionOf(a) == PartitionOf(b)
    ensures !Disjoint(a, m, b, n)
  {}

  /** A region the super heap may give: apart from those in use. */
  ghost predicate Unclaimed(p: Pool, address: int, size: nat) {
    forall q :: q in p.subheaps ==> Disjoint(address, size, p.subheaps[q].address, p.subheaps[q].size)
  }

  /** A new region starts in a partition without an owner. */
  lemma NewPartition(p: Pool, address: int, size: nat, q: nat)
    requires SoundPool(p) && Region(address, size, q) && Unclaimed(p, address, size)
    ensures q < NUM_PARTITIONS && q !in p.subheaps
  {
    if q in p.subheaps {
      ShapeOf(p, q);
      OverlapInPartition(address, size, p.subheaps[q].address, p.subheaps[q].size);
    }
  }

  /** The pool runs out only when no region is left: 512 subheaps start in every partition there is. */
  lemma PoolSuffices(p: Pool, address: int, size: nat, q: nat)
    requires SoundPool(p) && Region(address, size, q) && Unclaimed(p, address, size)
    ensures p.unused != []
  {
    NewPartition(p, address, size, q);
    var owned := p.subheaps.Keys;
    hide AllListed, RegionsApart, OneEmpty, Shape, Region, Unclaimed;
    SubsetSize(owned, UpTo(NUM_PARTITIONS), q);
  }

  lemma SubsetSize(a: set<nat>, b: set<nat>, x: nat)
    requires a <= b && x in b && x !in a
    ensures |a| < |b|
  {
    SubsetSizes(a, b - {x});
  }
}
