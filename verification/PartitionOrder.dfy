/** Which subheap serves a request of partitionheap.h, and what becomes of the subheap of a freed cluster. */
module PartitionOrder {
  import opened IntrusiveLists
  import opened Sequences
  import opened ReapBases
  import opened ClusterLists
  import opened Partitions
  import opened PartitionSteps
  import opened PartitionAllocation
  import opened PartitionFrames

  /** The first subheap of the available list that has a free cluster. */
  ghost predicate FirstWithCluster(p: Pool, t: nat, k: nat) {
    && t < |p.avai| && k < |p.avai[t]| && p.avai[t][k] in p.subheaps && p.subheaps[p.avai[t][k]].clusters.free != []
    && forall j :: 0 <= j < k ==> p.avai[t][j] in p.subheaps && p.subheaps[p.avai[t][j]].clusters.free == []
  }

  lemma SearchStep(p: Pool, t: nat)
    requires SoundPool(p) && t < TYPES && p.avai[t] != []
    ensures |p.avai| == |p.full| == TYPES && p.avai[t][0] in p.subheaps
    ensures p.subheaps[p.avai[t][0]].clusters.free != [] ==> Searched(p, t) == p
    ensures p.subheaps[p.avai[t][0]].clusters.free == [] ==>
      var p' := Retire(p, t, p.avai[t][0]);
      |p'.avai| == TYPES && p'.unused == p.unused && SoundPool(p') && Searched(p, t) == Searched(p', t) && |p'.avai[t]| < |p.avai[t]|
  {
    HeadListed(p, t);
    NoDuplicatesOf(p, t);
    WithoutHead(p.avai[t]);
    if p.subheaps[p.avai[t][0]].clusters.free == [] {
      RetireSound(p, t, p.avai[t][0]);
    }
  }

  /** The search drops from the available list what comes before the first subheap with a free cluster, and no more. */
  lemma {:induction false} SearchedOrder(p: Pool, t: nat) returns (k: nat)
    requires SoundPool(p) && t < TYPES
    ensures |p.avai| == TYPES && k <= |p.avai[t]| && Searched(p, t).avai == p.avai[t := p.avai[t][k..]]
    ensures if Searched(p, t).avai[t] != [] then FirstWithCluster(p, t, k) else k == |p.avai[t]|
    decreases |p.avai[t]|
  {
    hide SoundPool, Retire, Searched, SameClusters, FirstWithCluster;
    PoolTypes(p);
    if p.avai[t] == [] {
      k := 0;
      SearchedNone(p, t);
    } else {
      SearchStep(p, t);
      if p.subheaps[p.avai[t][0]].clusters.free != [] {
        k := 0;
        assert FirstWithCluster(p, t, 0) by {
          FirstIsFirst(p, t);
        }
      } else {
        RetiredHead(p, t);
        var p' := Retire(p, t, p.avai[t][0]);
        var rest := SearchedOrder(p', t);
        k := rest + 1;
        assert p'.avai[t][rest..] == p.avai[t][k..];
        if rest < |p'.avai[t]| {
          LaterCluster(p, p', t, rest);
        }
      }
    }
  }

  lemma SearchedNone(p: Pool, t: nat)
    requires SoundPool(p) && t < TYPES && |p.avai| == TYPES && p.avai[t] == []
    ensures Searched(p, t) == p
  {}

  lemma FirstIsFirst(p: Pool, t: nat)
    requires t < |p.avai| && p.avai[t] != [] && p.avai[t][0] in p.subheaps && p.subheaps[p.avai[t][0]].clusters.free != []
    ensures FirstWithCluster(p, t, 0)
  {}

  lemma RetiredHead(p: Pool, t: nat)
    requires SoundPool(p) && t < TYPES && p.avai[t] != [] && p.avai[t][0] in p.subheaps
    ensures |p.avai| == |p.full| == TYPES && var p' := Retire(p, t, p.avai[t][0]);
      p'.avai == p.avai[t := p.avai[t][1..]] && SameClusters(p, p')
  {
    NoDuplicatesOf(p, t);
    SearchedOnce(p, t, p.avai[t][0]);
    hide SoundPool, SameClusters;
    WithoutHead(p.avai[t]);
    assert [] + p.avai[t][1..] == p.avai[t][1..];
  }

  lemma LaterCluster(p: Pool, p': Pool, t: nat, k: nat)
    requires t < |p.avai| && p.avai[t] != [] && p'.avai == p.avai[t := p.avai[t][1..]] && SameClusters(p, p')
    requires FirstWithCluster(p', t, k) && p.avai[t][0] in p.subheaps && p.subheaps[p.avai[t][0]].clusters.free == []
    ensures FirstWithCluster(p, t, k + 1)
  {
    assert p.avai[t][k + 1] == p'.avai[t][k];
    forall j | 0 <= j < k + 1
      ensures p.avai[t][j] in p.subheaps && p.subheaps[p.avai[t][j]].clusters.free == []
    {
      if j > 0 {
        assert p.avai[t][j] == p'.avai[t][j - 1];
      }
    }
  }

  // ---- malloc

  /** The subheap at place `k` hands out the head of its free list; those before it leave the available list. */
  ghost predicate TakenAt(p: Pool, p': Pool, t: nat, k: nat, ptr: int)
    requires t < |p.avai| && k < |p.avai[t]|
  {
    var q := p.avai[t][k];
    && p'.avai == p.avai[t := p.avai[t][k..]] && p'.types == p.types && p'.unused == p.unused
    && q in p.subheaps && p'.subheaps.Keys == p.subheaps.Keys && p.subheaps[q].clusters.free != []
    && ptr == Address(p.subheaps[q].address, p.subheaps[q].clusterSize, p.subheaps[q].clusters.free[0])
    && SameRegion(p.subheaps[q], p'.subheaps[q]) && p'.subheaps[q].clusters.free == p.subheaps[q].clusters.free[1..]
    && forall r :: r in p.subheaps && r != q ==> p'.subheaps[r].clusters == p.subheaps[r].clusters
  }

  /** A further subheap takes the region and an instance. A regular one is the only one available, a huge one is full. */
  ghost predicate CreatedAt(p: Pool, p': Pool, size: nat, t: nat, space: int) {
    var q := PartitionOf(space);
    && 0 <= q < |p.types| && t < |p.avai| == |p'.avai| && t < |p.full| == |p'.full|
    && q !in p.subheaps && p'.subheaps.Keys == p.subheaps.Keys + {q}
    && p.unused != [] && p'.unused == p.unused[1..] && p'.types == p.types[q := t]
    && var h := p'.subheaps[q];
    && h.address == space && h.clusterSize == size && h.instance == p.unused[0] && 0 !in h.clusters.free
    && (forall i: nat :: 0 < i < h.clusters.count ==> i in h.clusters.free)
    && if size <= PARTITION_SIZE then h.size == PARTITION_SIZE && h.status == Available && p'.avai[t] == [q]
       else h.size == size && h.status == Full && p'.full[t] == [q] + p.full[t] && p'.avai == p.avai
  }

  /** Which subheap serves a request. */
  ghost predicate AllocatedInOrder(p: Pool, p': Pool, size: nat, t: nat, space: int, ptr: int) {
    if !NeedsRegion(p, size, t) then exists k: nat :: FirstWithCluster(p, t, k) && TakenAt(p, p', t, k, ptr)
    else if p.unused == [] then ptr == NULL && SameClusters(p, p')
    else ptr == space && CreatedAt(p, p', size, t, space)
  }

  lemma AllocatedOrder(p: Pool, size: nat, t: nat, space: int, aggressive: bool)
    requires SoundPool(p) && CanAllocate(p, size, t, space)
    ensures var (p', ptr) := Allocated(p, size, t, space, aggressive); AllocatedInOrder(p, p', size, t, space, ptr)
  {
    hide SoundPool, SameClusters, Created, TakeFrom, FreshRegion, Live, IsA, FirstWithCluster, TakenAt, CreatedAt, Searched;
    hide NeedsRegion, Address;
    CandidatesSame(p, size, t, space);
    var s := Candidates(p, size, t);
    SameUnused(p, s);
    if size <= PARTITION_SIZE && s.avai[t] != [] {
      var k := SearchedOrder(p, t);
      HeadAt(p, s, t, k);
      TakenOrder(p, s, t, k);
    } else if s.unused != [] {
      CreatedOrder(p, s, size, t, space, aggressive);
    }
  }

  lemma HeadAt(p: Pool, s: Pool, t: nat, k: nat)
    requires t < |p.avai| && FirstWithCluster(p, t, k) && s.avai == p.avai[t := p.avai[t][k..]] && SameClusters(p, s)
    ensures s.avai[t] != [] && s.avai[t][0] == p.avai[t][k] && p.avai[t][k] in s.subheaps
    ensures s.subheaps[p.avai[t][k]].clusters.free != []
  {}

  lemma TakenOrder(p: Pool, s: Pool, t: nat, k: nat)
    requires t < |p.avai| && FirstWithCluster(p, t, k) && s.avai == p.avai[t := p.avai[t][k..]] && SameClusters(p, s)
    requires p.avai[t][k] in s.subheaps && s.subheaps[p.avai[t][k]].clusters.free != []
    ensures var q := p.avai[t][k];
      TakenAt(p, TakeFrom(s, q), t, k, Address(s.subheaps[q].address, s.subheaps[q].clusterSize, s.subheaps[q].clusters.free[0]))
  {
    hide Address;
  }

  lemma CreatedOrder(p: Pool, s: Pool, size: nat, t: nat, space: int, aggressive: bool)
    requires SoundPool(p) && SoundPool(s) && ValidRequest(size, t) && FreshRegion(s, space, size) && s.unused != []
    requires SameClusters(p, s) && if size <= PARTITION_SIZE then s.avai[t] == [] else s == p
    ensures CreatedAt(p, Created(s, size, t, space, aggressive), size, t, space)
  {
    hide SoundPool, Region, Shape, PartitionOf, Unclaimed, ClusterSize, Claim, CreatedAt, SameClusters, NewSubheap;
    FreshIsClaimable(s, t, space, size);
    var q := PartitionOf(space);
    NewPartition(s, space, RegionSize(size), q);
    NewAbsent(s, t, q);
    PoolTypes(p);
    PoolTypes(s);
    NewShape(t, q, space, RegionSize(size), size, aggressive, s.unused[0]);
    ClaimedAt(p, s, t, space, size, aggressive);
  }

  lemma ClaimedAt(p: Pool, s: Pool, t: nat, space: int, size: nat, aggressive: bool)
    requires 0 <= PartitionOf(space) < |s.types| && s.unused != [] && 0 < size
    requires t < |p.avai| == |p.full| && |s.avai| == |s.full| == |p.avai|
    requires var q := PartitionOf(space); q !in s.avai[t] && q !in s.full[t] && q !in s.subheaps
    requires SameClusters(p, s) && if size <= PARTITION_SIZE then s.avai[t] == [] else s == p
    requires var h := NewSubheap(space, RegionSize(size), size, aggressive, s.unused[0]);
      && h.clusters.free != [] && h.clusters.free[0] == 0
      && forall i: nat :: i in TakeHead(h.clusters).free <==> 0 < i < TakeHead(h.clusters).count
    ensures CreatedAt(p, Claim(s, t, space, RegionSize(size), size, aggressive), size, t, space)
  {
    hide PartitionOf, Initial, TakeHead;
    var q := PartitionOf(space);
    WithoutAbsent(s.avai[t], q);
    WithoutAbsent(s.full[t], q);
    assert [] + s.avai[t] == s.avai[t];
    assert s.avai[t := s.avai[t]] == s.avai;
  }

  lemma NewAbsent(p: Pool, t: nat, q: nat)
    requires SoundPool(p) && t < TYPES && q !in p.subheaps
    ensures |p.avai| == |p.full| == TYPES && q !in p.avai[t] && q !in p.full[t]
  {
    ListedOf(p, t);
    PoolTypes(p);
    hide SoundPool;
    assert !IsA(p, q, t, Available) && !IsA(p, q, t, Full);
  }

  lemma PoolTypes(p: Pool)
    requires SoundPool(p)
    ensures |p.avai| == |p.full| == TYPES && |p.types| == NUM_PARTITIONS
  {}

  // ---- free

  /** Cluster `i` is the only one of the subheap that is allocated. */
  ghost predicate OnlyCluster(h: Subheap, i: nat) {
    forall j: nat :: j < h.clusters.count ==> j == i || j in h.clusters.free
  }

  /** The subheap is destroyed with its last cluster, unless it is the only one available; else it is available afterwards. */
  ghost predicate FreedInOrder(p: Pool, p': Pool, t: nat, q: nat, i: nat) {
    && q in p.subheaps && q < |p.types| && t < |p.avai| && t < |p.full|
    && var h := p.subheaps[q];
    && (q !in p'.subheaps <==> OnlyCluster(h, i) && p.avai[t] != [q])
    && (q !in p'.subheaps ==>
        && p'.subheaps == p.subheaps - {q} && p'.types == p.types[q := INVALID_TYPE] && p'.unused == [h.instance] + p.unused)
    && (q in p'.subheaps ==>
        && p'.subheaps == p.subheaps[q := p'.subheaps[q]] && p'.types == p.types && p'.unused == p.unused
        && SameRegion(h, p'.subheaps[q]) && p'.subheaps[q].clusters.free == [i] + h.clusters.free
        && p'.subheaps[q].status == Available
        && if h.status.Full? then p'.avai == p.avai[t := [q] + p.avai[t]] else p'.avai == p.avai && p'.full == p.full)
  }

  lemma FreedOrder(p: Pool, t: nat, q: nat, i: nat, ptr: int)
    requires SoundPool(p) && Held(p, ptr, q, i) && q < |p.types| && t == p.types[q]
    ensures t < TYPES && |p.avai| == |p.full| == TYPES && FreedInOrder(p, Freed(p, t, q, i), t, q, i)
  {
    hide SoundPool, Shape, OnlyCluster, IsA, Address, FreedInOrder, Freed;
    ShapeOf(p, q);
    PoolTypes(p);
    EmptiedBy(p.subheaps[q], t, q, i);
    if p.subheaps[q].status.Full? {
      FullAbsent(p, t, q);
    }
    FreedAt(p, t, q, i);
  }

  /** The owner of a live pointer gets back the cluster that the pointer is. */
  ghost predicate ReleasedInOrder(p: Pool, p': Pool, ptr: int) {
    exists q: nat, i: nat :: Held(p, ptr, q, i) && q < |p.types| && FreedInOrder(p, p', p.types[q], q, i)
  }

  lemma ReleasedOrder(p: Pool, ptr: int)
    requires SoundPool(p) && ptr in Live(p)
    ensures ReleasedInOrder(p, Released(p, ptr), ptr)
  {
    hide SoundPool, Live, Held, Freed, FreedInOrder, PartitionOf, IndexIn;
    LiveOwner(p, ptr);
    var q := PartitionOf(ptr);
    FreedOrder(p, p.types[q], q, IndexIn(p.subheaps[q], ptr), ptr);
  }

  lemma FreedAt(p: Pool, t: nat, q: nat, i: nat)
    requires t < |p.avai| && t < |p.full| && q in p.subheaps && q < |p.types|
    requires |p.subheaps[q].clusters.free| + 1 == p.subheaps[q].clusters.count <==> OnlyCluster(p.subheaps[q], i)
    requires p.subheaps[q].status.Full? ==> q !in p.avai[t]
    ensures FreedInOrder(p, Freed(p, t, q, i), t, q, i)
  {
    hide OnlyCluster, Moved;
    FreedCases(p, t, q, i);
    FrontOf(p.avai[t], q);
    DropUpdated(p.subheaps, q, Give(p, q, i).subheaps[q]);
  }

  lemma FreedCases(p: Pool, t: nat, q: nat, i: nat)
    requires t < |p.avai| && t < |p.full| && q in p.subheaps && q < |p.types|
    ensures var g := Give(p, q, i);
      && q in g.subheaps && g.avai == p.avai
      && Freed(p, t, q, i) == if IsEmpty(g.subheaps[q]) && p.avai[t] != [q] then Destroy(g, t, q)
                              else if g.subheaps[q].status.Full? then Revive(g, t, q) else g
  {}

  lemma FrontOf(list: seq<nat>, q: nat)
    ensures q !in list ==> Moved(list, q, true) == [q] + list
  {
    if q !in list {
      WithoutAbsent(list, q);
    }
  }

  lemma FullAbsent(p: Pool, t: nat, q: nat)
    requires SoundPool(p) && t < TYPES && IsOf(p, q, t) && p.subheaps[q].status.Full?
    ensures q !in p.avai[t]
  {
    ListedOf(p, t);
    hide SoundPool;
    assert !IsA(p, q, t, Available);
  }

  lemma EmptiedBy(h: Subheap, t: nat, q: nat, i: nat)
    requires Shape(h, t, q) && i < h.clusters.count && i !in h.clusters.free
    ensures |h.clusters.free| + 1 == h.clusters.count <==> OnlyCluster(h, i)
  {
    hide Region, ClusterSize;
    var free := [i] + h.clusters.free;
    if |free| == h.clusters.count {
      AllFree(h, t, q, i);
    } else if OnlyCluster(h, i) {
      SubsetSizes(UpTo(h.clusters.count), Elements(free));
      ElementsCount(free);
      AtMost(free, h.clusters.count);
    }
  }
}
