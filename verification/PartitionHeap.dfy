/** partitionheap.h: the heap over its bookkeeping. */
module PartitionAllocation {
  import opened IntrusiveLists
  import opened Sequences
  import opened ReapBases
  import opened ReapLayouts
  import opened ClusterLists
  import opened Partitions
  import opened PartitionSteps

  lemma HeadListed(p: Pool, t: nat)
    requires SoundPool(p) && t < TYPES && p.avai[t] != []
    ensures IsA(p, p.avai[t][0], t, Available)
  {
    ListedOf(p, t);
    hide SoundPool, IsA;
    assert p.avai[t][0] in p.avai[t];
  }

  /** The search of `malloc`: subheaps at the head of the available list are retired until one has a free cluster. */
  ghost function Searched(p: Pool, t: nat): Pool
    requires SoundPool(p) && t < TYPES
    decreases |p.avai[t]|
  {
    if p.avai[t] == [] then p
    else
      HeadListed(p, t);
      NoDuplicatesOf(p, t);
      var q := p.avai[t][0];
      if p.subheaps[q].clusters.free != [] then p
      else
        RetireSound(p, t, q);
        WithoutHead(p.avai[t]);
        Searched(Retire(p, t, q), t)
  }

  /** The same subheaps with the same clusters, whatever lists they are on. */
  ghost predicate SameClusters(p: Pool, p': Pool) {
    && p'.unused == p.unused && p'.types == p.types && p'.subheaps.Keys == p.subheaps.Keys
    && forall q :: q in p.subheaps ==> SameRegion(p.subheaps[q], p'.subheaps[q]) && p'.subheaps[q].clusters == p.subheaps[q].clusters
  }

  /** No subheap of the type has a free cluster. */
  ghost predicate NoneFree(p: Pool, t: nat) {
    forall q :: IsOf(p, q, t) ==> p.subheaps[q].clusters.free == []
  }

  lemma SearchedOnce(p: Pool, t: nat, q: nat)
    requires SoundPool(p) && t < TYPES && q in p.subheaps
    ensures |p.avai| == |p.full| == TYPES && SameClusters(p, Retire(p, t, q))
  {}

  /** The search changes no subheap, and it ends at one with a free cluster exactly when there is one. */
  lemma {:induction false} SearchedFinds(p: Pool, t: nat)
    requires SoundPool(p) && t < TYPES
    ensures var s := Searched(p, t);
      && SoundPool(s) && Live(s) == Live(p) && SameClusters(p, s)
      && (s.avai[t] == [] ==> NoneFree(p, t))
      && (s.avai[t] != [] ==> IsA(s, s.avai[t][0], t, Available) && s.subheaps[s.avai[t][0]].clusters.free != [])
    decreases |p.avai[t]|
  {
    if p.avai[t] == [] {
      NoneAvailable(p, t);
    } else {
      HeadListed(p, t);
      NoDuplicatesOf(p, t);
      var q := p.avai[t][0];
      if p.subheaps[q].clusters.free == [] {
        RetireSound(p, t, q);
        WithoutHead(p.avai[t]);
        SearchedOnce(p, t, q);
        hide SoundPool, IsA, SameClusters, NoneFree, Live, Retire;
        var p' := Retire(p, t, q);
        SearchedFinds(p', t);
        SameTrans(p, p', Searched(p', t), t);
      }
    }
  }

  lemma SameTrans(p: Pool, p': Pool, p'': Pool, t: nat)
    requires SameClusters(p, p') && SameClusters(p', p'')
    ensures SameClusters(p, p'')
    ensures NoneFree(p', t) ==> NoneFree(p, t)
  {
    forall q | IsOf(p, q, t) && NoneFree(p', t)
      ensures p.subheaps[q].clusters.free == []
    {
      assert IsOf(p', q, t);
    }
  }

  lemma NoneAvailable(p: Pool, t: nat)
    requires SoundPool(p) && t < TYPES && p.avai[t] == []
    ensures NoneFree(p, t)
  {
    forall q | IsOf(p, q, t)
      ensures p.subheaps[q].clusters.free == []
    {
      ShapeOf(p, q);
      ListedOf(p, t);
      hide SoundPool;
      assert q !in p.avai[t];
      assert !IsA(p, q, t, Available);
    }
  }

  // ---- malloc

  /** The super heap is asked for a whole partition, or for a huge object's own size. */
  function RegionSize(size: nat): nat {
    if size <= PARTITION_SIZE then PARTITION_SIZE else size
  }

  /** What the callers ask for: the subheaps abort on other sizes, and only huge objects with headers are huge. */
  ghost predicate ValidRequest(size: nat, t: nat) {
    t < TYPES && if size <= PARTITION_SIZE then size == ClusterSize(t) else t == 0 && size % PAGE_SIZE == 0
  }

  ghost predicate NeedsRegion(p: Pool, size: nat, t: nat) {
    PARTITION_SIZE < size || NoneFree(p, t)
  }

  /** What the super heap promises for the region it gives at `space`. */
  ghost predicate FreshRegion(p: Pool, space: int, size: nat) {
    && 0 <= PartitionOf(space) && Region(space, RegionSize(size), PartitionOf(space))
    && Unclaimed(p, space, RegionSize(size)) && (size <= PARTITION_SIZE ==> space % PARTITION_SIZE == 0)
  }

  ghost predicate CanAllocate(p: Pool, size: nat, t: nat, space: int) {
    ValidRequest(size, t) && (NeedsRegion(p, size, t) && p.unused != [] ==> FreshRegion(p, space, size))
  }

  lemma ClusterSizes(t: nat)
    requires t < TYPES
    ensures 0 < ClusterSize(t) <= PARTITION_SIZE && PARTITION_SIZE % ClusterSize(t) == 0
  {
    assert Power2(0) == 1 && Power2(1) == 2 && Power2(2) == 4 && Power2(3) == 8;
    assert Power2(4) == 16;
    assert t == 0 || t == 1 || t == 2 || t == 3 || t == 4 || t == 5;
  }

  lemma FreshIsClaimable(p: Pool, t: nat, space: int, size: nat)
    requires ValidRequest(size, t) && FreshRegion(p, space, size)
    ensures 0 < size && Claimable(p, t, space, RegionSize(size), size)
  {
    hide Region, Unclaimed, ClusterSize, PartitionOf;
    ClusterSizes(t);
    if PARTITION_SIZE < size {
      DivUnique(size, size, 1, 0);
    }
  }

  lemma FreshSame(p: Pool, p': Pool, space: int, size: nat)
    requires SameClusters(p, p') && FreshRegion(p, space, size)
    ensures FreshRegion(p', space, size)
  {
    hide Region, PartitionOf;
  }

  ghost function Created(p: Pool, size: nat, t: nat, space: int, aggressive: bool): Pool
    requires SoundPool(p) && ValidRequest(size, t) && FreshRegion(p, space, size) && p.unused != []
  {
    FreshIsClaimable(p, t, space, size);
    ClaimSound(p, t, space, RegionSize(size), size, aggressive);
    Claim(p, t, space, RegionSize(size), size, aggressive)
  }

  /** What `malloc` starts from once it has looked through the available list. */
  ghost function Candidates(p: Pool, size: nat, t: nat): Pool
    requires SoundPool(p) && ValidRequest(size, t)
  {
    if size <= PARTITION_SIZE then Searched(p, t) else p
  }

  lemma CandidatesSame(p: Pool, size: nat, t: nat, space: int)
    requires SoundPool(p) && CanAllocate(p, size, t, space)
    ensures var s := Candidates(p, size, t);
      && SoundPool(s) && |s.avai| == TYPES && Live(s) == Live(p) && SameClusters(p, s)
      && (size <= PARTITION_SIZE && s.avai[t] != [] ==>
          IsA(s, s.avai[t][0], t, Available) && s.subheaps[s.avai[t][0]].clusters.free != [])
      && ((PARTITION_SIZE < size || s.avai[t] == []) && s.unused != [] ==> FreshRegion(s, space, size))
      && (PARTITION_SIZE < size || s.avai[t] == [] <==> NeedsRegion(p, size, t))
  {
    hide Owned, RegionsApart, Instances, OneEmpty, AllListed, Live, FreshRegion, ClusterSize, NoneFree, IsA, SameClusters;
    SearchedFinds(p, t);
    SameItself(p);
    var s := Candidates(p, size, t);
    if size <= PARTITION_SIZE && s.avai[t] != [] {
      SomeFree(p, s, t, s.avai[t][0]);
    }
    SameUnused(p, s);
    if (PARTITION_SIZE < size || s.avai[t] == []) && s.unused != [] {
      FreshSame(p, s, space, size);
    }
  }

  lemma SameItself(p: Pool)
    ensures SameClusters(p, p)
  {}

  lemma SameUnused(p: Pool, s: Pool)
    requires SameClusters(p, s)
    ensures s.unused == p.unused
  {}

  lemma SomeFree(p: Pool, s: Pool, t: nat, q: nat)
    requires SameClusters(p, s) && IsA(s, q, t, Available)
    ensures s.subheaps[q].clusters.free != [] ==> !NoneFree(p, t)
  {
    assert IsOf(p, q, t);
  }

  /** The state after `malloc` and the pointer it returns. */
  ghost function Allocated(p: Pool, size: nat, t: nat, space: int, aggressive: bool): (Pool, int)
    requires SoundPool(p) && CanAllocate(p, size, t, space)
  {
    CandidatesSame(p, size, t, space);
    var s := Candidates(p, size, t);
    if size <= PARTITION_SIZE && s.avai[t] != [] then
      var h := s.subheaps[s.avai[t][0]];
      (TakeFrom(s, s.avai[t][0]), Address(h.address, h.clusterSize, h.clusters.free[0]))
    else if s.unused == [] then (s, NULL)
    else (Created(s, size, t, space, aggressive), space)
  }

  /** `ptr` is a live cluster of exactly `size` bytes in a subheap of type `t`. */
  ghost predicate ObjectAt(p: Pool, ptr: int, size: nat, t: nat) {
    exists q, i :: Held(p, ptr, q, i) && IsOf(p, q, t) && p.subheaps[q].clusterSize == size
  }

  lemma TakenObject(p: Pool, t: nat, q: nat)
    requires SoundPool(p) && t < TYPES && IsA(p, q, t, Available) && p.subheaps[q].clusters.free != []
    ensures var h := p.subheaps[q];
      && ObjectAt(TakeFrom(p, q), Address(h.address, h.clusterSize, h.clusters.free[0]), ClusterSize(t), t)
      && 0 < Address(h.address, h.clusterSize, h.clusters.free[0])
  {
    var h := p.subheaps[q];
    var i := h.clusters.free[0];
    ShapeOf(p, q);
    TakeHeadSound(h.clusters);
    ClusterInside(h, t, q, i);
    assert h.address > 0;
    hide SoundPool, Address, Region, Sound, ClusterSize;
    assert Held(TakeFrom(p, q), Address(h.address, h.clusterSize, i), q, i);
  }

  lemma CreatedObject(p: Pool, size: nat, t: nat, space: int, aggressive: bool)
    requires SoundPool(p) && ValidRequest(size, t) && FreshRegion(p, space, size) && p.unused != []
    ensures var p' := Created(p, size, t, space, aggressive);
      && SoundPool(p') && space !in Live(p) && Live(p') == Live(p) + iset{space} && 0 < space
      && ObjectAt(p', space, size, t)
  {
    FreshIsClaimable(p, t, space, size);
    var q := PartitionOf(space);
    NewPartition(p, space, RegionSize(size), q);
    NewShape(t, q, space, RegionSize(size), size, aggressive, p.unused[0]);
    ClaimSound(p, t, space, RegionSize(size), size, aggressive);
    hide SoundPool, Shape, Claimable, ValidRequest, PartitionOf, Unclaimed;
    FirstAddress(space, size);
    var p' := Created(p, size, t, space, aggressive);
    assert Held(p', space, q, 0) && IsOf(p', q, t) && p'.subheaps[q].clusterSize == size;
  }

  /** An allocation fails only when the pool is used up, and else hands out a cluster that was not live. */
  lemma AllocatedSound(p: Pool, size: nat, t: nat, space: int, aggressive: bool)
    requires SoundPool(p) && CanAllocate(p, size, t, space)
    ensures var (p', ptr) := Allocated(p, size, t, space, aggressive);
      && SoundPool(p')
      && 0 <= ptr && (ptr == NULL <==> NeedsRegion(p, size, t) && p.unused == [])
      && (ptr == NULL ==> Live(p') == Live(p) && p'.unused == [])
      && (ptr != NULL ==> ptr !in Live(p) && Live(p') == Live(p) + iset{ptr} && ObjectAt(p', ptr, size, t))
      && (p'.unused != p.unused ==> NeedsRegion(p, size, t))
  {
    CandidatesSame(p, size, t, space);
    var s := Candidates(p, size, t);
    hide SoundPool, Live, NeedsRegion, Address, Created, FreshRegion, ObjectAt;
    if size <= PARTITION_SIZE && s.avai[t] != [] {
      TakeSound(s, t, s.avai[t][0]);
      TakenObject(s, t, s.avai[t][0]);
    } else if s.unused != [] {
      CreatedObject(s, size, t, space, aggressive);
    }
  }
}

/** What an allocation or a free leaves as it was: every other live cluster. */
module PartitionFrames {
  import opened IntrusiveLists
  import opened ReapBases
  import opened Partitions
  import opened PartitionSteps
  import opened PartitionAllocation

  /** An address is live in one way only. */
  lemma OneObject(p: Pool, ptr: int, size: nat, t: nat, size': nat, t': nat)
    requires SoundPool(p) && ObjectAt(p, ptr, size, t) && ObjectAt(p, ptr, size', t')
    ensures size == size' && t == t' && ptr in Live(p)
  {
    hide SoundPool, Held;
    var q, i :| Held(p, ptr, q, i) && IsOf(p, q, t) && p.subheaps[q].clusterSize == size;
    var r, j :| Held(p, ptr, r, j) && IsOf(p, r, t') && p.subheaps[r].clusterSize == size';
    OwnerFound(p, ptr, q, i);
    OwnerFound(p, ptr, r, j);
  }

  /** The clusters of different live pointers do not overlap. */
  lemma ObjectsDisjoint(p: Pool, ptr: int, size: nat, t: nat, ptr': int, size': nat, t': nat)
    requires SoundPool(p) && ObjectAt(p, ptr, size, t) && ObjectAt(p, ptr', size', t') && ptr != ptr'
    ensures Disjoint(ptr, size, ptr', size')
  {
    var q, i :| Held(p, ptr, q, i) && IsOf(p, q, t) && p.subheaps[q].clusterSize == size;
    var r, j :| Held(p, ptr', r, j) && IsOf(p, r, t') && p.subheaps[r].clusterSize == size';
    hide SoundPool;
    assert q != r || i != j;
    LiveDisjoint(p, ptr, q, i, ptr', r, j);
  }

  /** `ObjectAt` survives what keeps its cluster. */
  lemma ObjectKept(p: Pool, p': Pool, q: nat, i: nat, ptr: int, size: nat, t: nat)
    requires Held(p, ptr, q, i) && IsOf(p, q, t) && p.subheaps[q].clusterSize == size
    requires q in p'.subheaps && SameRegion(p.subheaps[q], p'.subheaps[q]) && q < |p'.types| && p'.types[q] == t
    requires p'.subheaps[q].clusters.count == p.subheaps[q].clusters.count && i !in p'.subheaps[q].clusters.free
    ensures ObjectAt(p', ptr, size, t)
  {
    assert Held(p', ptr, q, i) && IsOf(p', q, t);
  }

  lemma SameKeeps(p: Pool, p': Pool, ptr: int, size: nat, t: nat)
    requires SameClusters(p, p') && ObjectAt(p, ptr, size, t)
    ensures ObjectAt(p', ptr, size, t)
  {
    var q, i :| Held(p, ptr, q, i) && IsOf(p, q, t) && p.subheaps[q].clusterSize == size;
    ObjectKept(p, p', q, i, ptr, size, t);
  }

  lemma TakeKeeps(p: Pool, r: nat, ptr: int, size: nat, t: nat)
    requires r in p.subheaps && p.subheaps[r].clusters.free != [] && ObjectAt(p, ptr, size, t)
    ensures ObjectAt(TakeFrom(p, r), ptr, size, t)
  {
    var q, i :| Held(p, ptr, q, i) && IsOf(p, q, t) && p.subheaps[q].clusterSize == size;
    var free := p.subheaps[r].clusters.free;
    assert free == [free[0]] + free[1..];
    ObjectKept(p, TakeFrom(p, r), q, i, ptr, size, t);
  }

  lemma CreateKeeps(p: Pool, size: nat, t: nat, space: int, aggressive: bool, ptr: int, size': nat, t': nat)
    requires SoundPool(p) && ValidRequest(size, t) && FreshRegion(p, space, size) && p.unused != []
    requires ObjectAt(p, ptr, size', t')
    ensures ObjectAt(Created(p, size, t, space, aggressive), ptr, size', t')
  {
    FreshIsClaimable(p, t, space, size);
    NewPartition(p, space, RegionSize(size), PartitionOf(space));
    var q, i :| Held(p, ptr, q, i) && IsOf(p, q, t') && p.subheaps[q].clusterSize == size';
    hide SoundPool, PartitionOf, Region, Claimable, FreshRegion, ValidRequest;
    ObjectKept(p, Created(p, size, t, space, aggressive), q, i, ptr, size', t');
  }

  /** Every live cluster stays live, with its size and type, when another one is allocated. */
  lemma AllocatedKeeps(p: Pool, size: nat, t: nat, space: int, aggressive: bool, ptr: int, size': nat, t': nat)
    requires SoundPool(p) && CanAllocate(p, size, t, space) && ObjectAt(p, ptr, size', t')
    ensures ObjectAt(Allocated(p, size, t, space, aggressive).0, ptr, size', t')
  {
    CandidatesSame(p, size, t, space);
    var s := Candidates(p, size, t);
    hide SoundPool, Created, TakeFrom, ObjectAt, FreshRegion;
    SameKeeps(p, s, ptr, size', t');
    if size <= PARTITION_SIZE && s.avai[t] != [] {
      TakeKeeps(s, s.avai[t][0], ptr, size', t');
    } else if s.unused != [] {
      CreateKeeps(s, size, t, space, aggressive, ptr, size', t');
    }
  }

  /** No cluster of the type is free, and no further subheap can be had. */
  ghost predicate NoCluster(p: Pool, size: nat, t: nat) {
    NeedsRegion(p, size, t) && p.unused == []
  }

  lemma SameNeeds(p: Pool, p': Pool, size: nat, t: nat)
    requires SameClusters(p, p')
    ensures NoCluster(p', size, t) <==> NoCluster(p, size, t)
  {
    forall q
      ensures IsOf(p', q, t) <==> IsOf(p, q, t)
    {}
  }

  /** A cluster is refused exactly if there is none, and then every other request stands as it did. */
  lemma AllocationRefused(p: Pool, size: nat, t: nat, space: int, aggressive: bool)
    requires SoundPool(p) && CanAllocate(p, size, t, space)
    ensures var (p', a) := Allocated(p, size, t, space, aggressive);
      && (a == NULL <==> NoCluster(p, size, t))
      && (a == NULL ==> SameClusters(p, p') && p'.unused == [])
  {
    hide SoundPool, SameClusters, Created, TakeFrom, FreshRegion, Live, ObjectAt, IsA;
    AllocatedSound(p, size, t, space, aggressive);
    CandidatesSame(p, size, t, space);
    SameUnused(p, Candidates(p, size, t));
  }

  /** Which cluster of the subheap a pointer is. */
  function IndexIn(h: Subheap, ptr: int): int {
    if h.clusterSize == 0 then 0 else (ptr - h.address) / h.clusterSize
  }

  /** `q` and `i` are what `free` computes from the address. */
  ghost predicate Located(p: Pool, ptr: int, q: int, i: int) {
    && 0 <= q < |p.types| && q in p.subheaps && q == PartitionOf(ptr) && p.types[q] < TYPES && 0 < p.subheaps[q].clusterSize
    && 0 <= i == IndexIn(p.subheaps[q], ptr) && Held(p, ptr, q, i) && |p.avai| == |p.full| == TYPES
  }

  lemma LiveOwner(p: Pool, ptr: int)
    requires SoundPool(p) && ptr in Live(p)
    ensures var q := PartitionOf(ptr); q in p.subheaps && Located(p, ptr, q, IndexIn(p.subheaps[q], ptr))
  {
    var q, i :| Held(p, ptr, q, i);
    hide Held, RegionsApart, Instances, OneEmpty, AllListed, Shape;
    OwnerFound(p, ptr, q, i);
  }

  /** The state after `free` of a live pointer: its owner is found by address alone. */
  ghost function Released(p: Pool, ptr: int): Pool
    requires SoundPool(p) && ptr in Live(p)
  {
    LiveOwner(p, ptr);
    var q := PartitionOf(ptr);
    Freed(p, p.types[q], q, IndexIn(p.subheaps[q], ptr))
  }

  /** A free takes away this one pointer, and every other live cluster stays live, with its size and type. */
  lemma ReleasedKeeps(p: Pool, ptr: int)
    requires SoundPool(p) && ptr in Live(p)
    ensures SoundPool(Released(p, ptr)) && Live(Released(p, ptr)) == Live(p) - iset{ptr}
    ensures forall x, size, t :: x != ptr && ObjectAt(p, x, size, t) ==> ObjectAt(Released(p, ptr), x, size, t)
  {
    hide SoundPool, Live, Freed, PartitionOf, IndexIn, Held, ObjectAt;
    LiveOwner(p, ptr);
    var q := PartitionOf(ptr);
    var i := IndexIn(p.subheaps[q], ptr);
    FreedSound(p, p.types[q], q, i, ptr);
    forall x, size, t | x != ptr && ObjectAt(p, x, size, t)
      ensures ObjectAt(Released(p, ptr), x, size, t)
    {
      FreedKeepsObject(p, p.types[q], q, i, ptr, x, size, t);
    }
  }

  lemma FreedKeepsObject(p: Pool, t: nat, r: nat, j: nat, ptr: int, x: int, size: nat, u: nat)
    requires SoundPool(p) && Held(p, ptr, r, j) && ObjectAt(p, x, size, u) && x != ptr
    requires r < |p.types| && t == p.types[r] < TYPES && |p.avai| == |p.full| == TYPES
    ensures ObjectAt(Freed(p, t, r, j), x, size, u)
  {
    var q, i :| Held(p, x, q, i) && IsOf(p, q, u) && p.subheaps[q].clusterSize == size;
    hide SoundPool, Freed, Address;
    if q == r {
      FreedHere(p, t, r, j, i);
    } else {
      FreedElsewhere(p, t, r, j, q);
    }
    ObjectKept(p, Freed(p, t, r, j), q, i, x, size, u);
  }
}

module PartitionHeaps {
  import opened IntrusiveLists
  import opened Sequences
  import opened ReapBases
  import opened ClusterLists
  import opened Partitions
  import opened PartitionSteps
  import opened PartitionAllocation
  import opened PartitionFrames
  import opened PartitionOrder

  class PartitionHeap {
    const aggressive: bool
    const avai: array<seq<nat>>
    const full: array<seq<nat>>
    const typeMap: array<nat>
    var subheaps: map<nat, Subheap>
    // the chain of unused instances
    var unused: seq<nat>

    ghost function State(): Pool
      reads this, avai, full, typeMap
    {
      Pool(avai[..], full[..], typeMap[..], subheaps, unused)
    }

    ghost predicate Shaped()
    {
      && avai.Length == full.Length == TYPES && typeMap.Length == NUM_PARTITIONS
      && avai != full && avai as object != typeMap as object && full as object != typeMap as object
    }

    ghost predicate Valid()
      reads this, avai, full, typeMap
    {
      Shaped() && SoundPool(State())
    }

    constructor (aggressive: bool)
      ensures Valid() && fresh(avai) && fresh(full) && fresh(typeMap) && this.aggressive == aggressive
      ensures State().subheaps == map[] && Live(State()) == iset{}
    {
      this.aggressive := aggressive;
      avai := new seq<nat>[TYPES](_ => []);
      full := new seq<nat>[TYPES](_ => []);
      typeMap := new nat[NUM_PARTITIONS](_ => INVALID_TYPE);
      subheaps, unused := map[], InOrder(NUM_PARTITIONS);
      new;
      InitialPool(State());
    }

    /** The links of one subheap change: `list_del`, and `list_add` if it goes on another list. */
    method Link(t: nat, q: nat, place: Place)
      requires Shaped() && t < avai.Length && t < full.Length
      modifies avai, full
      ensures avai[..] == old(avai[..])[t := Moved(old(avai[..])[t], q, place == On(Available))]
      ensures full[..] == old(full[..])[t := Moved(old(full[..])[t], q, place == On(Full))]
    {
      avai[t] := Moved(avai[t], q, place == On(Available));
      full[t] := Moved(full[t], q, place == On(Full));
    }

    /** The head of the available list goes to the full list. */
    method RetireHead(t: nat)
      requires Shaped() && t < TYPES && avai[t] != [] && avai[t][0] in subheaps
      modifies this`subheaps, avai, full
      ensures Shaped() && State() == Retire(old(State()), t, old(avai[t][0]))
    {
      var q := avai[t][0];
      Link(t, q, On(Full));
      subheaps := subheaps[q := subheaps[q].(status := Full)];
    }

    method TakeCluster(q: nat) returns (ptr: int)
      requires q in subheaps && subheaps[q].clusters.free != []
      modifies this`subheaps
      ensures State() == TakeFrom(old(State()), q)
      ensures ptr == Address(old(subheaps)[q].address, old(subheaps)[q].clusterSize, old(subheaps)[q].clusters.free[0])
    {
      var h := subheaps[q];
      ptr := Address(h.address, h.clusterSize, h.clusters.free[0]);
      subheaps := subheaps[q := h.(clusters := TakeHead(h.clusters))];
    }

    /** A new subheap on the region at `space`, with its first cluster taken. */
    method Create(size: nat, t: nat, space: int) returns (ptr: int)
      requires Valid() && ValidRequest(size, t) && FreshRegion(State(), space, size) && unused != []
      modifies this`subheaps, this`unused, avai, full, typeMap
      ensures Valid() && ptr == space && State() == Created(old(State()), size, t, space, aggressive)
    {
      ghost var before := State();
      CreatedObject(before, size, t, space, aggressive);
      FreshIsClaimable(before, t, space, size);
      NewPartition(before, space, RegionSize(size), PartitionOf(space));
      NewShape(t, PartitionOf(space), space, RegionSize(size), size, aggressive, unused[0]);
      hide SoundPool, Region, Shape, PartitionOf, Unclaimed, ClusterSize;
      var h := NewSubheap(space, RegionSize(size), size, aggressive, unused[0]);
      var q := PartitionOf(space);
      ptr := space;
      FirstAddress(space, size);
      typeMap[q] := t;
      subheaps := subheaps[q := h.(clusters := TakeHead(h.clusters))];
      Link(t, q, On(h.status));
      unused := unused[1..];
    }

    /** The loop over the available list. */
    method TakeAvailable(t: nat) returns (ptr: int)
      requires Valid() && t < TYPES
      modifies this`subheaps, avai, full
      ensures Shaped() && unused == old(unused)
      ensures var s := Searched(old(State()), t);
        && |s.avai| == TYPES
        && if s.avai[t] == [] then ptr == NULL && State() == s
           else
             && s.avai[t][0] in s.subheaps && s.subheaps[s.avai[t][0]].clusters.free != []
             && var h := s.subheaps[s.avai[t][0]];
             ptr == Address(h.address, h.clusterSize, h.clusters.free[0]) && State() == TakeFrom(s, s.avai[t][0])
    {
      hide SoundPool, Retire, TakeFrom, Address;
      ghost var before := State();
      ptr := NULL;
      while avai[t] != []
        invariant Valid() && Searched(State(), t) == Searched(before, t) && unused == old(unused)
        decreases |avai[t]|
      {
        SearchStep(State(), t);
        if subheaps[avai[t][0]].clusters.free != [] {
          ptr := TakeCluster(avai[t][0]);
          return;
        }
        RetireHead(t);
      }
    }

    method Malloc(size: nat, t: nat, space: int) returns (ptr: int)
      requires Valid() && CanAllocate(State(), size, t, space)
      modifies this`subheaps, this`unused, avai, full, typeMap
      ensures Valid() && (State(), ptr) == Allocated(old(State()), size, t, space, aggressive)
      ensures AllocatedInOrder(old(State()), State(), size, t, space, ptr)
    {
      hide SoundPool, AllocatedInOrder, CanAllocate;
      AllocatedOrder(State(), size, t, space, aggressive);
      ptr := Serve(size, t, space);
    }

    method Serve(size: nat, t: nat, space: int) returns (ptr: int)
      requires Valid() && CanAllocate(State(), size, t, space)
      modifies this`subheaps, this`unused, avai, full, typeMap
      ensures Valid() && (State(), ptr) == Allocated(old(State()), size, t, space, aggressive)
    {
      ghost var before := State();
      CandidatesSame(before, size, t, space);
      AllocatedSound(before, size, t, space, aggressive);
      hide SoundPool, NeedsRegion, FreshRegion, Live, ObjectAt, TakeFrom, Created, SameClusters, Searched, Address, IsA;
      ptr := NULL;
      if size <= PARTITION_SIZE {
        ptr := TakeAvailable(t);
        if ptr != NULL {
          return;
        }
      }
      if unused != [] {
        ptr := Create(size, t, space);
      }
    }

    method GiveCluster(ptr: int, q: nat)
      requires q in subheaps && 0 <= IndexIn(subheaps[q], ptr)
      modifies this`subheaps
      ensures State() == Give(old(State()), q, IndexIn(old(subheaps)[q], ptr))
    {
      var h := subheaps[q];
      subheaps := subheaps[q := h.(clusters := PutBack(h.clusters, IndexIn(h, ptr)))];
    }

    method DestroySubheap(t: nat, q: nat)
      requires Shaped() && t < TYPES && q in subheaps && q < NUM_PARTITIONS
      modifies this`subheaps, this`unused, avai, full, typeMap
      ensures Shaped() && State() == Destroy(old(State()), t, q)
    {
      Link(t, q, Nowhere);
      typeMap[q] := INVALID_TYPE;
      unused := [subheaps[q].instance] + unused;
      subheaps := subheaps - {q};
    }

    method ReviveSubheap(t: nat, q: nat)
      requires Shaped() && t < TYPES && q in subheaps
      modifies this`subheaps, avai, full
      ensures Shaped() && State() == Revive(old(State()), t, q)
    {
      Link(t, q, On(Available));
      subheaps := subheaps[q := subheaps[q].(status := Available)];
    }

    method FreeCluster(ptr: int, t: nat, q: nat)
      requires Shaped() && t < TYPES && q in subheaps && q < NUM_PARTITIONS && 0 <= IndexIn(subheaps[q], ptr)
      modifies this`subheaps, this`unused, avai, full, typeMap
      ensures Shaped() && State() == Freed(old(State()), t, q, IndexIn(old(subheaps)[q], ptr))
    {
      hide Give, Destroy, Revive, Freed, IndexIn;
      FreedCases(State(), t, q, IndexIn(subheaps[q], ptr));
      GiveCluster(ptr, q);
      // destroy the subheap if it is empty and not the only one left
      if IsEmpty(subheaps[q]) && avai[t] != [q] {
        DestroySubheap(t, q);
      } else if subheaps[q].status.Full? {
        ReviveSubheap(t, q);
      }
    }

    /** The owner is found by address alone. A pointer into a partition without an owner is ignored. */
    method Free(ptr: int)
      requires Valid() && Freeable(State(), ptr)
      modifies this`subheaps, this`unused, avai, full, typeMap
      ensures Valid() && Live(State()) == Live(old(State())) - iset{ptr}
      ensures State() == if ptr in Live(old(State())) then Released(old(State()), ptr) else old(State())
      ensures ptr in Live(old(State())) ==> ReleasedInOrder(old(State()), State(), ptr)
    {
      hide SoundPool, Live, Freed, Held, PartitionOf, IndexIn, ReleasedInOrder;
      ghost var p := State();
      OwnerOfPointer(p, ptr);
      var q := PartitionOf(ptr);
      var t := typeMap[q];
      if t == INVALID_TYPE {
        return;
      }
      LiveOwner(p, ptr);
      ReleasedKeeps(p, ptr);
      ReleasedOrder(p, ptr);
      FreeCluster(ptr, t, q);
    }
  }

  ghost predicate Freeable(p: Pool, ptr: int) {
    && 0 <= ptr < ADDRESS_SPACE
    && (0 <= PartitionOf(ptr) < |p.types| && p.types[PartitionOf(ptr)] != INVALID_TYPE ==> ptr in Live(p))
  }

  /** Only a pointer into an owned partition can be live. */
  lemma OwnerOfPointer(p: Pool, ptr: int)
    requires SoundPool(p) && 0 <= ptr < ADDRESS_SPACE
    ensures 0 <= PartitionOf(ptr) < NUM_PARTITIONS == |p.types|
    ensures p.types[PartitionOf(ptr)] == INVALID_TYPE ==> ptr !in Live(p)
  {
    if ptr in Live(p) {
      var q, i :| Held(p, ptr, q, i);
      OwnerFound(p, ptr, q, i);
    }
  }

  lemma InitialPool(p: Pool)
    requires |p.avai| == |p.full| == TYPES && |p.types| == NUM_PARTITIONS
    requires forall t :: 0 <= t < TYPES ==> p.avai[t] == [] && p.full[t] == []
    requires forall q :: 0 <= q < NUM_PARTITIONS ==> p.types[q] == INVALID_TYPE
    requires p.subheaps == map[] && p.unused == InOrder(NUM_PARTITIONS)
    ensures SoundPool(p) && Live(p) == iset{}
  {}
}
