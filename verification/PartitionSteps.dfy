/** The steps of partitionheap.h on its bookkeeping, one by one, and what each keeps. */
module PartitionSteps {
  import opened Sequences
  import opened ReapBases
  import opened ReapLayouts
  import opened ClusterLists
  import opened Partitions

  /** The list a subheap is on. */
  datatype Place = Nowhere | On(status: Status)

  function Relist(p: Pool, t: nat, q: nat, place: Place): Pool
    requires t < |p.avai| && t < |p.full|
  {
    p.(avai := p.avai[t := Moved(p.avai[t], q, place == On(Available))],
       full := p.full[t := Moved(p.full[t], q, place == On(Full))])
  }

  /** A subheap that has no free cluster left goes to the full list. */
  function Retire(p: Pool, t: nat, q: nat): Pool
    requires t < |p.avai| && t < |p.full| && q in p.subheaps
  {
    Relist(p, t, q, On(Full)).(subheaps := p.subheaps[q := p.subheaps[q].(status := Full)])
  }

  /** A cluster is taken from a subheap. */
  function TakeFrom(p: Pool, q: nat): Pool
    requires q in p.subheaps && p.subheaps[q].clusters.free != []
  {
    p.(subheaps := p.subheaps[q := p.subheaps[q].(clusters := TakeHead(p.subheaps[q].clusters))])
  }

  function NewSubheap(address: int, size: nat, clusterSize: nat, aggressive: bool, instance: nat): Subheap
    requires 0 < clusterSize
  {
    Subheap(address, size, clusterSize, Initial(size / clusterSize, aggressive), if size == PARTITION_SIZE then Available else Full, instance)
  }

  /** A new subheap, whose first cluster is handed out at once; a huge one is full with it. */
  function Claim(p: Pool, t: nat, address: int, size: nat, clusterSize: nat, aggressive: bool): Pool
    requires t < |p.avai| && t < |p.full| && p.unused != [] && 0 < clusterSize <= size
    requires 0 <= PartitionOf(address) < |p.types|
  {
    Quotient(size, clusterSize);
    QuotientAtLeast(size, clusterSize, 1);
    var q, h := PartitionOf(address), NewSubheap(address, size, clusterSize, aggressive, p.unused[0]);
    Relist(p, t, q, On(h.status)).(
      subheaps := p.subheaps[q := h.(clusters := TakeHead(h.clusters))],
      types := p.types[q := t], unused := p.unused[1..])
  }

  /** A cluster is given back to a subheap. */
  function Give(p: Pool, q: nat, i: nat): Pool
    requires q in p.subheaps
  {
    p.(subheaps := p.subheaps[q := p.subheaps[q].(clusters := PutBack(p.subheaps[q].clusters, i))])
  }

  /** An empty subheap is destroyed and its instance goes back to the pool. */
  function Destroy(p: Pool, t: nat, q: nat): Pool
    requires t < |p.avai| && t < |p.full| && q in p.subheaps && q < |p.types|
  {
    Relist(p, t, q, Nowhere).(
      subheaps := p.subheaps - {q}, types := p.types[q := INVALID_TYPE], unused := [p.subheaps[q].instance] + p.unused)
  }

  /** A subheap on the full list that has a free cluster again becomes available. */
  function Revive(p: Pool, t: nat, q: nat): Pool
    requires t < |p.avai| && t < |p.full| && q in p.subheaps
  {
    Relist(p, t, q, On(Available)).(subheaps := p.subheaps[q := p.subheaps[q].(status := Available)])
  }

  /** `free`: the last subheap on an available list stays even when it is empty. */
  function Freed(p: Pool, t: nat, q: nat, i: nat): Pool
    requires t < |p.avai| && t < |p.full| && q in p.subheaps && q < |p.types|
  {
    var g := Give(p, q, i);
    if IsEmpty(g.subheaps[q]) && p.avai[t] != [q] then Destroy(g, t, q)
    else if g.subheaps[q].status.Full? then Revive(g, t, q)
    else g
  }

  // ---- the lists

  ghost predicate SameElsewhere(p: Pool, p': Pool, q: nat) {
    forall r: nat, t: nat, s :: r != q ==> (IsA(p', r, t, s) <==> IsA(p, r, t, s))
  }

  lemma RelistListed(p: Pool, p': Pool, t: nat, q: nat, place: Place)
    requires AllListed(p) && t < TYPES
    requires var l := Relist(p, t, q, place); p'.avai == l.avai && p'.full == l.full
    requires SameElsewhere(p, p', q)
    requires forall u: nat, s :: u < TYPES ==> (IsA(p', q, u, s) <==> u == t && place == On(s))
    requires forall u: nat, s :: u < TYPES && u != t ==> !IsA(p, q, u, s)
    ensures AllListed(p')
  {
    hide IsA;
    forall u: nat | u < TYPES
      ensures Listed(p', u)
    {
      assert Listed(p, u);
      if u == t {
        MovedMembers(p.avai[t], q, place == On(Available));
        MovedMembers(p.full[t], q, place == On(Full));
      }
    }
  }

  lemma KeepListed(p: Pool, p': Pool)
    requires AllListed(p) && p'.avai == p.avai && p'.full == p.full
    requires forall r: nat, t: nat, s :: IsA(p', r, t, s) <==> IsA(p, r, t, s)
    ensures AllListed(p')
  {
    hide IsA;
    forall u: nat | u < TYPES
      ensures Listed(p', u)
    {
      assert Listed(p, u);
    }
  }

  // ---- a step that changes the subheap of one partition

  /** `h` with other clusters or another status. */
  ghost predicate SameRegion(h: Subheap, h': Subheap) {
    h'.address == h.address && h'.size == h.size && h'.clusterSize == h.clusterSize && h'.instance == h.instance
  }

  lemma UpdateOwned(p: Pool, p': Pool, q: nat, h': Subheap)
    requires Owned(p) && q in p.subheaps && q < |p.types| && Shape(h', p.types[q], q)
    requires p'.subheaps == p.subheaps[q := h'] && p'.types == p.types
    ensures Owned(p')
  {
    hide Shape;
    forall r | r in p'.subheaps
      ensures r < NUM_PARTITIONS && p'.types[r] < TYPES && Shape(p'.subheaps[r], p'.types[r], r)
    {
      if r != q {
        assert p.subheaps[r] == p'.subheaps[r];
      }
    }
  }

  lemma UpdateApart(p: Pool, p': Pool, q: nat, h': Subheap)
    requires RegionsApart(p) && q in p.subheaps && SameRegion(p.subheaps[q], h') && p'.subheaps == p.subheaps[q := h']
    ensures RegionsApart(p')
  {
    hide Disjoint;
  }

  lemma UpdateInstances(p: Pool, p': Pool, q: nat, h': Subheap)
    requires Instances(p) && q in p.subheaps && SameRegion(p.subheaps[q], h')
    requires p'.subheaps == p.subheaps[q := h'] && p'.unused == p.unused
    ensures Instances(p')
  {
    assert p'.subheaps.Keys == p.subheaps.Keys;
    assert |p'.subheaps| == |p'.subheaps.Keys|;
  }

  lemma UpdateKeeps(p: Pool, p': Pool, q: nat, h': Subheap)
    requires Owned(p) && RegionsApart(p) && Instances(p) && q in p.subheaps && SameRegion(p.subheaps[q], h')
    requires q < |p.types| && Shape(h', p.types[q], q)
    requires p'.subheaps == p.subheaps[q := h'] && p'.types == p.types && p'.unused == p.unused
    ensures Owned(p') && RegionsApart(p') && Instances(p')
  {
    UpdateOwned(p, p', q, h');
    UpdateApart(p, p', q, h');
    UpdateInstances(p, p', q, h');
  }

  // ---- empty subheaps and live pointers

  /** Emptiness can only be lost elsewhere than at `q`. */
  lemma KeepOneEmpty(p: Pool, p': Pool, q: nat)
    requires OneEmpty(p)
    requires forall r: nat, t: nat :: EmptyOf(p', r, t) ==> r != q && EmptyOf(p, r, t)
    ensures OneEmpty(p')
  {
    hide EmptyOf;
  }

  /** `big` holds one pointer more than `small`. */
  lemma OneMoreLive(small: Pool, big: Pool, ptr: int, q: nat, i: nat)
    requires SoundPool(big) && Held(big, ptr, q, i) && !Held(small, ptr, q, i)
    requires forall x, r: nat, j: nat :: Held(big, x, r, j) <==> Held(small, x, r, j) || (x == ptr && r == q && j == i)
    ensures ptr !in Live(small) && Live(big) == Live(small) + iset{ptr}
  {
    hide Held, SoundPool;
    forall r: nat, j: nat | Held(small, ptr, r, j)
      ensures false
    {
      assert Held(big, ptr, r, j);
      OwnerFound(big, ptr, r, j);
      OwnerFound(big, ptr, q, i);
    }
    forall x: int
      ensures IsLive(big, x) <==> IsLive(small, x) || x == ptr
    {
      if IsLive(small, x) {
        var r: nat, j: nat :| Held(small, x, r, j);
        assert Held(big, x, r, j);
      }
    }
  }

  lemma SameLive(p: Pool, p': Pool)
    requires forall x, r: nat, j: nat :: Held(p', x, r, j) <==> Held(p, x, r, j)
    ensures Live(p') == Live(p)
  {
    hide Held;
    forall x: int
      ensures IsLive(p', x) <==> IsLive(p, x)
    {
      if IsLive(p, x) {
        var r: nat, j: nat :| Held(p, x, r, j);
        assert Held(p', x, r, j);
      }
    }
  }

  // ---- the steps of malloc

  lemma RetireSound(p: Pool, t: nat, q: nat)
    requires SoundPool(p) && t < TYPES && IsA(p, q, t, Available) && p.subheaps[q].clusters.free == []
    ensures SoundPool(Retire(p, t, q)) && Live(Retire(p, t, q)) == Live(p)
  {
    hide Shape, Owned, RegionsApart, Instances, AllListed, OneEmpty;
    var p' := Retire(p, t, q);
    var h' := p.subheaps[q].(status := Full);
    ShapeOf(p, q);
    RetireShape(p.subheaps[q], t, q);
    UpdateKeeps(p, p', q, h');
    RelistListed(p, p', t, q, On(Full));
    NonemptyAfterAll(p.subheaps[q], t, q);
    KeepOneEmpty(p, p', q);
    SameLive(p, p');
  }

  lemma RetireShape(h: Subheap, t: nat, q: nat)
    requires Shape(h, t, q) && h.clusters.free == []
    ensures Shape(h.(status := Full), t, q)
  {}

  lemma NonemptyAfterAll(h: Subheap, t: nat, q: nat)
    requires Shape(h, t, q)
    ensures 0 < h.clusters.count && |h.clusters.free| <= h.clusters.count
    ensures h.clusters.free == [] ==> !IsEmpty(h)
  {
    hide Region, ClusterSize;
    assert h.clusters.count == 0 ==> h.clusterSize * h.clusters.count == 0;
    AtMost(h.clusters.free, h.clusters.count);
  }

  lemma TakeShape(h: Subheap, t: nat, q: nat)
    requires Shape(h, t, q) && h.clusters.free != []
    ensures Sound(h.clusters)
    ensures var h' := h.(clusters := TakeHead(h.clusters)); Shape(h', t, q) && !IsEmpty(h')
  {
    hide Region, ClusterSize;
    TakeHeadSound(h.clusters);
    NonemptyAfterAll(h, t, q);
  }

  lemma TakeSound(p: Pool, t: nat, q: nat)
    requires SoundPool(p) && t < TYPES && IsA(p, q, t, Available) && p.subheaps[q].clusters.free != []
    ensures SoundPool(TakeFrom(p, q))
    ensures var h := p.subheaps[q]; var ptr := Address(h.address, h.clusterSize, h.clusters.free[0]);
      ptr !in Live(p) && Live(TakeFrom(p, q)) == Live(p) + iset{ptr}
  {
    hide Shape, Owned, RegionsApart, Instances, AllListed, OneEmpty, Sound;
    var p' := TakeFrom(p, q);
    var h := p.subheaps[q];
    var h' := h.(clusters := TakeHead(h.clusters));
    ShapeOf(p, q);
    TakeShape(h, t, q);
    UpdateKeeps(p, p', q, h');
    TakeHeadSound(h.clusters);
    KeepListed(p, p');
    KeepOneEmpty(p, p', q);
    OneMoreLive(p, p', Address(h.address, h.clusterSize, h.clusters.free[0]), q, h.clusters.free[0]);
  }

  /** What the super heap must give for a new subheap, and what its clusters are. */
  ghost predicate Claimable(p: Pool, t: nat, address: int, size: nat, clusterSize: nat) {
    && 0 <= PartitionOf(address) && Region(address, size, PartitionOf(address)) && Unclaimed(p, address, size)
    && 0 < clusterSize <= size && size % clusterSize == 0
    && Divided(t, address, size, clusterSize)
  }

  lemma NewShape(t: nat, q: nat, address: int, size: nat, clusterSize: nat, aggressive: bool, instance: nat)
    requires Region(address, size, q) && 0 < clusterSize <= size && size % clusterSize == 0
    requires Divided(t, address, size, clusterSize)
    ensures var h := NewSubheap(address, size, clusterSize, aggressive, instance);
      && h.clusters.free != [] && h.clusters.free[0] == 0 && h.clusters.count > 0
      && var h' := h.(clusters := TakeHead(h.clusters));
      && Shape(h', t, q) && !IsEmpty(h') && (forall i: nat :: i in h'.clusters.free <==> 0 < i < h'.clusters.count)
  {
    hide Region, ClusterSize;
    Quotient(size, clusterSize);
    QuotientAtLeast(size, clusterSize, 1);
    var n := size / clusterSize;
    var c := Initial(n, aggressive);
    InitialSound(n, aggressive);
    TakeHeadSound(c);
    assert c.free[0] == 0;
    forall i: nat | i < n
      ensures i in c.free
    {
      assert c.free[i] == i;
    }
    if size != PARTITION_SIZE {
      DivUnique(size, size, 1, 0);
      assert n == 1;
    }
  }

  lemma UnusedRest(unused: seq<nat>)
    requires NoDuplicates(unused) && unused != []
    ensures NoDuplicates(unused[1..]) && unused[0] in unused && unused[0] !in unused[1..]
    ensures forall u :: u in unused[1..] ==> u in unused
  {
    assert unused == [unused[0]] + unused[1..];
    assert forall j :: 0 <= j < |unused| - 1 ==> unused[1..][j] == unused[j + 1];
  }

  lemma ClaimInstances(p: Pool, p': Pool, q: nat, h: Subheap)
    requires Instances(p) && q !in p.subheaps && p.unused != [] && h.instance == p.unused[0]
    requires p'.subheaps == p.subheaps[q := h] && p'.unused == p.unused[1..]
    ensures Instances(p')
  {
    UnusedRest(p.unused);
    assert p'.subheaps.Keys == p.subheaps.Keys + {q};
    assert |p'.subheaps| == |p'.subheaps.Keys|;
    assert |p.subheaps| == |p.subheaps.Keys|;
  }

  lemma ClaimApart(p: Pool, p': Pool, q: nat, h: Subheap)
    requires RegionsApart(p) && q !in p.subheaps && Unclaimed(p, h.address, h.size)
    requires p'.subheaps == p.subheaps[q := h]
    ensures RegionsApart(p')
  {}

  lemma ClaimOwned(p: Pool, p': Pool, t: nat, q: nat, h: Subheap)
    requires Owned(p) && q < NUM_PARTITIONS && t < TYPES && q !in p.subheaps && Shape(h, t, q)
    requires p'.subheaps == p.subheaps[q := h] && p'.types == p.types[q := t]
    ensures Owned(p')
  {
    hide Shape;
    forall r | r in p'.subheaps
      ensures r < NUM_PARTITIONS && p'.types[r] < TYPES && Shape(p'.subheaps[r], p'.types[r], r)
    {
      if r != q {
        assert p.subheaps[r] == p'.subheaps[r];
      }
    }
  }

  lemma ClaimSound(p: Pool, t: nat, address: int, size: nat, clusterSize: nat, aggressive: bool)
    requires SoundPool(p) && t < TYPES && p.unused != [] && Claimable(p, t, address, size, clusterSize)
    ensures 0 <= PartitionOf(address) < |p.types| && |p.avai| == |p.full| == TYPES
    ensures var p' := Claim(p, t, address, size, clusterSize, aggressive);
      SoundPool(p') && address !in Live(p) && Live(p') == Live(p) + iset{address}
  {
    hide Shape, Owned, RegionsApart, Instances, AllListed, OneEmpty, PartitionOf, Region;
    var q := PartitionOf(address);
    NewPartition(p, address, size, q);
    var h := NewSubheap(address, size, clusterSize, aggressive, p.unused[0]);
    NewShape(t, q, address, size, clusterSize, aggressive, p.unused[0]);
    var h' := h.(clusters := TakeHead(h.clusters));
    var p' := Claim(p, t, address, size, clusterSize, aggressive);
    ClaimOwned(p, p', t, q, h');
    ClaimApart(p, p', q, h');
    ClaimInstances(p, p', q, h');
    RelistListed(p, p', t, q, On(h.status));
    KeepOneEmpty(p, p', q);
    FirstAddress(address, clusterSize);
    OneMoreLive(p, p', address, q, 0);
  }

  // ---- the steps of free

  lemma GiveShape(h: Subheap, t: nat, q: nat, i: nat)
    requires Shape(h, t, q) && i < h.clusters.count && i !in h.clusters.free
    ensures var h' := h.(clusters := PutBack(h.clusters, i));
      && (forall j: nat :: j in h'.clusters.free <==> j == i || j in h.clusters.free)
      && (if h.size == PARTITION_SIZE then Shape(h'.(status := Available), t, q) else h.status.Full? && IsEmpty(h'))
  {
    hide Region, ClusterSize;
    PutBackSound(h.clusters, i);
    if h.size != PARTITION_SIZE {
      OneCluster(h, t, q);
      assert i == 0;
    }
  }

  /** Of a type whose available list is `[q]`, no other subheap is empty. */
  lemma OthersNotEmpty(p: Pool, t: nat, q: nat, r: nat)
    requires SoundPool(p) && t < TYPES && p.avai[t] == [q] && r != q
    ensures !EmptyOf(p, r, t)
  {
    hide Shape, Owned, RegionsApart, Instances, OneEmpty, AllListed, Listed;
    if r in p.subheaps && r < |p.types| && p.types[r] == t {
      ShapeOf(p, r);
      NonemptyAfterAll(p.subheaps[r], t, r);
      if p.subheaps[r].status.Full? {
        FullNotEmpty(p.subheaps[r], t, r);
      }
      NotListed(p, t, q, r);
    }
  }

  lemma FullNotEmpty(h: Subheap, t: nat, q: nat)
    requires Shape(h, t, q) && h.status.Full?
    ensures !IsEmpty(h)
  {
    NonemptyAfterAll(h, t, q);
  }

  lemma NotListed(p: Pool, t: nat, q: nat, r: nat)
    requires SoundPool(p) && t < TYPES && p.avai[t] == [q] && r != q
    ensures !IsA(p, r, t, Available)
  {
    ListedOf(p, t);
    hide AllListed, Owned, RegionsApart, Instances, OneEmpty, IsA;
    assert r !in p.avai[t];
  }

  lemma OneEmptyAfter(p: Pool, p': Pool, t: nat, q: nat)
    requires SoundPool(p) && t < TYPES && q < |p.types| && p.types[q] == t
    requires forall r: nat, u: nat :: EmptyOf(p', r, u) && r != q ==> EmptyOf(p, r, u)
    requires forall u: nat :: EmptyOf(p', q, u) ==> u == t && p.avai[t] == [q]
    ensures OneEmpty(p')
  {
    forall r: nat, r': nat, u: nat | EmptyOf(p', r, u) && EmptyOf(p', r', u)
      ensures r == r'
    {
      hide EmptyOf, Owned, RegionsApart, Instances, AllListed;
      if r == q && r' != q {
        OthersNotEmpty(p, t, q, r');
      } else if r' == q && r != q {
        OthersNotEmpty(p, t, q, r);
      }
    }
  }

  lemma DestroyKeeps(p: Pool, p': Pool, q: nat)
    requires Owned(p) && RegionsApart(p) && Instances(p) && q in p.subheaps && q < |p.types|
    requires p'.subheaps == p.subheaps - {q} && p'.types == p.types[q := INVALID_TYPE]
    requires p'.unused == [p.subheaps[q].instance] + p.unused
    ensures Owned(p') && RegionsApart(p') && Instances(p')
  {
    hide Shape, Disjoint;
    DestroyOwned(p, p', q);
    DestroyInstances(p, p', q);
  }

  lemma DestroyOwned(p: Pool, p': Pool, q: nat)
    requires Owned(p) && q in p.subheaps && q < |p.types|
    requires p'.subheaps == p.subheaps - {q} && p'.types == p.types[q := INVALID_TYPE]
    ensures Owned(p')
  {
    hide Shape;
    forall r | r in p'.subheaps
      ensures r < NUM_PARTITIONS && p'.types[r] < TYPES && Shape(p'.subheaps[r], p'.types[r], r)
    {
      assert p.subheaps[r] == p'.subheaps[r];
    }
  }

  lemma DestroyInstances(p: Pool, p': Pool, q: nat)
    requires Instances(p) && q in p.subheaps && p'.subheaps == p.subheaps - {q}
    requires p'.unused == [p.subheaps[q].instance] + p.unused
    ensures Instances(p')
  {
    var x := p.subheaps[q].instance;
    assert forall u :: u in p'.unused <==> u == x || u in p.unused;
    assert p.subheaps.Keys == p'.subheaps.Keys + {q};
    assert |p'.subheaps| == |p'.subheaps.Keys|;
    assert |p.subheaps| == |p.subheaps.Keys|;
  }

  lemma DropUpdated(m: map<nat, Subheap>, q: nat, h: Subheap)
    ensures m[q := h] - {q} == m - {q}
  {}

  lemma DestroySound(p: Pool, t: nat, q: nat, i: nat)
    requires SoundPool(p) && q in p.subheaps && q < |p.types| && p.types[q] == t < TYPES
    ensures SoundPool(Destroy(Give(p, q, i), t, q))
  {
    hide Shape, Owned, RegionsApart, Instances, AllListed, OneEmpty;
    var p' := Destroy(Give(p, q, i), t, q);
    DropUpdated(p.subheaps, q, Give(p, q, i).subheaps[q]);
    DestroyKeeps(p, p', q);
    RelistListed(p, p', t, q, Nowhere);
    KeepOneEmpty(p, p', q);
  }

  lemma ReviveSound(p: Pool, t: nat, q: nat, i: nat)
    requires SoundPool(p) && q in p.subheaps && q < |p.types| && p.types[q] == t < TYPES
    requires i < p.subheaps[q].clusters.count && i !in p.subheaps[q].clusters.free
    requires p.subheaps[q].status.Full? && !IsEmpty(Give(p, q, i).subheaps[q])
    ensures SoundPool(Revive(Give(p, q, i), t, q))
  {
    hide Shape, Owned, RegionsApart, Instances, AllListed, OneEmpty;
    var p' := Revive(Give(p, q, i), t, q);
    var h := p.subheaps[q];
    var h' := h.(clusters := PutBack(h.clusters, i), status := Available);
    assert p'.subheaps == p.subheaps[q := h'];
    ShapeOf(p, q);
    GiveShape(h, t, q, i);
    UpdateKeeps(p, p', q, h');
    RelistListed(p, p', t, q, On(Available));
    OneEmptyAfter(p, p', t, q);
  }

  lemma GiveSound(p: Pool, t: nat, q: nat, i: nat)
    requires SoundPool(p) && q in p.subheaps && q < |p.types| && p.types[q] == t < TYPES
    requires i < p.subheaps[q].clusters.count && i !in p.subheaps[q].clusters.free
    requires p.subheaps[q].status.Available? && (IsEmpty(Give(p, q, i).subheaps[q]) ==> p.avai[t] == [q])
    ensures SoundPool(Give(p, q, i))
  {
    hide Shape, Owned, RegionsApart, Instances, AllListed, OneEmpty;
    var p' := Give(p, q, i);
    var h := p.subheaps[q];
    ShapeOf(p, q);
    GiveShape(h, t, q, i);
    assert h.(clusters := PutBack(h.clusters, i)).(status := Available) == p'.subheaps[q];
    UpdateKeeps(p, p', q, p'.subheaps[q]);
    KeepListed(p, p');
    OneEmptyAfter(p, p', t, q);
  }

  /** Freeing a live pointer takes just this pointer out of the live ones, and the bookkeeping stays sound. */
  lemma FreedSound(p: Pool, t: nat, q: nat, i: nat, ptr: int)
    requires SoundPool(p) && Held(p, ptr, q, i) && q < |p.types| && t == p.types[q]
    ensures t < TYPES
    ensures var p' := Freed(p, t, q, i);
      SoundPool(p') && Live(p') == Live(p) - iset{ptr} && ptr in Live(p)
  {
    hide Shape, Owned, RegionsApart, Instances, AllListed, OneEmpty, Listed;
    ShapeOf(p, q);
    var h := p.subheaps[q];
    var p' := Freed(p, t, q, i);
    GiveShape(h, t, q, i);
    assert Listed(p, t) by {
      ListedOf(p, t);
    }
    if IsEmpty(Give(p, q, i).subheaps[q]) && p.avai[t] != [q] {
      DestroySound(p, t, q, i);
      AllFree(h, t, q, i);
    } else if h.status.Full? {
      FullNotAlone(p, t, q);
      ReviveSound(p, t, q, i);
    } else {
      GiveSound(p, t, q, i);
    }
    OneMoreLive(p', p, ptr, q, i);
  }

  lemma ListedOf(p: Pool, t: nat)
    requires SoundPool(p) && t < TYPES
    ensures Listed(p, t)
  {}

  lemma FullNotAlone(p: Pool, t: nat, q: nat)
    requires SoundPool(p) && t < TYPES && IsA(p, q, t, Full)
    ensures p.avai[t] != [q]
  {
    ListedOf(p, t);
    hide AllListed, Owned, RegionsApart, Instances, OneEmpty;
    assert !IsA(p, q, t, Available);
    assert q !in p.avai[t];
    if p.avai[t] == [q] {
      Alone(p.avai[t], q);
    }
  }

  lemma Alone(list: seq<nat>, q: nat)
    requires list == [q]
    ensures q in list
  {}

  /** When giving back `i` empties the subheap, `i` was its only allocated cluster. */
  lemma AllFree(h: Subheap, t: nat, q: nat, i: nat)
    requires Shape(h, t, q) && i < h.clusters.count && i !in h.clusters.free
    requires |h.clusters.free| + 1 == h.clusters.count
    ensures forall j: nat :: j < h.clusters.count ==> j == i || j in h.clusters.free
  {
    hide Region, ClusterSize;
    var free := [i] + h.clusters.free;
    ElementsCount(free);
    forall j: nat | j < h.clusters.count
      ensures j == i || j in h.clusters.free
    {
      assert j in free <==> j == i || j in h.clusters.free;
      if j !in free {
        SubsetSize(Elements(free), UpTo(h.clusters.count), j);
      }
    }
  }

  // ---- conservation

  /** The lengths of the lists of the first `n` types. */
  ghost function ListLengths(p: Pool, n: nat): nat
    requires n <= |p.avai| && n <= |p.full|
  {
    if n == 0 then 0 else ListLengths(p, n - 1) + |p.avai[n - 1]| + |p.full[n - 1]|
  }

  ghost function OfTypesBelow(p: Pool, n: nat): set<nat> {
    set q | q in p.subheaps && q < |p.types| && p.types[q] < n
  }

  ghost predicate IsOf(p: Pool, q: nat, t: nat) {
    q in p.subheaps && q < |p.types| && p.types[q] == t
  }

  lemma MembersOfType(p: Pool, t: nat, q: nat)
    requires SoundPool(p) && t < TYPES
    ensures IsOf(p, q, t) <==> q in p.avai[t] || q in p.full[t]
    ensures !(q in p.avai[t] && q in p.full[t])
  {
    ListedOf(p, t);
    hide SoundPool;
    assert IsOf(p, q, t) <==> IsA(p, q, t, Available) || IsA(p, q, t, Full);
  }

  lemma OfType(p: Pool, t: nat)
    requires SoundPool(p) && t < TYPES
    ensures OfTypesBelow(p, t + 1) == OfTypesBelow(p, t) + Elements(p.avai[t]) + Elements(p.full[t])
    ensures OfTypesBelow(p, t) !! Elements(p.avai[t]) && OfTypesBelow(p, t) !! Elements(p.full[t])
    ensures Elements(p.avai[t]) !! Elements(p.full[t])
  {
    forall q: nat
      ensures q in Elements(p.avai[t]) || q in Elements(p.full[t]) <==> IsOf(p, q, t)
      ensures !(q in Elements(p.avai[t]) && q in Elements(p.full[t]))
    {
      MembersOfType(p, t, q);
    }
    hide SoundPool, Elements;
  }

  lemma {:induction false} ListsCover(p: Pool, n: nat)
    requires SoundPool(p) && n <= TYPES
    ensures ListLengths(p, n) == |OfTypesBelow(p, n)|
  {
    hide SoundPool, Elements;
    if n > 0 {
      NoDuplicatesOf(p, n - 1);
      ListsCover(p, n - 1);
      OfType(p, n - 1);
      ElementsCount(p.avai[n - 1]);
      ElementsCount(p.full[n - 1]);
    }
  }

  lemma NoDuplicatesOf(p: Pool, t: nat)
    requires SoundPool(p) && t < TYPES
    ensures |p.avai| == |p.full| == TYPES && NoDuplicates(p.avai[t]) && NoDuplicates(p.full[t])
  {
    ListedOf(p, t);
  }

  ghost function UnusedPartitions(p: Pool): set<nat> {
    set q: nat | q < |p.types| && p.types[q] == INVALID_TYPE
  }

  lemma KeysByType(p: Pool)
    requires Owned(p)
    ensures OfTypesBelow(p, TYPES) == p.subheaps.Keys
    ensures p.subheaps.Keys !! UnusedPartitions(p)
    ensures UpTo(NUM_PARTITIONS) == p.subheaps.Keys + UnusedPartitions(p)
  {
    hide Shape;
  }

  /** Subheaps on the lists and unused ones make up the pool, and a partition is unused for each unused instance. */
  lemma Conserved(p: Pool)
    requires SoundPool(p)
    ensures ListLengths(p, TYPES) + |p.unused| == NUM_PARTITIONS
    ensures |UnusedPartitions(p)| == |p.unused|
  {
    ListsCover(p, TYPES);
    KeysByType(p);
    PoolSize(p);
    hide SoundPool, UnusedPartitions, OfTypesBelow;
    assert |p.subheaps.Keys + UnusedPartitions(p)| == NUM_PARTITIONS;
  }

  lemma PoolSize(p: Pool)
    requires SoundPool(p)
    ensures |p.unused| + |p.subheaps.Keys| == NUM_PARTITIONS
  {
    hide AllListed, Owned, RegionsApart, OneEmpty;
    assert |p.subheaps| == |p.subheaps.Keys|;
  }

  // ---- runs

  /** One step of the heap: what malloc does, in up to many steps, or one free. */
  datatype Move =
    | Retirement(t: nat, q: nat)
    | Allocation(t: nat, q: nat)
    | Creation(t: nat, address: int, size: nat, clusterSize: nat, aggressive: bool)
    | Return(q: nat, i: nat, ptr: int)

  ghost predicate Enabled(p: Pool, m: Move) {
    match m
    case Retirement(t, q) => t < TYPES && IsA(p, q, t, Available) && p.subheaps[q].clusters.free == []
    case Allocation(t, q) => t < TYPES && IsA(p, q, t, Available) && p.subheaps[q].clusters.free != []
    case Creation(t, address, size, clusterSize, _) =>
      t < TYPES && p.unused != [] && Claimable(p, t, address, size, clusterSize)
    case Return(q, i, ptr) => Held(p, ptr, q, i)
  }

  ghost function After(p: Pool, m: Move): Pool
    requires SoundPool(p) && Enabled(p, m)
  {
    match m
    case Retirement(t, q) => Retire(p, t, q)
    case Allocation(t, q) => TakeFrom(p, q)
    case Creation(t, address, size, clusterSize, aggressive) =>
      ClaimSound(p, t, address, size, clusterSize, aggressive);
      Claim(p, t, address, size, clusterSize, aggressive)
    case Return(q, i, ptr) =>
      ShapeOf(p, q);
      Freed(p, p.types[q], q, i)
  }

  lemma AfterSound(p: Pool, m: Move)
    requires SoundPool(p) && Enabled(p, m)
    ensures SoundPool(After(p, m))
  {
    hide SoundPool;
    match m
    case Retirement(t, q) => RetireSound(p, t, q);
    case Allocation(t, q) => TakeSound(p, t, q);
    case Creation(t, address, size, clusterSize, aggressive) => ClaimSound(p, t, address, size, clusterSize, aggressive);
    case Return(q, i, ptr) =>
      ShapeOf(p, q);
      FreedSound(p, p.types[q], q, i, ptr);
  }

  /** A live pointer keeps its owner and its type until it is freed. */
  lemma HeldStays(p: Pool, m: Move, ptr: int, q: nat, i: nat)
    requires SoundPool(p) && Enabled(p, m) && Held(p, ptr, q, i) && !(m.Return? && m.ptr == ptr)
    ensures Held(After(p, m), ptr, q, i) && q < |p.types| == |After(p, m).types| && After(p, m).types[q] == p.types[q]
  {
    ShapeOf(p, q);
    match m
    case Retirement(t, r) =>
    case Allocation(t, r) =>
      hide SoundPool;
      HeldTaken(p, r, ptr, q, i);
    case Creation(t, address, size, clusterSize, aggressive) =>
      NewPartition(p, address, size, PartitionOf(address));
    case Return(r, j, x) =>
      hide SoundPool, Shape, Freed;
      ShapeOf(p, r);
      HeldFreed(p, p.types[r], r, j, x, ptr, q, i);
  }

  lemma HeldTaken(p: Pool, r: nat, ptr: int, q: nat, i: nat)
    requires Held(p, ptr, q, i) && r in p.subheaps && p.subheaps[r].clusters.free != []
    ensures Held(TakeFrom(p, r), ptr, q, i)
  {
    var free := p.subheaps[r].clusters.free;
    assert free == [free[0]] + free[1..];
  }

  lemma FreedElsewhere(p: Pool, t: nat, r: nat, j: nat, q: nat)
    requires t < |p.avai| && t < |p.full| && r in p.subheaps && r < |p.types| && q in p.subheaps && q < |p.types|
    requires q != r
    ensures var p' := Freed(p, t, r, j); q in p'.subheaps && p'.subheaps[q] == p.subheaps[q]
    ensures var p' := Freed(p, t, r, j); |p'.types| == |p.types| && p'.types[q] == p.types[q]
  {
    hide IsEmpty, Moved;
  }

  lemma FreedHere(p: Pool, t: nat, q: nat, j: nat, i: nat)
    requires SoundPool(p) && t < TYPES && q in p.subheaps && q < |p.types| && p.types[q] == t
    requires i < p.subheaps[q].clusters.count && i !in p.subheaps[q].clusters.free
    requires j < p.subheaps[q].clusters.count && j !in p.subheaps[q].clusters.free && i != j
    ensures var p' := Freed(p, t, q, j);
      && q in p'.subheaps && SameRegion(p.subheaps[q], p'.subheaps[q]) && p'.types == p.types
      && p'.subheaps[q].clusters == PutBack(p.subheaps[q].clusters, j)
  {
    ShapeOf(p, q);
    hide SoundPool, Shape, Moved;
    if IsEmpty(Give(p, q, j).subheaps[q]) {
      AllFree(p.subheaps[q], t, q, j);
    }
  }

  lemma HeldFreed(p: Pool, t: nat, r: nat, j: nat, x: int, ptr: int, q: nat, i: nat)
    requires SoundPool(p) && Held(p, x, r, j) && Held(p, ptr, q, i) && ptr != x
    requires r < |p.types| && t == p.types[r] && t < TYPES && q < |p.types|
    ensures var p' := Freed(p, t, r, j);
      Held(p', ptr, q, i) && |p'.types| == |p.types| && p'.types[q] == p.types[q]
  {
    hide AllListed, Owned, RegionsApart, Instances, OneEmpty, Freed, Address;
    if q == r {
      FreedHere(p, t, r, j, i);
    } else {
      FreedElsewhere(p, t, r, j, q);
    }
  }

  ghost predicate IsRun(states: seq<Pool>, moves: seq<Move>) {
    && |states| == |moves| + 1 && SoundPool(states[0])
    && forall k {:trigger moves[k]} :: 0 <= k < |moves| ==>
      SoundPool(states[k]) ==> Enabled(states[k], moves[k]) && states[k + 1] == After(states[k], moves[k])
  }

  /** Everything stays sound over any run. */
  lemma {:induction false} RunSound(states: seq<Pool>, moves: seq<Move>, k: nat)
    requires IsRun(states, moves) && k < |states|
    ensures SoundPool(states[k])
  {
    if k > 0 {
      hide SoundPool, Enabled, After;
      RunSound(states, moves, k - 1);
      assert moves[k - 1] == moves[k - 1];
      AfterSound(states[k - 1], moves[k - 1]);
    }
  }

  /** From its allocation to its free, whatever else happens, a pointer finds the same owner and the same type. */
  lemma {:induction false} OwnerIsKept(states: seq<Pool>, moves: seq<Move>, j: nat, k: nat, ptr: int, q: nat, i: nat)
    requires IsRun(states, moves) && j <= k < |states| && Held(states[j], ptr, q, i)
    requires forall n :: j <= n < k ==> !(moves[n].Return? && moves[n].ptr == ptr)
    ensures Held(states[k], ptr, q, i) && PartitionOf(ptr) == q
    ensures q < |states[j].types| == |states[k].types| && states[k].types[q] == states[j].types[q] < TYPES
  {
    RunSound(states, moves, k);
    if k == j {
      OwnerFound(states[k], ptr, q, i);
    } else {
      OwnerIsKept(states, moves, j, k - 1, ptr, q, i);
      RunSound(states, moves, k - 1);
      assert !(moves[k - 1].Return? && moves[k - 1].ptr == ptr);
      hide SoundPool, Held;
      HeldStays(states[k - 1], moves[k - 1], ptr, q, i);
    }
  }

  /** Over any run a subheap of type n > 0 is a partition cut into clusters of PAGE_SIZE << (n - 1). */
  lemma ClusterSizesKept(states: seq<Pool>, moves: seq<Move>, k: nat, q: nat)
    requires IsRun(states, moves) && k < |states| && q in states[k].subheaps
    ensures q < |states[k].types| && var t, h := states[k].types[q], states[k].subheaps[q];
      t < TYPES && (0 < t ==> h.size == PARTITION_SIZE && h.clusterSize == PAGE_SIZE * Power2(t - 1))
  {
    RunSound(states, moves, k);
    hide SoundPool, IsRun;
    ShapeOf(states[k], q);
  }
}
