/** pageclusterheap.h: a region cut into clusters of one size. The free clusters are kept on a list. */
module ClusterLists {
  import opened Sequences

  /**
   * `free` is the free list from its head; `discarded` are the clusters flagged as discarded, free or not.
   * In the AGGRESSIVE_DISCARD build the pages of a freed cluster are given back at once.
   */
  datatype Clusters = Clusters(count: nat, aggressive: bool, free: seq<nat>, discarded: set<nat>)

  function InOrder(n: nat): (s: seq<nat>)
    ensures |s| == n && forall i :: 0 <= i < n ==> s[i] == i
  {
    seq(n, i => i)
  }

  function Initial(n: nat, aggressive: bool): Clusters {
    Clusters(n, aggressive, InOrder(n), set i | i in InOrder(n))
  }

  function TakeHead(c: Clusters): Clusters
    requires c.free != []
  {
    c.(free := c.free[1..])
  }

  function PutBack(c: Clusters, i: nat): Clusters {
    c.(free := [i] + c.free, discarded := if c.aggressive then c.discarded + {i} else c.discarded - {i})
  }

  /** The length of the part of the free list that is still resident. */
  ghost predicate ResidentFirst(c: Clusters, resident: nat) {
    && resident <= |c.free|
    && forall j :: 0 <= j < |c.free| ==> (c.free[j] in c.discarded <==> resident <= j)
  }

  ghost predicate Sound(c: Clusters) {
    && NoDuplicates(c.free) && (forall i :: i in c.free ==> i < c.count)
    && (exists resident: nat :: ResidentFirst(c, resident))
    && (c.aggressive ==> forall i :: i in c.free ==> i in c.discarded)
  }

  ghost function CountDiscarded(free: seq<nat>, discarded: set<nat>): nat {
    if free == [] then 0 else (if free[0] in discarded then 1 else 0) + CountDiscarded(free[1..], discarded)
  }

  lemma InitialSound(n: nat, aggressive: bool)
    ensures Sound(Initial(n, aggressive)) && CountDiscarded(InOrder(n), Initial(n, aggressive).discarded) == n
  {
    assert ResidentFirst(Initial(n, aggressive), 0);
    AllDiscarded(InOrder(n), Initial(n, aggressive).discarded);
  }

  lemma {:induction false} AllDiscarded(free: seq<nat>, discarded: set<nat>)
    requires forall j :: 0 <= j < |free| ==> free[j] in discarded
    ensures CountDiscarded(free, discarded) == |free|
  {
    if free != [] {
      AllDiscarded(free[1..], discarded);
    }
  }

  /** A change of the flag of a cluster that is not on the list does not matter. */
  lemma {:induction false} CountElsewhere(free: seq<nat>, discarded: set<nat>, discarded': set<nat>)
    requires forall j :: 0 <= j < |free| ==> (free[j] in discarded <==> free[j] in discarded')
    ensures CountDiscarded(free, discarded) == CountDiscarded(free, discarded')
  {
    if free != [] {
      CountElsewhere(free[1..], discarded, discarded');
    }
  }

  /** The counter is the length of the discarded suffix. */
  lemma {:induction false} CountIsSuffix(c: Clusters, resident: nat)
    requires ResidentFirst(c, resident)
    ensures CountDiscarded(c.free, c.discarded) == |c.free| - resident
    decreases |c.free|
  {
    if c.free != [] {
      var tail := c.(free := c.free[1..]);
      assert ResidentFirst(tail, if resident == 0 then 0 else resident - 1);
      CountIsSuffix(tail, if resident == 0 then 0 else resident - 1);
    }
  }

  /** A discarded cluster is handed out only when no resident free one remains. */
  lemma ResidentBeforeDiscarded(c: Clusters)
    requires Sound(c) && c.free != [] && c.free[0] in c.discarded
    ensures forall i :: i in c.free ==> i in c.discarded
  {
    var resident: nat :| ResidentFirst(c, resident);
  }

  lemma TakeHeadSound(c: Clusters)
    requires Sound(c) && c.free != []
    ensures Sound(TakeHead(c)) && c.free[0] !in TakeHead(c).free && c.free[0] in c.free && c.free[0] < c.count
    ensures forall i :: i in c.free <==> i == c.free[0] || i in TakeHead(c).free
  {
    var resident: nat :| ResidentFirst(c, resident);
    assert ResidentFirst(TakeHead(c), if resident == 0 then 0 else resident - 1);
    assert c.free[0] in c.free && forall i :: i in c.free[1..] ==> i in c.free;
    assert c.free == [c.free[0]] + c.free[1..];
    assert forall j :: 0 <= j < |c.free| - 1 ==> c.free[1..][j] == c.free[j + 1];
  }

  lemma PutBackSound(c: Clusters, i: nat)
    requires Sound(c) && i < c.count && i !in c.free
    ensures Sound(PutBack(c, i))
    ensures forall j :: j in PutBack(c, i).free <==> j == i || j in c.free
  {
    var d := PutBack(c, i);
    var resident: nat :| ResidentFirst(c, resident);
    assert forall j :: 0 < j < |d.free| ==> d.free[j] == c.free[j - 1];
    if c.aggressive {
      assert ResidentFirst(d, 0);
    } else {
      assert ResidentFirst(d, resident + 1);
    }
  }
}

module PageClusterHeaps {
  import opened IntrusiveLists
  import opened ReapBases
  import opened ReapLayouts
  import opened ClusterLists

  datatype Flags = Flags(free: bool, discarded: bool)

  ghost function DiscardedSet(flags: seq<Flags>): set<nat> {
    set i: nat | i < |flags| && flags[i].discarded
  }

  lemma InitialFlags(flags: seq<Flags>, free: seq<nat>)
    requires |free| == |flags| && forall j :: 0 <= j < |flags| ==> flags[j] == Flags(true, true) && free[j] == j
    ensures free == InOrder(|flags|) && DiscardedSet(flags) == Initial(|flags|, false).discarded
    ensures forall i :: 0 <= i < |flags| ==> i in free
    ensures forall i :: i in free ==> i in DiscardedSet(flags)
  {
    assert free == InOrder(|flags|);
    forall i | 0 <= i < |flags|
      ensures i in free
    {
      assert free[i] == i;
    }
  }

  class PageClusterHeap {
    const aggressive: bool
    const clusterSize: nat
    const numClusters: nat
    const heapSpace: int
    const flags: array<Flags>
    // cluster indices; the source links the cluster map entries
    var freeList: seq<nat>
    var numFree: int
    var numDiscarded: int

    ghost function State(): Clusters
      reads this, flags
    {
      Clusters(numClusters, aggressive, freeList, DiscardedSet(flags[..]))
    }

    ghost predicate Valid()
      reads this, flags
    {
      && 0 < clusterSize && 0 < heapSpace && flags.Length == numClusters
      && Sound(State())
      // the free list holds exactly the clusters flagged free
      && (forall i :: 0 <= i < numClusters ==> (flags[i].free <==> i in freeList))
      && numFree == |freeList| && numDiscarded == CountDiscarded(freeList, State().discarded)
    }

    /** At first every cluster is free and discarded. `space` is the region the super heap gave. */
    constructor (heapSize: nat, clusterSize: nat, space: int, aggressive: bool)
      requires 0 < clusterSize <= heapSize && heapSize % clusterSize == 0
      requires heapSize % PAGE_SIZE == 0 && clusterSize % PAGE_SIZE == 0 && 0 < space
      ensures Valid() && fresh(flags) && State() == Initial(heapSize / clusterSize, aggressive)
      ensures numClusters * clusterSize == heapSize && numFree == numDiscarded == numClusters
      ensures |freeList| == numClusters && forall j :: 0 <= j < numClusters ==> freeList[j] == j && flags[j] == Flags(true, true)
      ensures this.clusterSize == clusterSize && heapSpace == space
    {
      var n := heapSize / clusterSize;
      Quotient(heapSize, clusterSize);
      this.aggressive, this.clusterSize, numClusters, heapSpace := aggressive, clusterSize, n, space;
      numFree, numDiscarded, freeList := n, n, [];
      flags := new Flags[n](_ => Flags(false, false));
      new;
      FillList();
      InitialSound(n, aggressive);
      InitialFlags(flags[..], freeList);
    }

    /** The constructor's loop over the cluster map. */
    method FillList()
      requires freeList == [] && flags.Length == numClusters
      modifies this`freeList, flags
      ensures |freeList| == numClusters && forall j :: 0 <= j < numClusters ==> freeList[j] == j
      ensures forall j :: 0 <= j < numClusters ==> flags[j] == Flags(true, true)
    {
      for i := 0 to numClusters
        invariant |freeList| == i && forall j :: 0 <= j < i ==> freeList[j] == j
        invariant forall j :: 0 <= j < i ==> flags[j] == Flags(true, true)
      {
        flags[i] := Flags(true, true);
        freeList := freeList + [i];
      }
    }

    /** The cluster at the head of the free list; its DISCARDED flag stays as it is. */
    method Malloc(size: nat) returns (ptr: int)
      requires Valid() && size == clusterSize
      modifies this, flags
      ensures Valid()
      ensures var c := old(State());
        if c.free == [] then ptr == NULL && State() == c
        else ptr == Address(heapSpace, clusterSize, c.free[0]) && 0 < ptr && State() == TakeHead(c)
      ensures old(freeList) != [] ==>
        && freeList == old(freeList)[1..] && 0 <= old(freeList[0]) < numClusters
        && (forall j :: 0 <= j < numClusters ==> flags[j].discarded == old(flags[j].discarded))
        && numFree == old(numFree) - 1
        && numDiscarded == old(numDiscarded) - if old(flags[freeList[0]].discarded) then 1 else 0
    {
      ptr := NULL;
      if numFree > 0 {
        TakeHeadSound(State());
        var node := freeList[0];
        freeList := freeList[1..];
        numFree := numFree - 1;
        ghost var discarded := DiscardedSet(flags[..]);
        flags[node] := flags[node].(free := false);
        if flags[node].discarded {
          numDiscarded := numDiscarded - 1;
        }
        assert DiscardedSet(flags[..]) == discarded;
        ptr := heapSpace + clusterSize * node;
        assert clusterSize * node >= 0;
      }
    }

    method Free(ptr: int, ghost i: nat)
      requires Valid() && i < numClusters && i !in State().free && ptr == Address(heapSpace, clusterSize, i)
      modifies this, flags
      ensures Valid() && State() == PutBack(old(State()), i)
      ensures freeList == [i] + old(freeList) && numFree == old(numFree) + 1
      ensures flags[i] == Flags(true, aggressive) && (forall j :: 0 <= j < numClusters && j != i ==> flags[j] == old(flags[j]))
      ensures numDiscarded == old(numDiscarded) + if aggressive then 1 else 0
    {
      SlotOfAddress(heapSpace, clusterSize, i);
      var map' := (ptr - heapSpace) / clusterSize;
      ghost var before := State();
      PutBackSound(before, map');
      freeList := [map'] + freeList;
      numFree := numFree + 1;
      flags[map'] := Flags(true, aggressive);
      if aggressive {
        // the pages are given back here (madvise)
        numDiscarded := numDiscarded + 1;
      }
      assert State() == PutBack(before, map') by {
        assert DiscardedSet(flags[..]) == PutBack(before, map').discarded;
      }
      CountElsewhere(before.free, before.discarded, State().discarded);
      assert State().free[1..] == before.free;
    }

    method IsEmpty() returns (r: bool)
      requires Valid()
      ensures r <==> |State().free| == numClusters
    {
      r := numFree == numClusters;
    }

    /** The assertions of `sanityCheck` hold in every reachable state. */
    method SanityCheck() returns (ok: bool)
      requires Valid()
      ensures ok
    {
      ghost var resident: nat :| ResidentFirst(State(), resident);
      var free, discarded := 0, 0;
      ok := true;
      while free < |freeList|
        invariant 0 <= free <= |freeList| && ok
        invariant discarded == if free <= resident then 0 else free - resident
      {
        assert freeList[free] in freeList;
        var f := flags[freeList[free]];
        ok := ok && f.free && (discarded == 0 || f.discarded);
        free := free + 1;
        if f.discarded {
          discarded := discarded + 1;
        }
      }
      CountIsSuffix(State(), resident);
      ok := ok && free == numFree && discarded == numDiscarded;
    }
  }
}
