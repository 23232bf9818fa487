/** The free lists of segfitheap.h as sequences of object addresses, and the search for a fitting object. */
module SegFitLists {
  import opened Bits
  import opened Bitmaps
  import opened Sequences
  import opened IntrusiveLists
  import opened ObjectHeaders

  // NUM_DEDICATED_SIZES of SegFitHeap<MAX_DEDICATED_SIZE * 2>: SIZE_TO_INDEX(2048) + 1
  const DEDICATED := 256
  // the list for larger objects comes after the dedicated ones
  const LARGE := 256

  /** `SIZE_TO_INDEX`, with one index for all large sizes. */
  function Index(size: nat): (i: nat)
    requires 0 < size
    ensures i <= LARGE
  {
    if (size - 1) / 8 < DEDICATED then (size - 1) / 8 else LARGE
  }

  /** The address of a list head: inside the heap object, outside every chunk. */
  function Head(i: nat): int {
    -1 - i
  }

  type Lists = seq<seq<int>>

  ghost predicate IsLists(lists: Lists) {
    && |lists| == DEDICATED + 1
    && (forall i, x :: 0 <= i < |lists| && x in lists[i] ==> 0 < x)
    && (forall i, j, x :: 0 <= i < |lists| && 0 <= j < |lists| && x in lists[i] && x in lists[j] ==> i == j)
  }

  ghost function Members(lists: Lists): set<int> {
    set i, x | 0 <= i < |lists| && x in lists[i] :: x
  }

  /** Every list is a ring through its head. */
  ghost predicate Threaded(links: Links, lists: Lists) {
    forall i :: 0 <= i < |lists| ==> Ring(links, Head(i), lists[i])
  }

  /** The dedicated lists that are not empty. */
  ghost function Nonempty(lists: Lists): set<nat> {
    set i: nat | i < DEDICATED && i < |lists| && lists[i] != []
  }

  /** The counters and the bitmap tell which dedicated lists are not empty. */
  ghost predicate Indexed(lists: Lists, counter: seq<nat>, bm: seq<word>) {
    && |counter| == DEDICATED && |bm| == DEDICATED / 32
    && (forall i :: 0 <= i < DEDICATED && i < |lists| ==> counter[i] == |lists[i]|)
    && Marked(bm) == Nonempty(lists)
  }

  function SizeOf(size: map<int, int>, x: int): int {
    if x - HEADER in size then size[x - HEADER] else 0
  }

  ghost predicate BelongsTo(size: map<int, int>, x: int, i: nat) {
    x - HEADER in size && 0 < SizeOf(size, x) && SizeOf(size, x) % 8 == 0 && Index(SizeOf(size, x)) == i
  }

  /** Every listed object has a size in its header, and is in the list for that size. */
  ghost predicate Sized(lists: Lists, size: map<int, int>) {
    forall i, x :: 0 <= i < |lists| && x in lists[i] ==> BelongsTo(size, x, i)
  }

  function Push(lists: Lists, i: nat, x: int): Lists
    requires i < |lists|
  {
    lists[i := [x] + lists[i]]
  }

  function Take(lists: Lists, i: nat, p: nat): Lists
    requires i < |lists| && p < |lists[i]|
  {
    lists[i := lists[i][..p] + lists[i][p + 1..]]
  }

  lemma PushLists(lists: Lists, i: nat, x: int)
    requires IsLists(lists) && i < |lists| && 0 < x && x !in Members(lists)
    ensures IsLists(Push(lists, i, x)) && Members(Push(lists, i, x)) == Members(lists) + {x}
  {
    var l := Push(lists, i, x);
    forall j, y | 0 <= j < |l|
      ensures y in l[j] <==> y in lists[j] || (j == i && y == x)
    {}
    assert forall j, y :: 0 <= j < |lists| && y in lists[j] ==> y in Members(lists);
  }

  lemma TakeLists(lists: Lists, i: nat, p: nat)
    requires IsLists(lists) && i < |lists| && p < |lists[i]| && NoDuplicates(lists[i])
    ensures IsLists(Take(lists, i, p)) && Members(Take(lists, i, p)) == Members(lists) - {lists[i][p]}
    ensures lists[i][p] in Members(lists)
  {
    var l, x := Take(lists, i, p), lists[i][p];
    assert x in lists[i];
    forall j, y | 0 <= j < |l|
      ensures y in l[j] <==> y in lists[j] && y != x
    {
      if j == i {
        assert lists[i] == lists[i][..p] + [x] + lists[i][p + 1..];
      }
    }
  }

  lemma HeadsApart(lists: Lists, i: nat, j: nat)
    requires IsLists(lists) && i < |lists| && j < |lists| && i != j
    ensures Nodes(Head(i), lists[i]) !! Nodes(Head(j), lists[j])
  {
    forall x | x in Nodes(Head(i), lists[i])
      ensures x !in Nodes(Head(j), lists[j])
    {}
  }

  lemma PushThreaded(links: Links, lists: Lists, i: nat, x: int)
    requires IsLists(lists) && Threaded(links, lists) && i < |lists| && 0 < x && x !in Members(lists)
    ensures Head(i) in links && links[Head(i)].next in links
    ensures Threaded(Insert(links, x, Head(i), links[Head(i)].next), Push(lists, i, x))
  {
    assert x !in lists[i];
    AddFront(links, Head(i), lists[i], x);
    forall j | 0 <= j < |lists| && j != i
      ensures Ring(Insert(links, x, Head(i), links[Head(i)].next), Head(j), lists[j])
    {
      HeadsApart(lists, i, j);
      assert x !in lists[j];
      OtherRingAdd(links, Head(i), lists[i], Head(j), lists[j], x);
    }
  }

  lemma TakeThreaded(links: Links, lists: Lists, i: nat, p: nat)
    requires IsLists(lists) && Threaded(links, lists) && i < |lists| && p < |lists[i]|
    ensures var x := lists[i][p]; x in links && links[x].next in links && links[x].prev in links
    ensures Threaded(Delete(links, lists[i][p]), Take(lists, i, p))
  {
    DeleteNode(links, Head(i), lists[i], p);
    forall j | 0 <= j < |lists| && j != i
      ensures Ring(Delete(links, lists[i][p]), Head(j), lists[j])
    {
      HeadsApart(lists, i, j);
      OtherRing(links, Head(i), lists[i], Head(j), lists[j], p);
    }
  }

  lemma PushSized(lists: Lists, size: map<int, int>, i: nat, x: int)
    requires Sized(lists, size) && i < |lists| && BelongsTo(size, x, i)
    ensures Sized(Push(lists, i, x), size)
  {}

  lemma TakeSized(lists: Lists, size: map<int, int>, i: nat, p: nat)
    requires Sized(lists, size) && i < |lists| && p < |lists[i]|
    ensures Sized(Take(lists, i, p), size)
  {
    forall j, x | 0 <= j < |lists| && x in Take(lists, i, p)[j]
      ensures BelongsTo(size, x, j)
    {
      assert x in lists[j];
    }
  }

  lemma PushNonempty(lists: Lists, i: nat, x: int)
    requires |lists| == DEDICATED + 1 && i < DEDICATED
    ensures Nonempty(Push(lists, i, x)) == Nonempty(lists) + {i}
  {}

  lemma TakeNonempty(lists: Lists, i: nat, p: nat)
    requires |lists| == DEDICATED + 1 && i < DEDICATED && p < |lists[i]|
    ensures i in Nonempty(lists)
    ensures Nonempty(Take(lists, i, p)) == if |lists[i]| == 1 then Nonempty(lists) - {i} else Nonempty(lists)
  {}

  lemma LargeIndexed(lists: Lists, lists': Lists, counter: seq<nat>, bm: seq<word>)
    requires Indexed(lists, counter, bm) && |lists| == |lists'| == DEDICATED + 1
    requires forall i :: 0 <= i < DEDICATED ==> lists[i] == lists'[i]
    ensures Indexed(lists', counter, bm)
  {
    assert Nonempty(lists') == Nonempty(lists);
  }

  /** The first non-empty dedicated list from `i` up, `DEDICATED` if there is none. */
  ghost function FirstNonempty(lists: Lists, i: nat): (j: nat)
    requires |lists| == DEDICATED + 1 && i <= DEDICATED
    ensures i <= j <= DEDICATED
    ensures j < DEDICATED ==> lists[j] != []
    ensures forall k :: i <= k < j ==> lists[k] == []
    decreases DEDICATED - i
  {
    if i == DEDICATED || lists[i] != [] then i else FirstNonempty(lists, i + 1)
  }

  /** The first object of a list that is large enough, the list's length if there is none. */
  ghost function FirstFit(s: seq<int>, size: map<int, int>, request: nat): (p: nat)
    ensures p <= |s|
    ensures p < |s| ==> SizeOf(size, s[p]) >= request
    ensures forall k :: 0 <= k < p ==> SizeOf(size, s[k]) < request
  {
    if s == [] || SizeOf(size, s[0]) >= request then 0 else 1 + FirstFit(s[1..], size, request)
  }

  /** Where `malloc` takes an object from: list and position. The position is the end of the large list on failure. */
  ghost function Place(lists: Lists, size: map<int, int>, request: nat): (nat, nat)
    requires |lists| == DEDICATED + 1 && 0 < request
  {
    var j := FirstNonempty(lists, Index(request));
    if j < DEDICATED then (j, 0) else (LARGE, FirstFit(lists[LARGE], size, request))
  }

  /**
   * The search is complete and, among the dedicated sizes, best fit: it fails only if every free object is too small;
   * it finds the smallest sufficient object whenever one of a dedicated size is sufficient; otherwise it finds the
   * first sufficient object of the large list.
   */
  lemma SearchIsBestFit(lists: Lists, size: map<int, int>, request: nat)
    requires IsLists(lists) && Sized(lists, size) && 0 < request && request % 8 == 0
    ensures var (i, p) := Place(lists, size, request);
      if p < |lists[i]| then
        var found := SizeOf(size, lists[i][p]);
        && request <= found
        && (i < DEDICATED ==> forall x :: x in Members(lists) && request <= SizeOf(size, x) ==> found <= SizeOf(size, x))
        && (i == LARGE ==> forall j, x :: 0 <= j < DEDICATED && x in lists[j] ==> SizeOf(size, x) < request)
        && (i == LARGE ==> forall k :: 0 <= k < p ==> SizeOf(size, lists[i][k]) < request)
      else
        forall x :: x in Members(lists) ==> SizeOf(size, x) < request
  {
    var (i, p) := Place(lists, size, request);
    forall j, x | 0 <= j < |lists| && x in lists[j]
      ensures j < DEDICATED ==> SizeOf(size, x) == 8 * j + 8
      ensures j == LARGE ==> 8 * DEDICATED < SizeOf(size, x)
      ensures j < Index(request) && j < DEDICATED ==> SizeOf(size, x) < request
    {
      assert BelongsTo(size, x, j);
    }
    if p < |lists[i]| {
      assert lists[i][p] in lists[i];
    }
  }
}

/** The heap object of segfitheap.h. */
module SegFit {
  import opened Bits
  import opened Bitmaps
  import opened IntrusiveLists
  import opened ObjectHeaders
  import opened SegFitLists

  class SegFitHeap {
    const mem: HeaderStore
    const store: LinkStore
    const counter: array<nat>
    const bitmap: array<word>
    ghost var lists: Lists

    ghost predicate Valid()
      reads this, store, counter, bitmap
    {
      IsLists(lists) && Threaded(store.links, lists) && Indexed(lists, counter[..], bitmap[..])
    }

    constructor (mem: HeaderStore)
      ensures Valid() && fresh(store) && fresh(counter) && fresh(bitmap) && this.mem == mem
      ensures lists == seq(DEDICATED + 1, _ => [])
    {
      this.mem := mem;
      store := new LinkStore();
      counter := new nat[DEDICATED](_ => 0);
      bitmap := new word[DEDICATED / 32](_ => 0);
      lists := seq(DEDICATED + 1, _ => []);
      new;
      for i := 0 to DEDICATED + 1
        invariant forall j :: 0 <= j < i ==> Ring(store.links, Head(j), [])
        modifies store
      {
        store.InitListHead(Head(i));
        assert Linked(store.links, At(Head(i), [], 0), At(Head(i), [], 1));
        forall j | 0 <= j < i
          ensures Ring(store.links, Head(j), [])
        {
          assert Linked(store.links, At(Head(j), [], 0), At(Head(j), [], 1));
        }
      }
      AllZero(bitmap[..]);
      assert Nonempty(lists) == {};
    }

    /** One object fewer of a dedicated size. */
    method Discount(index: nat, ghost p: nat)
      requires IsLists(lists) && Indexed(lists, counter[..], bitmap[..]) && index < DEDICATED && p < |lists[index]|
      modifies counter, bitmap
      ensures Indexed(Take(lists, index, p), counter[..], bitmap[..])
    {
      hide Marked, Nonempty;
      TakeNonempty(lists, index, p);
      counter[index] := counter[index] - 1;
      if counter[index] == 0 {
        ClearMark(bitmap, index);
      }
    }

    /** One object more of a dedicated size. */
    method Recount(index: nat, ghost x: int)
      requires IsLists(lists) && Indexed(lists, counter[..], bitmap[..]) && index < DEDICATED
      modifies counter, bitmap
      ensures Indexed(Push(lists, index, x), counter[..], bitmap[..])
    {
      hide Marked;
      PushNonempty(lists, index, x);
      counter[index] := counter[index] + 1;
      if counter[index] == 1 {
        SetMark(bitmap, index);
      }
    }

    /** The object at position `p` of list `i` leaves it. */
    method Detach(node: int, ghost i: nat, ghost p: nat)
      requires IsLists(lists) && Threaded(store.links, lists) && i < |lists| && p < |lists[i]| && lists[i][p] == node
      modifies store, this`lists
      ensures IsLists(lists) && Threaded(store.links, lists)
      ensures lists == Take(old(lists), i, p) && Members(lists) == Members(old(lists)) - {node}
    {
      assert Ring(store.links, Head(i), lists[i]);
      TakeLists(lists, i, p);
      TakeThreaded(store.links, lists, i, p);
      store.ListDel(node);
      lists := Take(lists, i, p);
    }

    /** The bitmap search for the first dedicated size above `index` of which there is an object. */
    method SearchBitmap(index: nat) returns (found: nat)
      requires bitmap.Length == DEDICATED / 32 && index < DEDICATED && index !in Marked(bitmap[..])
      ensures index < found <= DEDICATED
      ensures found < DEDICATED ==> found in Marked(bitmap[..])
      ensures forall i: nat :: index <= i < found ==> i !in Marked(bitmap[..])
    {
      hide Mask, HighMask, Bit, Marked;
      var bm, offset := index / 32, index % 32;
      MarkedAt(bitmap[..], bm, offset);
      if bitmap[bm] & HighMask(offset) != 0 {
        // a fit in the same cluster, above `offset`
        ghost var some := HighTestHolds(bitmap[bm], offset);
        offset := ScanBits(bitmap[bm], offset + 1, some);
        ClearRange(bitmap[..], bm, index % 32 + 1, offset);
      } else {
        HighTestFails(bitmap[bm], offset);
        ClearRange(bitmap[..], bm, offset, 32);
        bm := bm + 1;
        while bm < DEDICATED / 32 && bitmap[bm] == 0
          invariant index / 32 < bm <= DEDICATED / 32
          invariant forall i: nat :: index <= i < 32 * bm ==> i !in Marked(bitmap[..])
        {
          ZeroWord(bitmap[bm]);
          ClearRange(bitmap[..], bm, 0, 32);
          bm := bm + 1;
        }
        if bm == DEDICATED / 32 {
          return DEDICATED;
        }
        ghost var some := NonzeroWord(bitmap[bm]);
        offset := ScanBits(bitmap[bm], 0, some);
        ClearRange(bitmap[..], bm, 0, offset);
      }
      found := bm * 32 + offset;
      MarkedAt(bitmap[..], bm, offset);
    }

    /** The first fit in the list of large objects. */
    method SearchLarge(size: nat) returns (ptr: int)
      requires Valid() && Sized(lists, mem.hd.size)
      modifies store, this`lists
      ensures Valid()
      ensures var p := FirstFit(old(lists)[LARGE], mem.hd.size, size);
        if p < |old(lists)[LARGE]| then
          && ptr == old(lists)[LARGE][p] && lists == Take(old(lists), LARGE, p)
          && Members(lists) == Members(old(lists)) - {ptr}
        else ptr == NULL && lists == old(lists)
    {
      ghost var s, k := lists[LARGE], 0;
      assert Ring(store.links, Head(LARGE), s);
      RingEmpty(store.links, Head(LARGE), s);
      var node := store.links[Head(LARGE)].next;
      assert node == At(Head(LARGE), s, 1);
      while node != Head(LARGE)
        invariant k <= |s| && node == At(Head(LARGE), s, k + 1)
        invariant forall j :: 0 <= j < k ==> SizeOf(mem.hd.size, s[j]) < size
        decreases |s| - k
      {
        assert node == s[k] && node in lists[LARGE] && BelongsTo(mem.hd.size, node, LARGE);
        if mem.hd.size[node - HEADER] >= size {
          Detach(node, LARGE, k);
          LargeIndexed(old(lists), lists, counter[..], bitmap[..]);
          return node;
        }
        assert Linked(store.links, At(Head(LARGE), s, k + 1), At(Head(LARGE), s, k + 2));
        node := store.links[node].next;
        k := k + 1;
      }
      assert k == |s|;
      ptr := NULL;
    }

    /** The first object of dedicated list `index` is allocated. */
    method TakeFirst(index: nat) returns (ptr: int)
      requires Valid() && index < DEDICATED && lists[index] != []
      modifies store, counter, bitmap, this`lists
      ensures Valid() && lists == Take(old(lists), index, 0) && ptr == old(lists)[index][0] && 0 < ptr
      ensures Members(lists) == Members(old(lists)) - {ptr}
    {
      assert Ring(store.links, Head(index), lists[index]);
      RingEmpty(store.links, Head(index), lists[index]);
      assert lists[index][0] in lists[index];
      Discount(index, 0);
      ptr := store.links[Head(index)].next;
      Detach(ptr, index, 0);
    }

    /** The dedicated list to allocate from: the one for `index` itself, or else the next one that is not empty. */
    method SearchDedicated(index: nat) returns (found: nat)
      requires IsLists(lists) && Indexed(lists, counter[..], bitmap[..]) && index < DEDICATED
      ensures found == FirstNonempty(lists, index)
    {
      hide Marked;
      found := index;
      if counter[index] == 0 {
        found := SearchBitmap(index);
        forall i: nat | index <= i < found
          ensures lists[i] == []
        {
          assert i !in Marked(bitmap[..]);
          assert i !in Nonempty(lists);
        }
      }
    }

    /** `malloc`: an object comes off the list and position that `Place` says, or NULL. */
    method Malloc(size: nat) returns (ptr: int)
      requires Valid() && Sized(lists, mem.hd.size) && 0 < size
      modifies store, counter, bitmap, this`lists
      ensures Valid() && Sized(lists, mem.hd.size)
      ensures var (i, p) := Place(old(lists), mem.hd.size, size);
        if p < |old(lists)[i]| then
          && ptr == old(lists)[i][p] && lists == Take(old(lists), i, p)
          && Members(lists) == Members(old(lists)) - {ptr}
        else ptr == NULL && lists == old(lists)
    {
      ptr := NULL;
      var index := (size - 1) / 8;
      if index < DEDICATED {
        var found := SearchDedicated(index);
        if found < DEDICATED {
          ptr := TakeFirst(found);
          TakeSized(old(lists), mem.hd.size, found, 0);
        }
      }
      if ptr == NULL {
        ptr := SearchLarge(size);
        if ptr != NULL {
          TakeSized(old(lists), mem.hd.size, LARGE, FirstFit(old(lists)[LARGE], mem.hd.size, size));
        }
      }
    }

    /** `free`: the object goes to the front of the list for its size. */
    method Free(ptr: int)
      requires Valid() && Sized(lists, mem.hd.size) && 0 < ptr && ptr !in Members(lists)
      requires ptr - HEADER in mem.hd.size && 0 < mem.hd.size[ptr - HEADER] && mem.hd.size[ptr - HEADER] % 8 == 0
      modifies store, counter, bitmap, this`lists
      ensures Valid() && Sized(lists, mem.hd.size)
      ensures var i := Index(mem.hd.size[ptr - HEADER]); lists == old(lists)[i := [ptr] + old(lists)[i]]
      ensures Members(lists) == Members(old(lists)) + {ptr}
    {
      var index := Index(mem.hd.size[ptr - HEADER]);
      PushLists(lists, index, ptr);
      PushThreaded(store.links, lists, index, ptr);
      PushSized(lists, mem.hd.size, index, ptr);
      if index < DEDICATED {
        Recount(index, ptr);
      } else {
        LargeIndexed(lists, Push(lists, index, ptr), counter[..], bitmap[..]);
      }
      store.ListAdd(ptr, Head(index));
      lists := Push(lists, index, ptr);
    }

    /** `remove`: a listed object leaves its list. */
    method Remove(ptr: int)
      requires Valid() && Sized(lists, mem.hd.size) && ptr in Members(lists)
      modifies store, counter, bitmap, this`lists
      ensures Valid() && Sized(lists, mem.hd.size)
      ensures Members(lists) == Members(old(lists)) - {ptr}
      ensures exists i: nat, p: nat :: i < |lists| && p < |old(lists)[i]| && lists == Take(old(lists), i, p)
    {
      ghost var i: nat :| i < |lists| && ptr in lists[i];
      ghost var p: nat :| p < |lists[i]| && lists[i][p] == ptr;
      assert BelongsTo(mem.hd.size, ptr, i);
      TakeSized(lists, mem.hd.size, i, p);
      var index := (mem.hd.size[ptr - HEADER] - 1) / 8;
      if index < DEDICATED {
        Discount(index, p);
      } else {
        LargeIndexed(lists, Take(lists, i, p), counter[..], bitmap[..]);
      }
      Detach(ptr, i, p);
    }
  }
}
