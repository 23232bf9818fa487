/**
 * Chunks cut into blocks (splitcoalesceheap.h), without the memory they are written in: a view maps the header address
 * of every block to its size and whether it is free. `bases` are the chunks obtained so far.
 */
module BoundaryTags {
  import opened ObjectHeaders

  // PARTITION_SIZE of vam.h, the SuperChunkSize of the deployed heap
  const CHUNK := 8 * 1024 * 1024
  // two headers at the beginning and two at the end
  const MAX_OBJECT_SIZE := CHUNK - 4 * HEADER

  datatype Block = Block(size: int, free: bool)

  type View = map<int, Block>

  /** Where the next header is. */
  function End(v: View, h: int): int
    requires h in v
  {
    h + HEADER + v[h].size
  }

  /** The header behind the last block of the chunk at `b`. */
  function Tail(b: int): int {
    b + CHUNK - 2 * HEADER
  }

  ghost predicate Apart(bases: set<int>, b: int) {
    forall c :: c in bases ==> c + CHUNK <= b || b + CHUNK <= c
  }

  ghost predicate Chunks(bases: set<int>) {
    && (forall b :: b in bases ==> 0 < b && b % 8 == 0)
    && (forall b, c :: b in bases && c in bases && b < c ==> b + CHUNK <= c)
  }

  ghost predicate Inside(v: View, h: int, b: int)
    requires h in v
  {
    b + HEADER <= h && End(v, h) <= Tail(b)
  }

  ghost predicate IsPrevious(v: View, p: int, h: int) {
    p in v && End(v, p) == h
  }

  ghost predicate IsTail(bases: set<int>, a: int) {
    a - (CHUNK - 2 * HEADER) in bases
  }

  ghost predicate HasHome(v: View, bases: set<int>, h: int)
    requires h in v
  {
    exists b :: b in bases && Inside(v, h, b)
  }

  ghost predicate HasPrevious(v: View, bases: set<int>, h: int) {
    h - HEADER in bases || exists p :: IsPrevious(v, p, h)
  }

  /** One block: a multiple of 8 bytes inside one chunk, with a block or the tail after it and a block or the start before. */
  ghost predicate Placed(v: View, bases: set<int>, h: int)
    requires h in v
  {
    && h % 8 == 0 && v[h].size % 8 == 0 && 8 <= v[h].size
    && HasHome(v, bases, h)
    && (End(v, h) in v || IsTail(bases, End(v, h)))
    && HasPrevious(v, bases, h)
  }

  ghost predicate Before(v: View, h: int, k: int)
    requires h in v
  {
    End(v, h) <= k
  }

  /** The blocks tile the chunks. */
  ghost predicate Tiled(v: View, bases: set<int>) {
    && Chunks(bases)
    && (forall b :: b in bases ==> b + HEADER in v)
    && (forall h {:trigger Placed(v, bases, h)} :: h in v ==> Placed(v, bases, h))
    && (forall h, k {:trigger Before(v, h, k)} :: h in v && k in v && h < k ==> Before(v, h, k))
  }

  ghost predicate BusyAfter(v: View, h: int)
    requires h in v
  {
    End(v, h) in v ==> !v[End(v, h)].free
  }

  /** No two adjacent blocks are both free. */
  ghost predicate Coalesced(v: View) {
    forall h {:trigger BusyAfter(v, h)} :: h in v && v[h].free ==> BusyAfter(v, h)
  }

  ghost predicate Sound(v: View, bases: set<int>) {
    Tiled(v, bases) && Coalesced(v)
  }

  /** A free block is allocated for a request, and what is left over is split off if it can hold a free object. */
  function Allocate(v: View, h: int, request: int): View
    requires h in v
  {
    var rest := v[h].size - request;
    if rest >= HEADER + LINKS then v[h := Block(request, false)][h + HEADER + request := Block(rest - HEADER, true)]
    else v[h := Block(v[h].size, false)]
  }

  function NewChunk(v: View, b: int): View {
    v[b + HEADER := Block(MAX_OBJECT_SIZE, true)]
  }

  function Merge(v: View, p: int, h: int): View
    requires p in v && h in v
  {
    (v - {h})[p := Block(v[p].size + HEADER + v[h].size, v[p].free)]
  }

  ghost predicate PreviousFree(v: View, h: int) {
    exists p :: IsPrevious(v, p, h) && v[p].free
  }

  ghost function Previous(v: View, h: int): int
    requires PreviousFree(v, h)
  {
    var p :| IsPrevious(v, p, h) && v[p].free;
    p
  }

  /** A block is freed and merged with its free neighbours on both sides. */
  ghost function Release(v: View, h: int): View
    requires h in v
  {
    var v1 := v[h := Block(v[h].size, true)];
    var s := if PreviousFree(v1, h) then Previous(v1, h) else h;
    var v2 := if s == h then v1 else Merge(v1, s, h);
    if s in v2 && End(v2, s) in v2 && v2[End(v2, s)].free then Merge(v2, s, End(v2, s)) else v2
  }

  // The end of one block is the start of no block but the next one, and lies in the block's own chunk.
  lemma OneEnd(v: View, bases: set<int>, h: int, k: int)
    requires Tiled(v, bases) && h in v && k in v && h != k
    ensures End(v, h) != End(v, k)
    ensures h < k ==> End(v, h) <= k < End(v, k)
  {
    assert Placed(v, bases, h) && Placed(v, bases, k);
    assert h < k ==> Before(v, h, k);
    assert k < h ==> Before(v, k, h);
  }

  // A block keeps its home and its predecessor if both keep their ends.
  lemma SameHome(v: View, w: View, bases: set<int>, bases': set<int>, h: int)
    requires h in v && h in w && End(w, h) <= End(v, h) && bases <= bases' && HasHome(v, bases, h)
    ensures HasHome(w, bases', h)
  {
    var b :| b in bases && Inside(v, h, b);
    assert Inside(w, h, b);
  }

  lemma SamePrevious(v: View, w: View, bases: set<int>, h: int)
    requires HasPrevious(v, bases, h)
    requires forall p :: IsPrevious(v, p, h) ==> IsPrevious(w, p, h)
    ensures HasPrevious(w, bases, h)
  {
    if h - HEADER !in bases {
      var p :| IsPrevious(v, p, h);
      assert IsPrevious(w, p, h);
    }
  }

  /** Only a change of the free flag. */
  lemma FlagTiled(v: View, bases: set<int>, h: int, free: bool)
    requires Tiled(v, bases) && h in v
    ensures Tiled(v[h := Block(v[h].size, free)], bases)
  {
    var w := v[h := Block(v[h].size, free)];
    assert forall k :: k in v ==> End(w, k) == End(v, k);
    forall k | k in w
      ensures Placed(w, bases, k)
    {
      assert Placed(v, bases, k);
      SameHome(v, w, bases, bases, k);
      SamePrevious(v, w, bases, k);
    }
    forall j, k | j in w && k in w && j < k
      ensures Before(w, j, k)
    {
      assert Before(v, j, k);
    }
  }

  /** A block that ends where another begins absorbs it. */
  lemma MergeTiled(v: View, bases: set<int>, p: int, h: int)
    requires Tiled(v, bases) && p in v && h in v && End(v, p) == h
    ensures Tiled(Merge(v, p, h), bases)
  {
    var w := Merge(v, p, h);
    assert Placed(v, bases, p);
    forall k | k in w
      ensures Placed(w, bases, k)
    {
      MergePlaced(v, bases, p, h, k);
    }
    forall j, k | j in w && k in w && j < k
      ensures Before(w, j, k)
    {
      MergeBefore(v, bases, p, h, j, k);
    }
    NoFirstMerged(v, bases, p, h);
  }

  lemma MergePlaced(v: View, bases: set<int>, p: int, h: int, k: int)
    requires Tiled(v, bases) && p in v && h in v && End(v, p) == h && k in v && k != h
    ensures Placed(Merge(v, p, h), bases, k)
  {
    var w := Merge(v, p, h);
    assert Placed(v, bases, p) && Placed(v, bases, h) && Placed(v, bases, k);
    assert End(w, p) == End(v, h);
    if k == p {
      MergedHome(v, bases, p, h);
      NotPrevious(v, bases, p, h);
      SamePrevious(v, w, bases, k);
    } else {
      SameHome(v, w, bases, bases, k);
      MergedPrevious(v, bases, p, h, k);
      OneEnd(v, bases, k, p);
    }
  }

  lemma MergeBefore(v: View, bases: set<int>, p: int, h: int, j: int, k: int)
    requires Tiled(v, bases) && p in v && h in v && End(v, p) == h
    requires j in v && k in v && j != h && k != h && j < k
    ensures Before(Merge(v, p, h), j, k)
  {
    assert Before(v, j, k);
    if j == p {
      OneEnd(v, bases, h, k);
    }
  }

  lemma MergedHome(v: View, bases: set<int>, p: int, h: int)
    requires Tiled(v, bases) && p in v && h in v && End(v, p) == h
    ensures HasHome(Merge(v, p, h), bases, p)
  {
    assert Placed(v, bases, p) && Placed(v, bases, h);
    var b :| b in bases && Inside(v, p, b);
    var c :| c in bases && Inside(v, h, c);
    assert b == c by {
      assert b < c ==> b + CHUNK <= c;
      assert c < b ==> c + CHUNK <= b;
    }
    assert Inside(Merge(v, p, h), p, b);
  }

  lemma NotPrevious(v: View, bases: set<int>, p: int, h: int)
    requires Tiled(v, bases) && p in v && h in v && End(v, p) == h
    ensures forall q :: IsPrevious(v, q, p) ==> IsPrevious(Merge(v, p, h), q, p)
  {
    forall q | IsPrevious(v, q, p)
      ensures IsPrevious(Merge(v, p, h), q, p)
    {
      assert Placed(v, bases, p) && Placed(v, bases, h) && Placed(v, bases, q);
      assert q != h;
    }
  }

  lemma MergedPrevious(v: View, bases: set<int>, p: int, h: int, k: int)
    requires Tiled(v, bases) && p in v && h in v && End(v, p) == h && k in v && k != p && k != h
    ensures HasPrevious(Merge(v, p, h), bases, k)
  {
    assert Placed(v, bases, k);
    if k - HEADER !in bases {
      var q :| IsPrevious(v, q, k);
      assert IsPrevious(Merge(v, p, h), if q == h then p else q, k);
    }
  }

  // the absorbed block is not the first of its chunk
  lemma NoFirstMerged(v: View, bases: set<int>, p: int, h: int)
    requires Tiled(v, bases) && p in v && h in v && End(v, p) == h
    ensures h - HEADER !in bases
  {
    assert Placed(v, bases, p) && Placed(v, bases, h);
    var b :| b in bases && Inside(v, p, b);
    var c :| c in bases && Inside(v, h, c);
    assert b == c by {
      assert b < c ==> b + CHUNK <= c;
      assert c < b ==> c + CHUNK <= b;
    }
  }

  /** A block is cut in two. */
  function Split(v: View, h: int, request: int): View
    requires h in v
  {
    v[h := Block(request, false)][h + HEADER + request := Block(v[h].size - request - HEADER, true)]
  }

  ghost predicate CanSplit(v: View, h: int, request: int) {
    h in v && 8 <= request && request % 8 == 0 && v[h].size - request >= HEADER + LINKS
  }

  lemma SplitFresh(v: View, bases: set<int>, h: int, request: int)
    requires Tiled(v, bases) && CanSplit(v, h, request)
    ensures h + HEADER + request !in v
  {
    assert h + HEADER + request in v ==> Before(v, h, h + HEADER + request);
  }

  lemma SplitTiled(v: View, bases: set<int>, h: int, request: int)
    requires Tiled(v, bases) && CanSplit(v, h, request)
    ensures Tiled(Split(v, h, request), bases)
  {
    var w := Split(v, h, request);
    forall k | k in w
      ensures Placed(w, bases, k)
    {
      SplitPlaced(v, bases, h, request, k);
    }
    forall j, k | j in w && k in w && j < k
      ensures Before(w, j, k)
    {
      SplitBefore(v, bases, h, request, j, k);
    }
  }

  lemma SplitPlaced(v: View, bases: set<int>, h: int, request: int, k: int)
    requires Tiled(v, bases) && CanSplit(v, h, request) && k in Split(v, h, request)
    ensures Placed(Split(v, h, request), bases, k)
  {
    var w, s := Split(v, h, request), h + HEADER + request;
    SplitFresh(v, bases, h, request);
    assert Placed(v, bases, h);
    assert End(w, h) == s && End(w, s) == End(v, h);
    if k == s {
      var b :| b in bases && Inside(v, h, b);
      assert Inside(w, s, b);
      assert IsPrevious(w, h, s);
    } else {
      assert Placed(v, bases, k);
      SameHome(v, w, bases, bases, k);
      SplitPrevious(v, bases, h, request, k);
    }
  }

  lemma SplitPrevious(v: View, bases: set<int>, h: int, request: int, k: int)
    requires CanSplit(v, h, request) && HasPrevious(v, bases, k) && h + HEADER + request !in v
    ensures HasPrevious(Split(v, h, request), bases, k)
  {
    if k - HEADER !in bases {
      var q :| IsPrevious(v, q, k);
      assert IsPrevious(Split(v, h, request), if q == h then h + HEADER + request else q, k);
    }
  }

  lemma SplitBefore(v: View, bases: set<int>, h: int, request: int, j: int, k: int)
    requires Tiled(v, bases) && CanSplit(v, h, request)
    requires var w := Split(v, h, request); j in w && k in w && j < k
    ensures Before(Split(v, h, request), j, k)
  {
    var s := h + HEADER + request;
    SplitFresh(v, bases, h, request);
    assert j != s && k != s ==> Before(v, j, k);
    if j == s {
      assert Before(v, h, k);
    } else if k == s && j != h {
      OneEnd(v, bases, j, h);
      OneEnd(v, bases, h, j);
    }
  }

  /** Allocating a free block keeps the tiling and leaves no adjacent free pair. */
  lemma AllocateSound(v: View, bases: set<int>, h: int, request: int)
    requires Sound(v, bases) && h in v && v[h].free
    requires 8 <= request <= v[h].size && request % 8 == 0
    ensures Sound(Allocate(v, h, request), bases)
  {
    var w := Allocate(v, h, request);
    if CanSplit(v, h, request) {
      SplitTiled(v, bases, h, request);
      SplitFresh(v, bases, h, request);
    } else {
      FlagTiled(v, bases, h, false);
    }
    forall k | k in w && w[k].free
      ensures BusyAfter(w, k)
    {
      if k in v {
        assert BusyAfter(v, k);
        AllocateEnds(v, bases, h, request, k);
      } else {
        assert BusyAfter(v, h);
        assert End(w, k) == End(v, h);
        assert Placed(v, bases, h);
      }
    }
  }

  // a block before the allocated one does not end at the piece split off
  lemma AllocateEnds(v: View, bases: set<int>, h: int, request: int, k: int)
    requires Tiled(v, bases) && h in v && k in v && k != h && 8 <= request <= v[h].size
    ensures End(v, k) != h + HEADER + request
  {
    OneEnd(v, bases, k, h);
    OneEnd(v, bases, h, k);
  }

  lemma FreshChunk(v: View, bases: set<int>, b: int)
    requires Tiled(v, bases) && Apart(bases, b)
    ensures forall h :: h in v ==> h + HEADER < End(v, h) <= b || b + CHUNK <= h
  {
    forall h | h in v
      ensures h + HEADER < End(v, h) <= b || b + CHUNK <= h
    {
      assert Placed(v, bases, h);
    }
  }

  /** A fresh chunk is one free block. */
  lemma NewChunkSound(v: View, bases: set<int>, b: int)
    requires Sound(v, bases) && Apart(bases, b) && 0 < b && b % 8 == 0
    ensures Sound(NewChunk(v, b), bases + {b})
    ensures b + HEADER !in v
  {
    var w := NewChunk(v, b);
    FreshChunk(v, bases, b);
    assert forall k :: k in v ==> End(w, k) == End(v, k);
    forall k | k in w
      ensures Placed(w, bases + {b}, k)
    {
      if k == b + HEADER {
        assert Inside(w, k, b);
      } else {
        assert Placed(v, bases, k);
        SameHome(v, w, bases, bases + {b}, k);
        SamePrevious(v, w, bases, k);
      }
    }
    forall j, k | j in w && k in w && j < k
      ensures Before(w, j, k)
    {
      assert j in v && k in v ==> Before(v, j, k);
    }
    forall k | k in w && w[k].free
      ensures BusyAfter(w, k)
    {
      if k in v {
        assert BusyAfter(v, k);
      }
    }
  }

  lemma PreviousUnique(v: View, bases: set<int>, p: int, q: int, h: int)
    requires Tiled(v, bases) && IsPrevious(v, p, h) && IsPrevious(v, q, h)
    ensures p == q
  {
    if p != q {
      OneEnd(v, bases, p, q);
    }
  }

  /** Freeing a block keeps the tiling and leaves no adjacent free pair. */
  lemma ReleaseSound(v: View, bases: set<int>, h: int)
    requires Sound(v, bases) && h in v && !v[h].free
    ensures Sound(Release(v, h), bases)
  {
    var v1 := v[h := Block(v[h].size, true)];
    FlagTiled(v, bases, h, true);
    var s := if PreviousFree(v1, h) then Previous(v1, h) else h;
    var v2 := if s == h then v1 else Merge(v1, s, h);
    if s != h {
      MergeTiled(v1, bases, s, h);
    }
    assert Placed(v1, bases, h);
    ReleaseOne(v, bases, h, s);
    if End(v2, s) in v2 && v2[End(v2, s)].free {
      MergeTiled(v2, bases, s, End(v2, s));
      ReleaseTwo(v2, bases, s);
    } else {
      assert forall k :: k in v2 && k != s && v2[k].free ==> BusyAfter(v2, k);
    }
  }

  // After the merge with the previous block, only the merged block can have a free successor.
  lemma ReleaseOne(v: View, bases: set<int>, h: int, s: int)
    requires Sound(v, bases) && h in v && !v[h].free
    requires var v1 := v[h := Block(v[h].size, true)];
      if PreviousFree(v1, h) then s == Previous(v1, h) else s == h
    ensures var v1 := v[h := Block(v[h].size, true)];
      var v2 := if s == h then v1 else Merge(v1, s, h);
      && s in v2 && v2[s].free
      && forall k :: k in v2 && k != s && v2[k].free ==> BusyAfter(v2, k) && End(v2, k) != s
  {
    var v1 := v[h := Block(v[h].size, true)];
    FlagTiled(v, bases, h, true);
    var v2 := if s == h then v1 else Merge(v1, s, h);
    assert Placed(v, bases, h);
    if s != h {
      assert IsPrevious(v1, s, h) && v1[s].free;
    }
    forall k | k in v2 && k != s && v2[k].free
      ensures BusyAfter(v2, k) && End(v2, k) != s
    {
      assert BusyAfter(v, k);
      OneEnd(v1, bases, k, h);
      if s == h {
        assert !IsPrevious(v1, k, h);
      } else {
        OneEnd(v1, bases, k, s);
        assert BusyAfter(v, s);
      }
    }
  }

  lemma ReleaseTwo(v2: View, bases: set<int>, s: int)
    requires Tiled(v2, bases) && s in v2 && End(v2, s) in v2 && v2[End(v2, s)].free
    requires forall k :: k in v2 && k != s && v2[k].free ==> BusyAfter(v2, k) && End(v2, k) != s
    ensures Coalesced(Merge(v2, s, End(v2, s)))
  {
    var n := End(v2, s);
    var w := Merge(v2, s, n);
    assert Placed(v2, bases, s) && Placed(v2, bases, n);
    assert End(w, s) == End(v2, n);
    forall k | k in w && w[k].free
      ensures BusyAfter(w, k)
    {
      if k == s {
        assert BusyAfter(v2, n);
      } else {
        assert BusyAfter(v2, k);
      }
    }
  }

  /** Freeing the block just allocated undoes the allocation: the view is what it was. */
  lemma ReleaseUndoesAllocate(v: View, bases: set<int>, h: int, request: int)
    requires Sound(v, bases) && h in v && v[h].free
    requires 8 <= request <= v[h].size && request % 8 == 0
    ensures Release(Allocate(v, h, request), h) == v
  {
    var w := Allocate(v, h, request);
    var w1 := w[h := Block(w[h].size, true)];
    assert BusyAfter(v, h);
    if CanSplit(v, h, request) {
      SplitFresh(v, bases, h, request);
    }
    forall p
      ensures !(IsPrevious(w1, p, h) && w1[p].free)
    {
      if p in v && p != h && v[p].free {
        assert BusyAfter(v, p);
      }
    }
    assert !PreviousFree(w1, h);
    if CanSplit(v, h, request) {
      assert Merge(w1, h, h + HEADER + request) == v;
    } else {
      assert w1 == v;
    }
  }

  /** The only blocks of a chunk without a live object: one free block of the maximal size. */
  lemma EmptyChunkIsWhole(v: View, bases: set<int>, b: int)
    requires Sound(v, bases) && b in bases
    requires forall h :: h in v && Inside(v, h, b) ==> v[h].free
    ensures v[b + HEADER] == Block(MAX_OBJECT_SIZE, true)
    ensures forall h :: h in v && Inside(v, h, b) ==> h == b + HEADER
  {
    var first := b + HEADER;
    FirstInside(v, bases, b);
    assert Placed(v, bases, first) && BusyAfter(v, first);
    if End(v, first) in v {
      NextInside(v, bases, b, first);
      assert false;
    }
    TailOfHome(v, bases, b, first);
    forall h | h in v && Inside(v, h, b)
      ensures h == first
    {
      assert Placed(v, bases, h);
      if h != first {
        OneEnd(v, bases, first, h);
      }
    }
  }

  lemma FirstInside(v: View, bases: set<int>, b: int)
    requires Tiled(v, bases) && b in bases
    ensures b + HEADER in v && Inside(v, b + HEADER, b)
  {
    assert Placed(v, bases, b + HEADER);
    var c :| c in bases && Inside(v, b + HEADER, c);
    assert b < c ==> b + CHUNK <= c;
    assert c < b ==> c + CHUNK <= b;
  }

  lemma NextInside(v: View, bases: set<int>, b: int, h: int)
    requires Tiled(v, bases) && b in bases && h in v && Inside(v, h, b) && End(v, h) in v
    ensures Inside(v, End(v, h), b)
  {
    assert Placed(v, bases, h) && Placed(v, bases, End(v, h));
    var c :| c in bases && Inside(v, End(v, h), c);
    assert b < c ==> b + CHUNK <= c;
    assert c < b ==> c + CHUNK <= b;
  }

  lemma TailOfHome(v: View, bases: set<int>, b: int, h: int)
    requires Tiled(v, bases) && b in bases && h in v && Inside(v, h, b) && IsTail(bases, End(v, h))
    ensures End(v, h) == Tail(b)
  {
    var c := End(v, h) - (CHUNK - 2 * HEADER);
    assert Placed(v, bases, h);
    assert b < c ==> b + CHUNK <= c;
    assert c < b ==> c + CHUNK <= b;
  }

  /** The bytes of the blocks from `h` to the tail of its chunk, headers included. */
  ghost function Covered(v: View, bases: set<int>, b: int, h: int): int
    requires Tiled(v, bases) && b in bases && h in v && Inside(v, h, b)
    decreases Tail(b) - h
  {
    assert Placed(v, bases, h);
    if End(v, h) in v then
      NextInside(v, bases, b, h);
      HEADER + v[h].size + Covered(v, bases, b, End(v, h))
    else HEADER + v[h].size
  }

  /** Going from header to header through a chunk passes every block once: the blocks and four sentinels fill the chunk. */
  lemma {:induction false} ChunkIsFilled(v: View, bases: set<int>, b: int, h: int)
    requires Tiled(v, bases) && b in bases && h in v && Inside(v, h, b)
    ensures Covered(v, bases, b, h) == Tail(b) - h
    ensures h == b + HEADER ==> Covered(v, bases, b, h) + 3 * HEADER == CHUNK
    decreases Tail(b) - h
  {
    assert Placed(v, bases, h);
    if End(v, h) in v {
      NextInside(v, bases, b, h);
      ChunkIsFilled(v, bases, b, End(v, h));
    } else {
      TailOfHome(v, bases, b, h);
    }
  }

  /** What a caller can do, and what the heap then does with its blocks. */
  datatype Step = Take(h: int, request: int) | Obtain(b: int) | Give(h: int)

  datatype Heap = Heap(view: View, bases: set<int>)

  ghost predicate Enabled(s: Heap, step: Step) {
    match step
    case Take(h, request) =>
      h in s.view && s.view[h].free && 8 <= request <= s.view[h].size && request % 8 == 0
    case Obtain(b) => 0 < b && b % 8 == 0 && Apart(s.bases, b)
    case Give(h) => h in s.view && !s.view[h].free
  }

  ghost function After(s: Heap, step: Step): Heap
    requires Enabled(s, step)
  {
    match step
    case Take(h, request) => Heap(Allocate(s.view, h, request), s.bases)
    case Obtain(b) => Heap(NewChunk(s.view, b), s.bases + {b})
    case Give(h) => Heap(Release(s.view, h), s.bases)
  }

  ghost predicate IsRun(states: seq<Heap>, steps: seq<Step>) {
    && |states| == |steps| + 1
    && forall i :: 0 <= i < |steps| ==> Enabled(states[i], steps[i]) && states[i + 1] == After(states[i], steps[i])
  }

  lemma StepSound(s: Heap, step: Step)
    requires Sound(s.view, s.bases) && Enabled(s, step)
    ensures var t := After(s, step); Sound(t.view, t.bases)
  {
    match step
    case Take(h, request) => AllocateSound(s.view, s.bases, h, request);
    case Obtain(b) => NewChunkSound(s.view, s.bases, b);
    case Give(h) => ReleaseSound(s.view, s.bases, h);
  }

  /** Every state of every run from the empty heap is tiled and coalesced. */
  lemma {:induction false} RunSound(states: seq<Heap>, steps: seq<Step>, i: nat)
    requires IsRun(states, steps) && states[0] == Heap(map[], {}) && i < |states|
    ensures Sound(states[i].view, states[i].bases)
  {
    if i > 0 {
      RunSound(states, steps, i - 1);
      StepSound(states[i - 1], steps[i - 1]);
    }
  }

  /** A live block keeps its place and its size in every step but its own release. */
  lemma LiveBlockStays(s: Heap, step: Step, h: int)
    requires Sound(s.view, s.bases) && Enabled(s, step) && h in s.view && !s.view[h].free && step != Give(h)
    ensures var t := After(s, step); h in t.view && t.view[h] == s.view[h]
  {
    match step
    case Take(k, request) =>
      if CanSplit(s.view, k, request) {
        SplitFresh(s.view, s.bases, k, request);
      }
    case Obtain(b) =>
      NewChunkSound(s.view, s.bases, b);
    case Give(k) =>
      assert Placed(s.view, s.bases, k);
  }

  /** A release leaves live what was live, but for the block it frees. */
  lemma ReleasedLive(v: View, bases: set<int>, h: int, k: int)
    requires Sound(v, bases) && h in v && !v[h].free && k in Release(v, h) && !Release(v, h)[k].free
    ensures k in v && !v[k].free && k != h
  {}

  /** Over any run without its release, a live object keeps its address and its recorded size. */
  lemma {:induction false} LiveObjectKeepsSize(states: seq<Heap>, steps: seq<Step>, i: nat, j: nat, h: int)
    requires IsRun(states, steps) && states[0] == Heap(map[], {}) && i <= j < |states|
    requires h in states[i].view && !states[i].view[h].free
    requires forall k :: i <= k < j ==> steps[k] != Give(h)
    ensures h in states[j].view && states[j].view[h] == states[i].view[h]
  {
    if i < j {
      LiveObjectKeepsSize(states, steps, i, j - 1, h);
      RunSound(states, steps, j - 1);
      LiveBlockStays(states[j - 1], steps[j - 1], h);
    }
  }

  /** An allocated object holds the request with at most 15 bytes to spare, lies in one chunk and overlaps no other block. */
  lemma AllocatedObject(v: View, bases: set<int>, h: int, request: int)
    requires Sound(v, bases) && h in v && v[h].free && 8 <= request <= v[h].size && request % 8 == 0
    ensures var w := Allocate(v, h, request);
      && h in w && !w[h].free && request <= w[h].size < request + HEADER + LINKS && HasHome(w, bases, h)
      && forall k :: k in w && k != h ==> End(w, h) <= k || End(w, k) <= h
  {
    var w := Allocate(v, h, request);
    AllocateSound(v, bases, h, request);
    assert Placed(w, bases, h);
    forall k | k in w && k != h
      ensures End(w, h) <= k || End(w, k) <= h
    {
      assert Before(w, if h < k then h else k, if h < k then k else h);
    }
  }
}
