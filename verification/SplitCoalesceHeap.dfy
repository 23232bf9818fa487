/** The headers of the blocks (splitcoalesceheap.h): what `split`, `coalesce`, `setFree` and a fresh chunk write. */
module HeaderTags {
  import opened ObjectHeaders
  import opened BoundaryTags

  /** The header fields say what the view says; the free bit of a block and a copy of its size are in the next header. */
  ghost predicate TaggedBlock(v: View, hd: Headers, h: int)
    requires h in v
  {
    && h in hd.size && hd.size[h] == v[h].size
    && End(v, h) in hd.prevSize && hd.prevSize[End(v, h)] == v[h].size
    && End(v, h) in hd.prevFree && hd.prevFree[End(v, h)] == v[h].free
  }

  /** The four sentinel headers of a chunk: none of them can be merged with. */
  ghost predicate TaggedChunk(hd: Headers, b: int) {
    && b in hd.size && hd.size[b] == 0
    && b + HEADER in hd.prevSize && hd.prevSize[b + HEADER] == 0
    && b + HEADER in hd.prevFree && !hd.prevFree[b + HEADER]
    && Tail(b) in hd.size && hd.size[Tail(b)] == 0
    && Tail(b) + HEADER in hd.prevFree && !hd.prevFree[Tail(b) + HEADER]
  }

  ghost predicate Tagged(v: View, bases: set<int>, hd: Headers) {
    && (forall h {:trigger TaggedBlock(v, hd, h)} :: h in v ==> TaggedBlock(v, hd, h))
    && (forall b {:trigger TaggedChunk(hd, b)} :: b in bases ==> TaggedChunk(hd, b))
  }

  function FreeTags(hd: Headers, h: int, free: bool): Headers
    requires h in hd.size
  {
    hd.(prevFree := hd.prevFree[Next(hd, h) := free])
  }

  function SplitTags(hd: Headers, h: int, request: int): Headers
    requires h in hd.size
  {
    var s, n, rest := h + HEADER + request, Next(hd, h), hd.size[h] - request - HEADER;
    Headers(hd.size[h := request][s := rest], hd.prevSize[s := request][n := rest], hd.prevFree[s := false][n := true])
  }

  function CoalesceTags(hd: Headers, p: int, h: int): Headers
    requires h in hd.size
  {
    var size := h - p + hd.size[h];
    hd.(size := hd.size[p := size], prevSize := hd.prevSize[p + HEADER + size := size])
  }

  function ChunkTags(hd: Headers, b: int): Headers {
    Headers(hd.size[b := 0][b + HEADER := MAX_OBJECT_SIZE][Tail(b) := 0],
            hd.prevSize[b + HEADER := 0][Tail(b) := MAX_OBJECT_SIZE],
            hd.prevFree[b + HEADER := false][Tail(b) := true][Tail(b) + HEADER := false])
  }

  // No block ends at the first header of a chunk, starts or ends at a sentinel, or ends behind a tail.
  lemma Sentinels(v: View, bases: set<int>, b: int, h: int)
    requires Tiled(v, bases) && b in bases && h in v
    ensures h != b && h != Tail(b) && End(v, h) != b && End(v, h) != b + HEADER && End(v, h) != Tail(b) + HEADER
  {
    assert Placed(v, bases, h);
    var c :| c in bases && Inside(v, h, c);
    assert b < c ==> b + CHUNK <= c;
    assert c < b ==> c + CHUNK <= b;
  }

  lemma ChunksApart(bases: set<int>, b: int, c: int)
    requires Chunks(bases) && b in bases && c in bases && b != c
    ensures b + CHUNK <= c || c + CHUNK <= b
  {
    assert b < c ==> b + CHUNK <= c;
    assert c < b ==> c + CHUNK <= b;
  }

  lemma FreeTagged(v: View, bases: set<int>, hd: Headers, h: int, free: bool)
    requires Tiled(v, bases) && Tagged(v, bases, hd) && h in v
    ensures h in hd.size && Tagged(v[h := Block(v[h].size, free)], bases, FreeTags(hd, h, free))
  {
    var w := v[h := Block(v[h].size, free)];
    assert TaggedBlock(v, hd, h);
    var hd' := FreeTags(hd, h, free);
    forall k | k in w
      ensures TaggedBlock(w, hd', k)
    {
      assert TaggedBlock(v, hd, k);
      if k != h {
        OneEnd(v, bases, h, k);
      }
    }
    forall b | b in bases
      ensures TaggedChunk(hd', b)
    {
      assert TaggedChunk(hd, b);
      Sentinels(v, bases, b, h);
    }
  }

  /** `split` of an allocated block: its remainder becomes a free block. */
  lemma SplitTagged(v: View, bases: set<int>, hd: Headers, h: int, request: int)
    requires Tiled(v, bases) && Tagged(v, bases, hd) && CanSplit(v, h, request)
    ensures h in hd.size && Tagged(Split(v, h, request), bases, SplitTags(hd, h, request))
  {
    var w, s := Split(v, h, request), h + HEADER + request;
    assert TaggedBlock(v, hd, h);
    var hd' := SplitTags(hd, h, request);
    SplitFresh(v, bases, h, request);
    forall k | k in w
      ensures TaggedBlock(w, hd', k)
    {
      if k != h && k != s {
        assert TaggedBlock(v, hd, k);
        OneEnd(v, bases, h, k);
        OneEnd(v, bases, k, h);
      }
    }
    forall b | b in bases
      ensures TaggedChunk(hd', b)
    {
      assert TaggedChunk(hd, b);
      SplitInside(v, bases, b, h, s);
      Sentinels(v, bases, b, h);
    }
  }

  // a header inside a block is no sentinel
  lemma SplitInside(v: View, bases: set<int>, b: int, h: int, s: int)
    requires Tiled(v, bases) && b in bases && h in v && h < s < End(v, h)
    ensures s != b && s != b + HEADER && s != Tail(b) && s != Tail(b) + HEADER
  {
    assert Placed(v, bases, h);
    var c :| c in bases && Inside(v, h, c);
    if b != c {
      ChunksApart(bases, b, c);
    }
  }

  /** `coalesce` of two adjacent free blocks. */
  lemma CoalesceTagged(v: View, bases: set<int>, hd: Headers, p: int, h: int)
    requires Tiled(v, bases) && Tagged(v, bases, hd) && p in v && h in v && End(v, p) == h && v[p].free == v[h].free
    ensures h in hd.size && Tagged(Merge(v, p, h), bases, CoalesceTags(hd, p, h))
  {
    var w := Merge(v, p, h);
    assert TaggedBlock(v, hd, h) && TaggedBlock(v, hd, p);
    assert Placed(v, bases, p);
    var hd' := CoalesceTags(hd, p, h);
    forall k | k in w
      ensures TaggedBlock(w, hd', k)
    {
      assert TaggedBlock(v, hd, k);
      if k != p {
        OneEnd(v, bases, h, k);
      }
    }
    forall b | b in bases
      ensures TaggedChunk(hd', b)
    {
      assert TaggedChunk(hd, b);
      Sentinels(v, bases, b, h);
      Sentinels(v, bases, b, p);
    }
  }

  /** The headers of a fresh chunk: one free block between the sentinels. */
  lemma ChunkTagged(v: View, bases: set<int>, hd: Headers, b: int)
    requires Tiled(v, bases) && Tagged(v, bases, hd) && Apart(bases, b)
    ensures Tagged(NewChunk(v, b), bases + {b}, ChunkTags(hd, b))
  {
    var w := NewChunk(v, b);
    var hd' := ChunkTags(hd, b);
    FreshChunk(v, bases, b);
    forall k | k in w
      ensures TaggedBlock(w, hd', k)
    {
      if k in v {
        assert TaggedBlock(v, hd, k) && Placed(v, bases, k);
      }
    }
    forall c | c in bases + {b}
      ensures TaggedChunk(hd', c)
    {
      assert c in bases ==> TaggedChunk(hd, c);
    }
  }

  /** `getNextHeader` and `getPrevHeader` are inverse to each other on the blocks, and stay among blocks and sentinels. */
  lemma HeadersInverse(v: View, bases: set<int>, hd: Headers, h: int)
    requires Tiled(v, bases) && Tagged(v, bases, hd) && h in v
    ensures h in hd.size && Next(hd, h) == End(v, h) && Next(hd, h) in hd.prevSize && Prev(hd, Next(hd, h)) == h
    ensures h in hd.prevSize && Prev(hd, h) in hd.size && Next(hd, Prev(hd, h)) == h
    ensures Next(hd, h) in v || IsTail(bases, Next(hd, h))
    ensures (h - HEADER in bases && Prev(hd, h) == h - HEADER) || IsPrevious(v, Prev(hd, h), h)
  {
    assert TaggedBlock(v, hd, h) && Placed(v, bases, h);
    if h - HEADER in bases {
      assert TaggedChunk(hd, h - HEADER);
    } else {
      var p :| IsPrevious(v, p, h);
      assert TaggedBlock(v, hd, p);
    }
  }

  /** The free bit of the previous block tells whether there is a free block to merge with. */
  lemma PreviousBit(v: View, bases: set<int>, hd: Headers, h: int)
    requires Tiled(v, bases) && Tagged(v, bases, hd) && h in v
    ensures h in hd.prevFree && h in hd.prevSize
    ensures hd.prevFree[h] <==> PreviousFree(v, h)
    ensures hd.prevFree[h] ==> Prev(hd, h) == Previous(v, h)
  {
    HeadersInverse(v, bases, hd, h);
    if h - HEADER in bases {
      assert TaggedChunk(hd, h - HEADER);
      forall p | IsPrevious(v, p, h)
        ensures false
      {
        Sentinels(v, bases, h - HEADER, p);
      }
    } else {
      var p := Prev(hd, h);
      assert TaggedBlock(v, hd, p);
      forall q | IsPrevious(v, q, h)
        ensures q == p
      {
        PreviousUnique(v, bases, p, q, h);
      }
    }
  }

  /** The free bit of the next header: never set for a sentinel. */
  lemma NextBit(v: View, bases: set<int>, hd: Headers, h: int)
    requires Tiled(v, bases) && Tagged(v, bases, hd) && h in v
    ensures var n := End(v, h);
      HasFreeBit(hd, n) && (IsFree(hd, n) <==> n in v && v[n].free)
  {
    assert Placed(v, bases, h);
    var n := End(v, h);
    if n in v {
      assert TaggedBlock(v, hd, n);
    } else {
      assert TaggedChunk(hd, n - (CHUNK - 2 * HEADER));
    }
  }
}

/** The heap of splitcoalesceheap.h over the free lists of segfitheap.h. */
module SplitCoalesce {
  import opened IntrusiveLists
  import opened ObjectHeaders
  import opened SegFitLists
  import opened SegFit
  import opened BoundaryTags
  import opened HeaderTags

  /** The objects on the free lists are the free blocks. */
  ghost predicate FreeListed(v: View, members: set<int>) {
    forall x {:trigger x in members} {:trigger IsFreeObject(v, x)} :: x in members <==> IsFreeObject(v, x)
  }

  ghost predicate IsFreeObject(v: View, x: int) {
    x - HEADER in v && v[x - HEADER].free
  }

  /** The size fields of the listed objects are untouched. */
  lemma SizedFrame(lists: Lists, size: map<int, int>, size': map<int, int>)
    requires Sized(lists, size)
    requires forall x :: x in Members(lists) ==> x - HEADER in size' && SizeOf(size', x) == SizeOf(size, x)
    ensures Sized(lists, size')
  {
    forall i, x | 0 <= i < |lists| && x in lists[i]
      ensures BelongsTo(size', x, i)
    {
      assert x in Members(lists) && BelongsTo(size, x, i);
    }
  }

  /** Some free block is large enough. */
  ghost predicate Fits(v: View, request: int) {
    exists h :: h in v && v[h].free && request <= v[h].size
  }

  /** The choice among the free blocks: the smallest sufficient one, unless only large ones are sufficient. */
  ghost predicate BestFit(v: View, h: int, request: int) {
    && h in v && v[h].free && request <= v[h].size
    && forall k :: k in v && v[k].free && request <= v[k].size ==>
         if v[h].size <= 8 * DEDICATED then v[h].size <= v[k].size else 8 * DEDICATED < v[k].size
  }

  /** `SearchIsBestFit` in terms of blocks. */
  lemma PlaceIsBestFit(v: View, bases: set<int>, hd: Headers, lists: Lists, request: int)
    requires Tagged(v, bases, hd) && IsLists(lists) && Sized(lists, hd.size) && FreeListed(v, Members(lists))
    requires 0 < request && request % 8 == 0
    ensures var (i, p) := Place(lists, hd.size, request);
      if p < |lists[i]| then 0 < lists[i][p] && BestFit(v, lists[i][p] - HEADER, request) else !Fits(v, request)
  {
    SearchIsBestFit(lists, hd.size, request);
    var (i, p) := Place(lists, hd.size, request);
    forall h | h in v && v[h].free
      ensures h + HEADER in Members(lists) && SizeOf(hd.size, h + HEADER) == v[h].size
    {
      assert IsFreeObject(v, h + HEADER) && TaggedBlock(v, hd, h);
    }
    if p < |lists[i]| {
      var x := lists[i][p];
      assert x in lists[i];
      assert x in Members(lists) && BelongsTo(hd.size, x, i);
      assert TaggedBlock(v, hd, x - HEADER);
      forall k | k in v && v[k].free && request <= v[k].size
        ensures if v[x - HEADER].size <= 8 * DEDICATED then v[x - HEADER].size <= v[k].size else 8 * DEDICATED < v[k].size
      {
        var j: nat :| j < |lists| && k + HEADER in lists[j];
        assert BelongsTo(hd.size, k + HEADER, j);
      }
    }
  }

  class SplitCoalesceHeap {
    const mem: HeaderStore
    const seg: SegFitHeap
    ghost var view: View
    ghost var bases: set<int>

    ghost predicate Shaped()
      reads this, mem, seg, seg.store, seg.counter, seg.bitmap
    {
      && seg.mem == mem && seg.Valid()
      && Tagged(view, bases, mem.hd) && Sized(seg.lists, mem.hd.size)
      && FreeListed(view, Members(seg.lists))
    }

    ghost predicate Valid()
      reads this, mem, seg, seg.store, seg.counter, seg.bitmap
    {
      Shaped() && Sound(view, bases)
    }

    constructor ()
      ensures Valid() && view == map[] && bases == {}
      ensures fresh(mem) && fresh(seg) && fresh(seg.store) && fresh(seg.counter) && fresh(seg.bitmap)
    {
      var m := new HeaderStore();
      mem := m;
      seg := new SegFitHeap(m);
      view, bases := map[], {};
    }

    /** The headers of a fresh chunk: two at the beginning and two at the end. */
    method LayOutChunk(base: int)
      modifies mem
      ensures mem.hd == ChunkTags(old(mem.hd), base)
    {
      var header := base;
      mem.WriteSize(header, 0);
      header := header + HEADER;
      mem.WriteSize(header, MAX_OBJECT_SIZE);
      mem.WritePrevSize(header, 0);
      mem.WritePrevFree(header, false);
      var tail := Next(mem.hd, header);
      mem.WritePrevSize(tail, MAX_OBJECT_SIZE);
      mem.WritePrevFree(tail, true);
      mem.WriteSize(tail, 0);
      mem.SetFree(tail, false);
    }

    /** `split`: the header of the piece split off, NULL if the remainder is too small. */
    method SplitOff(header: int, request: int) returns (piece: int)
      requires header in mem.hd.size && 0 < header && 0 < request
      modifies mem
      ensures var rest := old(mem.hd).size[header] - request;
        if rest >= HEADER + LINKS then piece == header + HEADER + request && mem.hd == SplitTags(old(mem.hd), header, request)
        else piece == NULL && mem.hd == old(mem.hd)
    {
      var actual := mem.hd.size[header];
      var rest := actual - request;
      if rest >= HEADER + LINKS {
        mem.WriteSize(header, request);
        piece := Next(mem.hd, header);
        mem.WriteSize(piece, rest - HEADER);
        mem.WritePrevSize(piece, request);
        mem.WritePrevFree(piece, false);
        var next := Next(mem.hd, piece);
        mem.WritePrevSize(next, rest - HEADER);
        mem.WritePrevFree(next, true);
      } else {
        piece := NULL;
      }
    }

    /** `coalesce`. */
    method Coalesce(first: int, second: int)
      requires second in mem.hd.size
      modifies mem
      ensures mem.hd == CoalesceTags(old(mem.hd), first, second)
    {
      var size := second - first + mem.hd.size[second];
      mem.WriteSize(first, size);
      mem.WritePrevSize(Next(mem.hd, first), size);
    }

    /** The block at `header`, just taken off its list or out of a fresh chunk, is allocated and what is left over freed. */
    method Carve(header: int, request: int)
      requires seg.mem == mem && seg.Valid() && Sound(view, bases) && Tagged(view, bases, mem.hd)
      requires Sized(seg.lists, mem.hd.size) && Allocatable(view, header, request)
      requires FreeListed(view[header := Block(view[header].size, false)], Members(seg.lists))
      modifies this`view, mem, seg`lists, seg.store, seg.counter, seg.bitmap
      ensures Valid() && view == Allocate(old(view), header, request) && SizesKept(old(mem.hd), mem.hd, bases)
    {
      CarveKeeps(view, bases, mem.hd, header, request);
      hide SizesKept;
      AllocateSound(view, bases, header, request);
      CarveTagged(view, bases, mem.hd, header, request);
      CarveListed(view, bases, mem.hd, seg.lists, header, request);
      mem.SetFree(header, false);
      var piece := SplitOff(header, request);
      view := Allocate(view, header, request);
      if piece != NULL {
        seg.Free(piece + HEADER);
      }
    }

    /** The large chunk from the next heap is laid out as one free block. */
    method ObtainChunk(chunk: int)
      requires Valid() && 0 < chunk && chunk % 8 == 0 && Apart(bases, chunk)
      modifies this`view, this`bases, mem
      ensures seg.Valid() && Sound(view, bases) && Tagged(view, bases, mem.hd) && Sized(seg.lists, mem.hd.size)
      ensures view == NewChunk(old(view), chunk) && bases == old(bases) + {chunk}
      ensures FreeListed(view[chunk + HEADER := Block(MAX_OBJECT_SIZE, false)], Members(seg.lists))
      ensures SizesKept(old(mem.hd), mem.hd, bases)
    {
      ChunkKeeps(bases, mem.hd, chunk);
      hide SizesKept;
      NewChunkSound(view, bases, chunk);
      ChunkTagged(view, bases, mem.hd, chunk);
      ChunkListed(view, bases, mem.hd, seg.lists, chunk);
      LayOutChunk(chunk);
      view, bases := NewChunk(view, chunk), bases + {chunk};
    }

    /**
     * `malloc`: a best-fitting free block; a fresh chunk only if no free block is large enough; NULL only if there is
     * no chunk either. `chunk` is what the next heap would return.
     */
    method Malloc(request: int, chunk: int) returns (ptr: int)
      requires Valid() && 8 <= request <= MAX_OBJECT_SIZE && request % 8 == 0
      requires chunk == NULL || (0 < chunk && chunk % 8 == 0 && Apart(bases, chunk))
      modifies this`view, this`bases, mem, seg`lists, seg.store, seg.counter, seg.bitmap
      ensures Valid() && (ptr == NULL <==> !Fits(old(view), request) && chunk == NULL)
      ensures if Fits(old(view), request) then
          && BestFit(old(view), ptr - HEADER, request)
          && view == Allocate(old(view), ptr - HEADER, request) && bases == old(bases)
        else if chunk == NULL then
          ptr == NULL && view == old(view) && bases == old(bases)
        else
          && ptr == chunk + 2 * HEADER && bases == old(bases) + {chunk}
          && view == Allocate(NewChunk(old(view), chunk), chunk + HEADER, request)
      ensures SizesKept(old(mem.hd), mem.hd, bases)
    {
      hide SizesKept, BestFit, Fits;
      ghost var hd := mem.hd;
      KeptItself(hd, bases);
      ptr := TakeFitting(request);
      if ptr == NULL && chunk != NULL {
        ObtainChunk(chunk);
        ptr := chunk + 2 * HEADER;
      }
      ghost var hd' := mem.hd;
      if ptr != NULL {
        Carve(ptr - HEADER, request);
        KeptTwice(hd, hd', mem.hd, bases);
      }
    }

    /** A fitting free block is taken off its list. */
    method TakeFitting(request: int) returns (ptr: int)
      requires Valid() && 8 <= request <= MAX_OBJECT_SIZE && request % 8 == 0
      modifies seg`lists, seg.store, seg.counter, seg.bitmap
      ensures seg.Valid() && Sized(seg.lists, mem.hd.size) && (ptr == NULL <==> !Fits(view, request))
      ensures ptr == NULL ==> Valid()
      ensures ptr != NULL ==> 0 < ptr && BestFit(view, ptr - HEADER, request) && Allocatable(view, ptr - HEADER, request)
      ensures ptr != NULL ==> FreeListed(view[ptr - HEADER := Block(view[ptr - HEADER].size, false)], Members(seg.lists))
    {
      PlaceIsBestFit(view, bases, mem.hd, seg.lists, request);
      ghost var members := Members(seg.lists);
      ptr := seg.Malloc(request);
      if ptr != NULL {
        TakenListed(view, members, Members(seg.lists), ptr);
        BestFitFits(view, ptr - HEADER, request);
      }
    }

    /** Two adjacent free blocks that are on no list become one. */
    method Absorb(first: int, second: int)
      requires seg.Valid() && Joinable(view, bases, mem.hd, seg.lists, first, second)
      modifies this`view, mem
      ensures seg.Valid() && Pending(view, bases, mem.hd, seg.lists, first)
      ensures view == Merge(old(view), first, second) && SizesKept(old(mem.hd), mem.hd, bases)
    {
      hide SizesKept;
      JoinPending(view, bases, mem.hd, seg.lists, first, second);
      CoalesceKeeps(view, bases, mem.hd, first, second);
      Coalesce(first, second);
      view := Merge(view, first, second);
    }

    /** `free`: the block is merged with its free neighbours and goes to its list. */
    method Free(ptr: int)
      requires Valid() && ptr - HEADER in view && !view[ptr - HEADER].free
      modifies this`view, mem, seg`lists, seg.store, seg.counter, seg.bitmap
      ensures Valid() && view == Release(old(view), ptr - HEADER) && SizesKept(old(mem.hd), mem.hd, bases)
    {
      ghost var hd0 := mem.hd;
      hide SizesKept;
      var header := ptr - HEADER;
      ReleaseSound(view, bases, header);
      FlagPending(view, bases, mem.hd, seg.lists, header);
      FreeKeeps(hd0, bases, header);
      mem.SetFree(header, true);
      view := view[header := Block(view[header].size, true)];
      assert Placed(view, bases, header);
      ghost var hd1 := mem.hd;
      header := AbsorbPrevious(header);
      ghost var hd2 := mem.hd;
      AbsorbNext(header);
      KeptTwice(hd0, hd1, hd2, bases);
      KeptTwice(hd0, hd2, mem.hd, bases);
      PendingListed(view, bases, mem.hd, seg.lists, header);
      seg.Free(header + HEADER);
    }

    method AbsorbPrevious(block: int) returns (header: int)
      requires seg.mem == mem && seg.Valid() && Pending(view, bases, mem.hd, seg.lists, block)
      modifies this`view, mem, seg`lists, seg.store, seg.counter, seg.bitmap
      ensures seg.Valid() && Pending(view, bases, mem.hd, seg.lists, header)
      ensures if PreviousFree(old(view), block) then header == Previous(old(view), block) && view == Merge(old(view), header, block)
              else header == block && view == old(view)
      ensures SizesKept(old(mem.hd), mem.hd, bases)
    {
      KeptItself(mem.hd, bases);
      hide SizesKept;
      header := block;
      PreviousBit(view, bases, mem.hd, header);
      if mem.hd.prevFree[header] {
        var prev := Prev(mem.hd, header);
        PendingPair(view, bases, mem.hd, seg.lists, prev, header, prev);
        seg.Remove(prev + HEADER);
        Absorb(prev, header);
        header := prev;
      }
    }

    method AbsorbNext(header: int)
      requires seg.mem == mem && seg.Valid() && Pending(view, bases, mem.hd, seg.lists, header)
      modifies this`view, mem, seg`lists, seg.store, seg.counter, seg.bitmap
      ensures seg.Valid() && Pending(view, bases, mem.hd, seg.lists, header)
      ensures var v := old(view);
        view == if End(v, header) in v && v[End(v, header)].free then Merge(v, header, End(v, header)) else v
      ensures SizesKept(old(mem.hd), mem.hd, bases)
    {
      KeptItself(mem.hd, bases);
      hide SizesKept;
      NextBit(view, bases, mem.hd, header);
      HeadersInverse(view, bases, mem.hd, header);
      var next := Next(mem.hd, header);
      if IsFree(mem.hd, next) {
        PendingPair(view, bases, mem.hd, seg.lists, header, next, next);
        seg.Remove(next + HEADER);
        Absorb(header, next);
      }
    }
  }

  /** Freeing an object right after its allocation leaves the blocks as they were, up to one new chunk that is all free. */
  method MallocThenFree(heap: SplitCoalesceHeap, request: int, chunk: int) returns (ptr: int)
    requires heap.Valid() && 8 <= request <= MAX_OBJECT_SIZE && request % 8 == 0
    requires chunk == NULL || (0 < chunk && chunk % 8 == 0 && Apart(heap.bases, chunk))
    modifies heap`view, heap`bases, heap.mem, heap.seg`lists, heap.seg.store, heap.seg.counter, heap.seg.bitmap
    ensures heap.Valid()
    ensures heap.view == if Fits(old(heap.view), request) || chunk == NULL then old(heap.view) else NewChunk(old(heap.view), chunk)
  {
    ptr := heap.Malloc(request, chunk);
    if ptr != NULL {
      if Fits(old(heap.view), request) {
        ReleaseUndoesAllocate(old(heap.view), old(heap.bases), ptr - HEADER, request);
      } else {
        NewChunkSound(old(heap.view), old(heap.bases), chunk);
        ReleaseUndoesAllocate(NewChunk(old(heap.view), chunk), heap.bases, ptr - HEADER, request);
      }
      heap.Free(ptr);
    }
  }

  // ---- why headers and list links can be kept in maps of their own

  /** The addresses at which the heap reads or writes header fields. */
  ghost predicate IsHeader(v: View, bases: set<int>, a: int) {
    a in v || a in bases || IsTail(bases, a) || IsTail(bases, a - HEADER)
  }

  ghost predicate Clear(a: int, m: int, b: int, n: int) {
    a + m <= b || b + n <= a
  }

  /**
   * The links of a listed object lie inside its own free block: they meet no header, no live object and no other
   * object's links.
   */
  lemma LinksClear(v: View, bases: set<int>, members: set<int>, x: int)
    requires Sound(v, bases) && FreeListed(v, members) && x in members
    ensures x - HEADER in v && v[x - HEADER].free && x + LINKS <= End(v, x - HEADER)
    ensures forall a :: IsHeader(v, bases, a) ==> Clear(x, LINKS, a, HEADER)
    ensures forall k :: k in v && !v[k].free ==> Clear(x, LINKS, k + HEADER, v[k].size)
    ensures forall y :: y in members && y != x ==> Clear(x, LINKS, y, LINKS)
  {
    var h := x - HEADER;
    assert IsFreeObject(v, x);
    assert Placed(v, bases, h);
    forall a | IsHeader(v, bases, a)
      ensures Clear(x, LINKS, a, HEADER)
    {
      ClearOfHeader(v, bases, h, a);
    }
    forall k | k in v && !v[k].free
      ensures Clear(x, LINKS, k + HEADER, v[k].size)
    {
      OneEnd(v, bases, h, k);
      OneEnd(v, bases, k, h);
    }
    forall y | y in members && y != x
      ensures Clear(x, LINKS, y, LINKS)
    {
      assert IsFreeObject(v, y);
      assert Placed(v, bases, y - HEADER);
      OneEnd(v, bases, h, y - HEADER);
      OneEnd(v, bases, y - HEADER, h);
    }
  }

  lemma ClearOfHeader(v: View, bases: set<int>, h: int, a: int)
    requires Tiled(v, bases) && h in v && IsHeader(v, bases, a)
    ensures Clear(h + HEADER, LINKS, a, HEADER)
  {
    assert Placed(v, bases, h);
    if a in v {
      if a != h {
        OneEnd(v, bases, h, a);
        OneEnd(v, bases, a, h);
      }
    } else {
      var b :| b in bases && Inside(v, h, b);
      var c := if a in bases then a else if IsTail(bases, a) then a - (CHUNK - 2 * HEADER) else a - HEADER - (CHUNK - 2 * HEADER);
      assert c in bases;
    }
  }

  /** A header at `a` would lie in none of the chunks. */
  ghost predicate Outside(bases: set<int>, a: int) {
    forall b :: b in bases ==> a + HEADER <= b || b + CHUNK <= a
  }

  ghost predicate SameSize(hd: Headers, hd': Headers, a: int) {
    (a in hd'.size <==> a in hd.size) && (a in hd.size && a in hd'.size ==> hd'.size[a] == hd.size[a])
  }

  /** No size outside the chunks was written. */
  ghost predicate SizesKept(hd: Headers, hd': Headers, bases: set<int>) {
    forall a {:trigger Outside(bases, a)} :: Outside(bases, a) ==> SameSize(hd, hd', a)
  }

  lemma KeptItself(hd: Headers, bases: set<int>)
    ensures SizesKept(hd, hd, bases)
  {}

  lemma KeptTwice(hd: Headers, hd': Headers, hd'': Headers, bases: set<int>)
    requires SizesKept(hd, hd', bases) && SizesKept(hd', hd'', bases)
    ensures SizesKept(hd, hd'', bases)
  {}

  /** A block's header is not outside. */
  lemma BlockInside(v: View, bases: set<int>, h: int)
    requires Tiled(v, bases) && h in v
    ensures !Outside(bases, h)
    ensures forall s :: h <= s <= End(v, h) ==> !Outside(bases, s)
  {
    assert Placed(v, bases, h);
  }

  lemma CarveKeeps(v: View, bases: set<int>, hd: Headers, h: int, request: int)
    requires Tiled(v, bases) && Tagged(v, bases, hd) && Allocatable(v, h, request)
    ensures h in hd.size && SizesKept(hd, CarveTags(hd, h, request), bases)
  {
    assert TaggedBlock(v, hd, h);
    BlockInside(v, bases, h);
    hide Tiled, Tagged;
  }

  lemma ChunkKeeps(bases: set<int>, hd: Headers, b: int)
    ensures SizesKept(hd, ChunkTags(hd, b), bases + {b})
  {
    assert b in bases + {b};
  }

  lemma CoalesceKeeps(v: View, bases: set<int>, hd: Headers, p: int, h: int)
    requires Tiled(v, bases) && p in v && h in hd.size
    ensures SizesKept(hd, CoalesceTags(hd, p, h), bases)
  {
    BlockInside(v, bases, p);
    hide Tiled;
  }

  lemma FreeKeeps(hd: Headers, bases: set<int>, h: int)
    requires h in hd.size
    ensures SizesKept(hd, FreeTags(hd, h, true), bases)
  {}

  /** All free blocks but `s` are on the lists. */
  ghost predicate Pending(v: View, bases: set<int>, hd: Headers, lists: Lists, s: int) {
    && Tiled(v, bases) && Tagged(v, bases, hd) && Sized(lists, hd.size)
    && s in v && v[s].free && FreeListed(v[s := Block(v[s].size, false)], Members(lists))
  }

  /** All free blocks but the adjacent blocks `p` and `h` are on the lists. */
  ghost predicate Joinable(v: View, bases: set<int>, hd: Headers, lists: Lists, p: int, h: int) {
    && Tiled(v, bases) && Tagged(v, bases, hd) && Sized(lists, hd.size)
    && p in v && h in v && End(v, p) == h && v[p].free && v[h].free
    && FreeListed(v[p := Block(v[p].size, false)][h := Block(v[h].size, false)], Members(lists))
  }

  lemma FlagPending(v: View, bases: set<int>, hd: Headers, lists: Lists, h: int)
    requires Tiled(v, bases) && Tagged(v, bases, hd) && Sized(lists, hd.size) && FreeListed(v, Members(lists))
    requires h in v && !v[h].free
    ensures h in hd.size && Pending(v[h := Block(v[h].size, true)], bases, FreeTags(hd, h, true), lists, h)
  {
    var w := v[h := Block(v[h].size, true)];
    FlagTiled(v, bases, h, true);
    FreeTagged(v, bases, hd, h, true);
    assert w[h := Block(w[h].size, false)] == v;
  }

  /** The neighbour `x` of the pending block is on a list; without it the two can be joined. */
  lemma PendingPair(v: View, bases: set<int>, hd: Headers, lists: Lists, p: int, h: int, x: int)
    requires p in v && h in v && End(v, p) == h && v[p].free && v[h].free && (x == p || x == h)
    requires Pending(v, bases, hd, lists, if x == p then h else p)
    ensures x + HEADER in Members(lists)
    ensures FreeListed(v[p := Block(v[p].size, false)][h := Block(v[h].size, false)], Members(lists) - {x + HEADER})
  {
    assert Placed(v, bases, p);
    var s := if x == p then h else p;
    var w := v[s := Block(v[s].size, false)];
    var u := v[p := Block(v[p].size, false)][h := Block(v[h].size, false)];
    assert IsFreeObject(w, x + HEADER);
    forall y
      ensures IsFreeObject(u, y) <==> IsFreeObject(w, y) && y != x + HEADER
    {}
  }

  lemma JoinPending(v: View, bases: set<int>, hd: Headers, lists: Lists, p: int, h: int)
    requires Joinable(v, bases, hd, lists, p, h)
    ensures h in hd.size && Pending(Merge(v, p, h), bases, CoalesceTags(hd, p, h), lists, p)
  {
    var w, u := Merge(v, p, h), v[p := Block(v[p].size, false)][h := Block(v[h].size, false)];
    assert Placed(v, bases, p);
    MergeTiled(v, bases, p, h);
    CoalesceTagged(v, bases, hd, p, h);
    forall x | x in Members(lists)
      ensures x - HEADER in CoalesceTags(hd, p, h).size && SizeOf(CoalesceTags(hd, p, h).size, x) == SizeOf(hd.size, x)
    {
      assert IsFreeObject(u, x) && TaggedBlock(v, hd, x - HEADER);
    }
    SizedFrame(lists, hd.size, CoalesceTags(hd, p, h).size);
    forall x
      ensures IsFreeObject(w[p := Block(w[p].size, false)], x) <==> IsFreeObject(u, x)
    {}
  }

  /** Putting the pending block on its list completes the lists. */
  lemma PendingListed(v: View, bases: set<int>, hd: Headers, lists: Lists, s: int)
    requires Pending(v, bases, hd, lists, s)
    ensures s + HEADER !in Members(lists) && 0 < s + HEADER && s in hd.size && 0 < hd.size[s] && hd.size[s] % 8 == 0
    ensures FreeListed(v, Members(lists) + {s + HEADER})
  {
    assert Placed(v, bases, s) && TaggedBlock(v, hd, s);
    var w := v[s := Block(v[s].size, false)];
    assert !IsFreeObject(w, s + HEADER);
    forall x
      ensures IsFreeObject(v, x) <==> IsFreeObject(w, x) || x == s + HEADER
    {}
  }

  lemma ChunkListed(v: View, bases: set<int>, hd: Headers, lists: Lists, b: int)
    requires Tiled(v, bases) && Tagged(v, bases, hd) && Apart(bases, b)
    requires Sized(lists, hd.size) && FreeListed(v, Members(lists))
    ensures Sized(lists, ChunkTags(hd, b).size)
    ensures FreeListed(NewChunk(v, b)[b + HEADER := Block(MAX_OBJECT_SIZE, false)], Members(lists))
  {
    FreshChunk(v, bases, b);
    forall x | x in Members(lists)
      ensures x - HEADER in ChunkTags(hd, b).size && SizeOf(ChunkTags(hd, b).size, x) == SizeOf(hd.size, x)
    {
      assert IsFreeObject(v, x) && TaggedBlock(v, hd, x - HEADER);
    }
    SizedFrame(lists, hd.size, ChunkTags(hd, b).size);
    forall x
      ensures IsFreeObject(NewChunk(v, b)[b + HEADER := Block(MAX_OBJECT_SIZE, false)], x) <==> IsFreeObject(v, x)
    {}
  }

  lemma TakenListed(v: View, members: set<int>, members': set<int>, x: int)
    requires FreeListed(v, members) && members' == members - {x} && x - HEADER in v
    ensures FreeListed(v[x - HEADER := Block(v[x - HEADER].size, false)], members')
  {
    var w := v[x - HEADER := Block(v[x - HEADER].size, false)];
    forall y
      ensures IsFreeObject(w, y) <==> IsFreeObject(v, y) && y != x
    {}
  }

  lemma BestFitFits(v: View, h: int, request: int)
    requires BestFit(v, h, request)
    ensures Fits(v, request)
  {}

  ghost predicate Allocatable(v: View, h: int, request: int) {
    h in v && v[h].free && 8 <= request <= v[h].size && request % 8 == 0
  }

  /** The headers after `malloc` has cleared the free bit of `h` and split the block if possible. */
  function CarveTags(hd: Headers, h: int, request: int): Headers
    requires h in hd.size
  {
    var hd1 := FreeTags(hd, h, false);
    if hd.size[h] - request >= HEADER + LINKS then SplitTags(hd1, h, request) else hd1
  }

  lemma CarveTagged(v: View, bases: set<int>, hd: Headers, h: int, request: int)
    requires Tiled(v, bases) && Tagged(v, bases, hd) && Allocatable(v, h, request)
    ensures h in hd.size && 0 < h && hd.size[h] == v[h].size
    ensures Tagged(Allocate(v, h, request), bases, CarveTags(hd, h, request))
  {
    var v1 := v[h := Block(v[h].size, false)];
    assert TaggedBlock(v, hd, h) && Placed(v, bases, h);
    FlagTiled(v, bases, h, false);
    FreeTagged(v, bases, hd, h, false);
    if CanSplit(v, h, request) {
      SplitTagged(v1, bases, FreeTags(hd, h, false), h, request);
      assert Split(v1, h, request) == Allocate(v, h, request);
    }
  }

  /** The lists still hold exactly the free blocks, up to the piece that was split off and is freed next. */
  lemma CarveListed(v: View, bases: set<int>, hd: Headers, lists: Lists, h: int, request: int)
    requires Tiled(v, bases) && Tagged(v, bases, hd) && Allocatable(v, h, request) && h in hd.size
    requires Sized(lists, hd.size) && FreeListed(v[h := Block(v[h].size, false)], Members(lists))
    ensures var w, s, size := Allocate(v, h, request), h + HEADER + request, CarveTags(hd, h, request).size;
      && Sized(lists, size)
      && if CanSplit(v, h, request) then
           && s + HEADER !in Members(lists) && FreeListed(w, Members(lists) + {s + HEADER})
           && s in size && 0 < size[s] && size[s] % 8 == 0
         else FreeListed(w, Members(lists))
  {
    var v1 := v[h := Block(v[h].size, false)];
    var size := CarveTags(hd, h, request).size;
    assert TaggedBlock(v, hd, h) && Placed(v, bases, h);
    if CanSplit(v, h, request) {
      SplitFresh(v, bases, h, request);
      assert !IsFreeObject(v1, h + HEADER + request + HEADER);
    }
    forall x | x in Members(lists)
      ensures x - HEADER in size && SizeOf(size, x) == SizeOf(hd.size, x)
    {
      assert IsFreeObject(v1, x) && TaggedBlock(v, hd, x - HEADER);
    }
    SizedFrame(lists, hd.size, size);
    forall x
      ensures IsFreeObject(Allocate(v, h, request), x)
         <==> IsFreeObject(v1, x) || (CanSplit(v, h, request) && x == h + HEADER + request + HEADER)
    {}
  }
}
