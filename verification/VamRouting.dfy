/** `free`: from an address to the component that allocated it. */
module VamRouting {
  import opened IntrusiveLists
  import opened ObjectHeaders
  import opened ReapLayouts
  import opened Partitions
  import opened PartitionAllocation
  import opened PartitionFrames
  import opened Shelves
  import opened OneSizeHeaps
  import opened FrequencyHeaps
  import opened TwoHeaps
  import opened Routing
  import opened VamStates
  import ReapSlots
  import ReapBases
  import SplitCoalesce
  import B = BoundaryTags

  /** Where a live pointer comes from: slot `i` of the reap at `a`, of size class `c`; a block; a huge region. */
  datatype Owner = Reap(c: nat, a: nat, i: nat) | Block | Huge

  ghost predicate Owns(v: Vam, ptr: int, o: Owner) {
    match o
    case Reap(c, a, i) => |v.shelves| > c && Holds(v.shelves[c], ptr, a, i)
    case Block => ptr - HEADER in v.blocks.view && !v.blocks.view[ptr - HEADER].free
    case Huge => ptr - HEADER in v.huge
  }

  /** Where `free` sends a pointer: to a heap of one size, with the subheap it finds, or to one of the heaps with headers. */
  datatype Route = ToReap(subheap: int, sizeClass: nat) | ToBlocks | ToHuge

  function RouteOf(o: Owner): Route {
    match o
    case Reap(c, a, _) => ToReap(a, c)
    case Block => ToBlocks
    case Huge => ToHuge
  }

  /** The `_object_size` in the memory of the reap at `a`. */
  ghost predicate ObjectSizeAt(v: Vam, a: int, n: nat) {
    exists c: nat :: InSubs(v.shelves, c, a) && n == v.shelves[c].objectSize
  }

  /** The `_size` in the memory of a header. */
  ghost predicate HeaderSizeAt(v: Vam, h: int, n: int) {
    (h in v.blocks.view && n == v.blocks.view[h].size) || (h in v.huge && n == v.huge[h])
  }

  /** Whether the size in the header at `h` is that of a huge object. */
  ghost predicate HeaderSays(v: Vam, h: int, large: bool) {
    exists n :: HeaderSizeAt(v, h, n) && (large <==> B.MAX_OBJECT_SIZE < n)
  }

  /** The `class` whose reaps have objects of the size that the reap at `a` has. */
  ghost predicate ClassSays(v: Vam, a: int, c: nat) {
    exists n :: ObjectSizeAt(v, a, n) && 0 < n && c == SizeIndex(n)
  }

  /** The decisions of `free`: by type (FrequencyHeap), then by the reap's object size (SegSizeHeap) or by header (TwoHeap). */
  ghost predicate RoutedBy(v: Vam, ptr: int, t: nat, r: Route) {
    match r
    case ToReap(a, c) =>
      t != LOW_FREQ_TYPE && 0 < ClusterSize(t) && a == SubheapOf(ptr, t) && ClassSays(v, a, c)
    case ToBlocks => t == LOW_FREQ_TYPE && HeaderSays(v, ptr - HEADER, false)
    case ToHuge => t == LOW_FREQ_TYPE && HeaderSays(v, ptr - HEADER, true)
  }

  ghost predicate Routed(v: Vam, ptr: int, r: Route) {
    exists t :: SeenType(v.pool, ptr, t) && RoutedBy(v, ptr, t, r)
  }

  lemma ReapSeen(v: Vam, ptr: int, c: nat, a: nat, i: nat)
    requires Composed(v) && c < |v.shelves| && Holds(v.shelves[c], ptr, a, i)
    ensures InSubs(v.shelves, c, a) && InClass(v.shelves[c].objectSize, c)
    ensures var t := v.shelves[c].subs[a].order;
      SeenType(v.pool, ptr, t) && t != LOW_FREQ_TYPE && 0 < ClusterSize(t) && SubheapOf(ptr, t) == a
  {
    hide SoundPool, ObjectAt, BlocksLinked, HugeLinked, SoundShelf, ClusterSize, SubheapOf, SeenType;
    ClassesOf(v);
    assert InSubs(v.shelves, c, a);
    SubOwns(v, c, a);
    var s := v.shelves[c];
    ObjectInside(s, ptr, a, i);
    MaskFindsOwner(s, ptr, a, i, ptr);
    InteriorType(v.pool, a, ClusterSize(s.subs[a].order), s.subs[a].order, ptr);
  }

  lemma ClassFound(v: Vam, c: nat, a: nat, d: nat)
    requires Composed(v) && InSubs(v.shelves, c, a) && InClass(v.shelves[c].objectSize, c)
    ensures ClassSays(v, a, d) <==> d == c
  {
    assert ShelvesLinked(v.pool, v.shelves);
    hide Composed, InSubs, ShelfLinked;
    assert ObjectSizeAt(v, a, v.shelves[c].objectSize);
    forall n | ObjectSizeAt(v, a, n)
      ensures n == v.shelves[c].objectSize
    {
      var e: nat :| InSubs(v.shelves, e, a) && n == v.shelves[e].objectSize;
      assert e == c;
    }
  }

  lemma ReapRouted(v: Vam, ptr: int, c: nat, a: nat, i: nat, r: Route)
    requires Composed(v) && c < |v.shelves| && Holds(v.shelves[c], ptr, a, i)
    ensures Routed(v, ptr, r) <==> r == ToReap(a, c)
  {
    ReapSeen(v, ptr, c, a, i);
    var t := v.shelves[c].subs[a].order;
    forall d: nat
      ensures ClassSays(v, a, d) <==> d == c
    {
      ClassFound(v, c, a, d);
    }
    hide Composed, Holds, ClusterSize, SubheapOf, SeenType, ClassSays, HeaderSays, InSubs;
    SeenOnce(v.pool, ptr);
    assert r == ToReap(a, c) ==> RoutedBy(v, ptr, t, r);
  }

  lemma BlockSeen(v: Vam, ptr: int)
    requires Composed(v) && ptr - HEADER in v.blocks.view
    ensures SeenType(v.pool, ptr, LOW_FREQ_TYPE) && v.blocks.view[ptr - HEADER].size <= B.MAX_OBJECT_SIZE
    ensures ptr - HEADER !in v.huge
  {
    var h, view := ptr - HEADER, v.blocks.view;
    assert B.Placed(view, v.blocks.bases, h);
    var b :| b in v.blocks.bases && B.Inside(view, h, b);
    hide SoundPool, ObjectAt, ShelvesLinked, SeenType, B.Sound;
    InteriorType(v.pool, b, PARTITION_SIZE, LOW_FREQ_TYPE, ptr);
    if h in v.huge {
      ObjectsDisjoint(v.pool, b, PARTITION_SIZE, LOW_FREQ_TYPE, h, HugeSize(v.huge[h]), LOW_FREQ_TYPE);
    }
  }

  lemma BlockRouted(v: Vam, ptr: int, r: Route)
    requires Composed(v) && ptr - HEADER in v.blocks.view
    ensures Routed(v, ptr, r) <==> r == ToBlocks
  {
    BlockSeen(v, ptr);
    hide Composed, SeenType;
    assert HeaderSizeAt(v, ptr - HEADER, v.blocks.view[ptr - HEADER].size);
    assert r == ToBlocks ==> RoutedBy(v, ptr, LOW_FREQ_TYPE, r);
    SeenOnce(v.pool, ptr);
  }

  lemma HugeSeen(v: Vam, ptr: int)
    requires Composed(v) && ptr - HEADER in v.huge
    ensures SeenType(v.pool, ptr, LOW_FREQ_TYPE) && B.MAX_OBJECT_SIZE < v.huge[ptr - HEADER]
    ensures ptr - HEADER !in v.blocks.view
  {
    if ptr - HEADER in v.blocks.view {
      BlockSeen(v, ptr);
    }
    hide SoundPool, ObjectAt, ShelvesLinked, BlocksLinked, SeenType;
    var g := ptr - HEADER;
    HeaderType(v.pool, g, HugeSize(v.huge[g]), LOW_FREQ_TYPE);
  }

  lemma HugeRouted(v: Vam, ptr: int, r: Route)
    requires Composed(v) && ptr - HEADER in v.huge
    ensures Routed(v, ptr, r) <==> r == ToHuge
  {
    HugeSeen(v, ptr);
    hide Composed, SeenType;
    assert HeaderSizeAt(v, ptr - HEADER, v.huge[ptr - HEADER]);
    assert r == ToHuge ==> RoutedBy(v, ptr, LOW_FREQ_TYPE, r);
    SeenOnce(v.pool, ptr);
  }

  lemma SeenOnce(p: Pool, x: int)
    ensures forall t, u :: SeenType(p, x, t) && SeenType(p, x, u) ==> t == u
  {}

  /** In every linked state `free` sends a live pointer to the component that owns it, and nowhere else. */
  lemma RoutedToOwner(v: Vam, ptr: int, o: Owner, r: Route)
    requires Composed(v) && Owns(v, ptr, o)
    ensures Routed(v, ptr, r) <==> r == RouteOf(o)
  {
    hide Composed, Routed;
    match o
    case Reap(c, a, i) => ReapRouted(v, ptr, c, a, i, r);
    case Block => BlockRouted(v, ptr, r);
    case Huge => HugeRouted(v, ptr, r);
  }

  // ---- runs

  /** `step` frees the object that `o` owns at `ptr`. */
  ghost predicate Frees(step: Step, ptr: int, o: Owner) {
    match step
    case ReapFree(c, a, i) => o == Reap(c, a, i)
    case BlockFree(h) => o == Block && h == ptr - HEADER
    case HugeFree(g) => o == Huge && g == ptr - HEADER
    case _ => false
  }

  /** What a small request does to its heap of one size, with the cluster `b` it gets or NULL. */
  lemma ReapMallocShape(v: Vam, c: nat, size: nat, recycled: nat -> nat, space: int) returns (b: nat)
    requires Composed(v) && c < CLASSES && CanServe(v, c, size, recycled, space)
    ensures |v.shelves| == CLASSES && SoundShelf(v.shelves[c]) && CanMalloc(v.shelves[c], size, recycled, b)
    ensures var (v', ptr) := AfterReapMalloc(v, c, size, recycled, space);
      var (s', served) := Served(v.shelves[c], size, recycled, b);
      ptr == served && v'.shelves == v.shelves[c := s']
  {
    ClassesOf(v);
    SubheapSpace(v, c, size, recycled, space);
    hide Composed, SoundShelf, CanMalloc, Served, NoneLeft, Cluster, ClusterSize, CanServe;
    var s := v.shelves[c];
    b := if NoneLeft(s) then Cluster(v.pool, ClusterSize(s.nextOrder), s.nextOrder, space, v.aggressive).1 else NULL;
  }

  lemma ServedStays(v: Vam, d: nat, size: nat, recycled: nat -> nat, space: int, ptr: int, c: nat, a: nat, i: nat)
    requires Composed(v) && d < CLASSES && CanServe(v, d, size, recycled, space)
    requires c < |v.shelves| && Holds(v.shelves[c], ptr, a, i)
    ensures var v' := AfterReapMalloc(v, d, size, recycled, space).0; c < |v'.shelves| && Holds(v'.shelves[c], ptr, a, i)
  {
    hide Composed, Holds, SoundShelf, CanMalloc, Served, AfterReapMalloc, CanServe;
    var b := ReapMallocShape(v, d, size, recycled, space);
    if d == c {
      ServedKeeps(v.shelves[d], size, recycled, b, ptr, a, i);
    }
  }

  lemma ReapStays(v: Vam, step: Step, ptr: int, c: nat, a: nat, i: nat)
    requires Composed(v) && Enabled(v, step) && c < |v.shelves| && Holds(v.shelves[c], ptr, a, i)
    requires step != ReapFree(c, a, i)
    ensures var v' := After(v, step).0; c < |v'.shelves| && Holds(v'.shelves[c], ptr, a, i)
  {
    ClassesOf(v);
    hide Composed, Enabled, Holds, AfterReapMalloc, AfterReapFree, AfterBlockMalloc, AfterHugeMalloc, AfterHugeFree;
    match step
    case ReapMalloc(d, size, recycled, space) =>
      EnabledReapMalloc(v, d, size, recycled, space);
      ServedStays(v, d, size, recycled, space, ptr, c, a, i);
    case ReapFree(d, b, j) =>
      EnabledReapFree(v, d, b, j);
      ReturnedStays(v, d, b, j, ptr, c, a, i);
    case BlockMalloc(size, h, space) => SameShelves(v, step);
    case BlockFree(h) => SameShelves(v, step);
    case HugeMalloc(size, space) => SameShelves(v, step);
    case HugeFree(g) => SameShelves(v, step);
  }

  lemma EnabledReapMalloc(v: Vam, c: nat, size: nat, recycled: nat -> nat, space: int)
    requires Enabled(v, ReapMalloc(c, size, recycled, space))
    ensures c < |v.shelves| && CanServe(v, c, size, recycled, space)
  {}

  lemma EnabledReapFree(v: Vam, c: nat, a: nat, i: nat)
    requires Enabled(v, ReapFree(c, a, i))
    ensures InSubs(v.shelves, c, a) && i in ReapSlots.Live(v.shelves[c].subs[a].slots)
  {}

  lemma SameShelves(v: Vam, step: Step)
    requires Composed(v) && Enabled(v, step) && !step.ReapMalloc? && !step.ReapFree?
    ensures After(v, step).0.shelves == v.shelves
  {
    hide Composed, Cluster, Released, CanPlace;
  }

  lemma ReturnedStays(v: Vam, d: nat, b: nat, j: nat, ptr: int, c: nat, a: nat, i: nat)
    requires Composed(v) && InSubs(v.shelves, d, b) && j in ReapSlots.Live(v.shelves[d].subs[b].slots)
    requires c < |v.shelves| && Holds(v.shelves[c], ptr, a, i) && !(d == c && b == a && j == i)
    ensures var v' := AfterReapFree(v, d, b, j); c < |v'.shelves| && Holds(v'.shelves[c], ptr, a, i)
  {
    if d == c {
      OtherSlotStays(v, c, b, j, ptr, a, i);
    }
    hide Composed, Holds, Returned, Released, Live;
  }

  lemma OtherSlotStays(v: Vam, c: nat, b: nat, j: nat, ptr: int, a: nat, i: nat)
    requires Composed(v) && InSubs(v.shelves, c, b) && j in ReapSlots.Live(v.shelves[c].subs[b].slots)
    requires Holds(v.shelves[c], ptr, a, i) && !(a == b && i == j)
    ensures Holds(Returned(v.shelves[c], b, j), ptr, a, i)
  {
    ShelfAt(v.pool, v.shelves, c);
    var s := v.shelves[c];
    hide Composed, SoundShelf;
    HeldSlot(s, b, j);
    var x := AddressOfSlot(s, b, j);
    ReturnedHolds(s, b, j, x, ptr, a, i);
  }

  /** The address of a live slot. */
  ghost function AddressOfSlot(s: Shelf, a: nat, i: nat): int
    requires a in s.subs && 0 < s.objectSize
  {
    ReapBases.Address(LayoutOf(a, s.subs[a].order, s.objectSize).base, s.objectSize, i)
  }

  lemma HeldSlot(s: Shelf, a: nat, i: nat)
    requires SoundShelf(s) && a in s.subs && i in ReapSlots.Live(s.subs[a].slots)
    ensures 0 < s.objectSize && Holds(s, AddressOfSlot(s, a, i), a, i)
  {
    assert SubShape(a, s.subs[a], s.objectSize);
    hide SoundShelf, ReapSlots.Live;
  }

  lemma BlockStays(v: Vam, step: Step, h: int)
    requires Composed(v) && Enabled(v, step) && h in v.blocks.view && !v.blocks.view[h].free && step != BlockFree(h)
    ensures var w := After(v, step).0.blocks.view; h in w && w[h] == v.blocks.view[h]
  {
    hide SoundPool, ShelvesLinked, HugeLinked, ObjectAt;
    match step
    case BlockMalloc(size, k, space) =>
      if SplitCoalesce.Fits(v.blocks.view, size) {
        B.LiveBlockStays(v.blocks, B.Take(k, size), h);
      } else {
        ClusterKeeps(v.pool, PARTITION_SIZE, LOW_FREQ_TYPE, space, v.aggressive);
        var (p', b) := Cluster(v.pool, PARTITION_SIZE, LOW_FREQ_TYPE, space, v.aggressive);
        if b != NULL {
          ChunkSpace(v, p', b);
          BlockStaysBesideChunk(v.blocks, b, size, h);
        }
      }
    case BlockFree(k) =>
      B.LiveBlockStays(v.blocks, B.Give(k), h);
    case _ =>
  }

  lemma BlockStaysBesideChunk(blocks: B.Heap, b: int, size: nat, h: int)
    requires B.Sound(blocks.view, blocks.bases) && h in blocks.view && !blocks.view[h].free
    requires 0 < b && b % 8 == 0 && B.Apart(blocks.bases, b) && 8 <= size <= B.MAX_OBJECT_SIZE && size % 8 == 0
    ensures var w := B.Allocate(B.NewChunk(blocks.view, b), b + HEADER, size); h in w && w[h] == blocks.view[h]
  {
    B.NewChunkSound(blocks.view, blocks.bases, b);
    B.LiveBlockStays(blocks, B.Obtain(b), h);
    var after := B.Heap(B.NewChunk(blocks.view, b), blocks.bases + {b});
    B.LiveBlockStays(after, B.Take(b + HEADER, size), h);
  }

  lemma HugeStays(v: Vam, step: Step, g: int)
    requires Composed(v) && Enabled(v, step) && g in v.huge && step != HugeFree(g)
    ensures g in After(v, step).0.huge
  {
    hide Composed, Cluster, Released;
  }

  /** An owner keeps its object in every step but its own free. */
  lemma OwnsStays(v: Vam, step: Step, ptr: int, o: Owner)
    requires Composed(v) && Enabled(v, step) && Owns(v, ptr, o) && !Frees(step, ptr, o)
    ensures Owns(After(v, step).0, ptr, o)
  {
    hide Composed, Enabled, After, Holds;
    match o
    case Reap(c, a, i) => ReapStays(v, step, ptr, c, a, i);
    case Block => BlockStays(v, step, ptr - HEADER);
    case Huge => HugeStays(v, step, ptr - HEADER);
  }

  ghost predicate IsRun(states: seq<Vam>, steps: seq<Step>) {
    && |states| == |steps| + 1 && Composed(states[0])
    && forall k {:trigger steps[k]} :: 0 <= k < |steps| ==>
      Composed(states[k]) ==> Enabled(states[k], steps[k]) && states[k + 1] == After(states[k], steps[k]).0
  }

  lemma RunStep(states: seq<Vam>, steps: seq<Step>, k: nat)
    requires IsRun(states, steps) && k < |steps| && Composed(states[k])
    ensures |states| == |steps| + 1 && Enabled(states[k], steps[k]) && states[k + 1] == After(states[k], steps[k]).0
  {
    hide Composed, Enabled, After;
    assert steps[k] == steps[k];
  }

  lemma RunStart(states: seq<Vam>, steps: seq<Step>)
    requires IsRun(states, steps)
    ensures |states| == |steps| + 1 && Composed(states[0])
  {}

  /** In every state of every run, each layer lies in live clusters of the partition heap. */
  lemma {:induction false} RunLinked(states: seq<Vam>, steps: seq<Step>, k: nat)
    requires IsRun(states, steps) && k < |states|
    ensures Composed(states[k])
  {
    hide IsRun, Composed, Enabled, After;
    RunStart(states, steps);
    if k > 0 {
      RunLinked(states, steps, k - 1);
      RunStep(states, steps, k - 1);
      StepLinked(states[k - 1], steps[k - 1]);
    }
  }

  /** Over any run, from its allocation until its own free, `free` would send a pointer to its owner and nowhere else. */
  lemma {:induction false} RoutedOverRuns(states: seq<Vam>, steps: seq<Step>, j: nat, k: nat, ptr: int, o: Owner)
    requires IsRun(states, steps) && j <= k < |states| && Owns(states[j], ptr, o)
    requires forall n :: j <= n < k ==> !Frees(steps[n], ptr, o)
    ensures Owns(states[k], ptr, o) && forall r :: Routed(states[k], ptr, r) <==> r == RouteOf(o)
  {
    hide IsRun, Composed, Enabled, After, Routed, Owns, Frees;
    RunStart(states, steps);
    RunLinked(states, steps, k);
    if j < k {
      RoutedOverRuns(states, steps, j, k - 1, ptr, o);
      RunLinked(states, steps, k - 1);
      RunStep(states, steps, k - 1);
      assert !Frees(steps[k - 1], ptr, o);
      OwnsStays(states[k - 1], steps[k - 1], ptr, o);
    }
    forall r
      ensures Routed(states[k], ptr, r) <==> r == RouteOf(o)
    {
      RoutedToOwner(states[k], ptr, o, r);
    }
  }

  // ---- what malloc hands out

  /** The bytes of an object. */
  ghost function Bytes(v: Vam, ptr: int, o: Owner): int
    requires Owns(v, ptr, o)
  {
    match o
    case Reap(c, _, _) => v.shelves[c].objectSize
    case Block => v.blocks.view[ptr - HEADER].size
    case Huge => v.huge[ptr - HEADER]
  }

  /** Huge objects near the end of the address space do not fit their regions; see `HugeSizeSuffices`. */
  ghost predicate Fitting(v: Vam, ptr: int, o: Owner) {
    o == Huge && ptr - HEADER in v.huge ==> v.huge[ptr - HEADER] <= ADDRESS_SPACE - HEADER - PAGE_SIZE
  }

  ghost predicate Within(a: int, size: nat, ptr: int, bytes: int) {
    a <= ptr && ptr + bytes <= a + size
  }

  /** The cluster an object lies in starts at `a`. */
  ghost predicate InCluster(v: Vam, ptr: int, o: Owner, a: int) {
    match o
    case Reap(c, b, _) => a == b && InSubs(v.shelves, c, a)
    case Block => a in v.blocks.bases && ptr - HEADER in v.blocks.view && B.Inside(v.blocks.view, ptr - HEADER, a)
    case Huge => a == ptr - HEADER && a in v.huge
  }

  /** Every object lies in a live cluster. */
  lemma ObjectCluster(v: Vam, ptr: int, o: Owner) returns (a: int, size: nat, t: nat)
    requires Composed(v) && Owns(v, ptr, o) && Fitting(v, ptr, o)
    ensures ObjectAt(v.pool, a, size, t) && Within(a, size, ptr, Bytes(v, ptr, o)) && InCluster(v, ptr, o, a)
  {
    hide Composed, ObjectAt, Within, InSubs, Holds, HugeSize;
    match o
    case Reap(c, b, i) =>
      a, size, t := ReapCluster(v, ptr, c, b, i);
    case Block =>
      a, size, t := BlockCluster(v, ptr);
    case Huge =>
      a, size, t := HugeCluster(v, ptr);
  }

  lemma BlockCluster(v: Vam, ptr: int) returns (a: int, size: nat, t: nat)
    requires Composed(v) && ptr - HEADER in v.blocks.view
    ensures ObjectAt(v.pool, a, size, t) && Within(a, size, ptr, v.blocks.view[ptr - HEADER].size)
    ensures a in v.blocks.bases && B.Inside(v.blocks.view, ptr - HEADER, a)
  {
    hide SoundPool, ObjectAt, ShelvesLinked, HugeLinked;
    assert B.Placed(v.blocks.view, v.blocks.bases, ptr - HEADER);
    a :| a in v.blocks.bases && B.Inside(v.blocks.view, ptr - HEADER, a);
    size, t := PARTITION_SIZE, LOW_FREQ_TYPE;
  }

  lemma HugeCluster(v: Vam, ptr: int) returns (a: int, size: nat, t: nat)
    requires Composed(v) && ptr - HEADER in v.huge && v.huge[ptr - HEADER] <= ADDRESS_SPACE - HEADER - PAGE_SIZE
    ensures ObjectAt(v.pool, a, size, t) && Within(a, size, ptr, v.huge[ptr - HEADER]) && a == ptr - HEADER
  {
    hide SoundPool, ObjectAt, ShelvesLinked, BlocksLinked, HugeSize;
    a, size, t := ptr - HEADER, HugeSize(v.huge[ptr - HEADER]), LOW_FREQ_TYPE;
    HugeSizeSuffices(v.huge[ptr - HEADER]);
  }

  lemma ReapCluster(v: Vam, ptr: int, c: nat, b: nat, i: nat) returns (a: int, size: nat, t: nat)
    requires Composed(v) && c < |v.shelves| && Holds(v.shelves[c], ptr, b, i)
    ensures a == b && InSubs(v.shelves, c, b) && ObjectAt(v.pool, a, size, t)
    ensures Within(a, size, ptr, v.shelves[c].objectSize)
  {
    hide SoundPool, ObjectAt, SoundShelf, BlocksLinked, HugeLinked, ClusterSize;
    ClassesOf(v);
    ShelfAt(v.pool, v.shelves, c);
    assert InSubs(v.shelves, c, b);
    SubOwns(v, c, b);
    ObjectInside(v.shelves[c], ptr, b, i);
    t := v.shelves[c].subs[b].order;
    a, size := b, ClusterSize(t);
  }

  /** Live objects do not overlap, whichever components they come from. */
  lemma ObjectsApart(v: Vam, ptr: int, o: Owner, ptr': int, o': Owner)
    requires Composed(v) && Owns(v, ptr, o) && Owns(v, ptr', o') && Fitting(v, ptr, o) && Fitting(v, ptr', o')
    requires ptr != ptr' || o != o'
    ensures Disjoint(ptr, Bytes(v, ptr, o), ptr', Bytes(v, ptr', o'))
  {
    var a, size, t := ObjectCluster(v, ptr, o);
    var a', size', t' := ObjectCluster(v, ptr', o');
    SoundPoolOf(v);
    hide Composed, Owns, ObjectAt, SoundPool, InCluster, Fitting;
    if a != a' {
      ObjectsDisjoint(v.pool, a, size, t, a', size', t');
    } else {
      SameCluster(v, ptr, o, ptr', o', a);
    }
  }

  lemma SoundPoolOf(v: Vam)
    requires Composed(v)
    ensures SoundPool(v.pool)
  {}

  lemma SameCluster(v: Vam, ptr: int, o: Owner, ptr': int, o': Owner, a: int)
    requires Composed(v) && Owns(v, ptr, o) && Owns(v, ptr', o') && (ptr != ptr' || o != o')
    requires InCluster(v, ptr, o, a) && InCluster(v, ptr', o', a)
    ensures Disjoint(ptr, Bytes(v, ptr, o), ptr', Bytes(v, ptr', o'))
  {
    hide Composed, InSubs, Holds;
    SameKind(v, ptr, o, ptr', o', a);
    match o
    case Reap(c, b, i) => SlotsApart(v, ptr, o, ptr', o');
    case Block => BlocksApart(v, ptr, ptr');
    case Huge =>
  }

  lemma BlocksApart(v: Vam, ptr: int, ptr': int)
    requires Composed(v) && ptr != ptr' && ptr - HEADER in v.blocks.view && ptr' - HEADER in v.blocks.view
    ensures Disjoint(ptr, v.blocks.view[ptr - HEADER].size, ptr', v.blocks.view[ptr' - HEADER].size)
  {
    hide SoundPool, ShelvesLinked, HugeLinked, ObjectAt;
    B.OneEnd(v.blocks.view, v.blocks.bases, ptr - HEADER, ptr' - HEADER);
    B.OneEnd(v.blocks.view, v.blocks.bases, ptr' - HEADER, ptr - HEADER);
  }

  /** Objects in the same cluster are of the same component. */
  lemma SameKind(v: Vam, ptr: int, o: Owner, ptr': int, o': Owner, a: int)
    requires Composed(v) && InCluster(v, ptr, o, a) && InCluster(v, ptr', o', a)
    ensures match o
      case Reap(c, b, _) => o'.Reap? && o'.c == c && o'.a == b
      case Block => o' == Block
      case Huge => o' == Huge && ptr == ptr'
  {
    hide SoundPool, ObjectAt, BlocksLinked, HugeLinked, ShelfLinked, Live, InSubs, B.Inside;
    if o.Reap? {
      SubNotLow(v, o.c, a);
    }
    if o'.Reap? {
      SubNotLow(v, o'.c, a);
    }
    if a in v.huge {
      HugeNotOther(v, a);
    }
  }

  lemma SlotsApart(v: Vam, ptr: int, o: Owner, ptr': int, o': Owner)
    requires Composed(v) && Owns(v, ptr, o) && Owns(v, ptr', o') && (ptr != ptr' || o != o')
    requires o.Reap? && o'.Reap? && o'.c == o.c && o'.a == o.a
    ensures Disjoint(ptr, v.shelves[o.c].objectSize, ptr', v.shelves[o.c].objectSize)
  {
    var s := v.shelves[o.c];
    var base := LayoutOf(o.a, s.subs[o.a].order, s.objectSize).base;
    hide Composed, LayoutOf, ReapSlots.Live;
    if o.i < o'.i {
      ReapBases.AddressOrder(base, s.objectSize, o.i, o'.i);
    } else if o'.i < o.i {
      ReapBases.AddressOrder(base, s.objectSize, o'.i, o.i);
    }
  }

  ghost predicate IsMalloc(step: Step) {
    step.ReapMalloc? || step.BlockMalloc? || step.HugeMalloc?
  }

  lemma ReapGives(v: Vam, c: nat, size: nat, recycled: nat -> nat, space: int) returns (o: Owner)
    requires Composed(v) && c < CLASSES && CanServe(v, c, size, recycled, space)
    requires AfterReapMalloc(v, c, size, recycled, space).1 != NULL
    ensures var (v', ptr) := AfterReapMalloc(v, c, size, recycled, space);
      && o.Reap? && o.c == c && |v.shelves| == CLASSES && Owns(v', ptr, o) && Bytes(v', ptr, o) == size
      && ptr !in LiveObjects(v.shelves[c])
  {
    hide Composed, Holds, SoundShelf, CanMalloc, Served, AfterReapMalloc, CanServe;
    var b := ReapMallocShape(v, c, size, recycled, space);
    var s := v.shelves[c];
    var (s', ptr) := Served(s, size, recycled, b);
    ServedSound(s, size, recycled, b);
    ServedSubs(s, size, recycled, b);
    assert IsObject(s', ptr);
    var a: nat, i: nat :| Holds(s', ptr, a, i);
    o := Reap(c, a, i);
  }

  lemma BlockGives(v: Vam, size: nat, h: int, space: int)
    requires Composed(v) && CanPlace(v, size, h, space) && AfterBlockMalloc(v, size, h, space).1 != NULL
    ensures var (v', ptr) := AfterBlockMalloc(v, size, h, space);
      && Owns(v', ptr, Block) && size <= Bytes(v', ptr, Block) < size + 16 && !Owns(v, ptr, Block)
  {
    var view, bases := v.blocks.view, v.blocks.bases;
    hide SoundPool, ObjectAt, ShelvesLinked, HugeLinked, Live, CanAllocate;
    if SplitCoalesce.Fits(view, size) {
      B.AllocatedObject(view, bases, h, size);
    } else {
      ClusterKeeps(v.pool, PARTITION_SIZE, LOW_FREQ_TYPE, space, v.aggressive);
      var (p', b) := Cluster(v.pool, PARTITION_SIZE, LOW_FREQ_TYPE, space, v.aggressive);
      hide Cluster;
      if b != NULL {
        ChunkSpace(v, p', b);
        B.NewChunkSound(view, bases, b);
        B.FreshChunk(view, bases, b);
        B.AllocatedObject(B.NewChunk(view, b), bases + {b}, b + HEADER, size);
      }
    }
  }

  lemma HugeGives(v: Vam, size: nat, space: int)
    requires Composed(v) && Enabled(v, HugeMalloc(size, space)) && AfterHugeMalloc(v, size, space).1 != NULL
    ensures var (v', ptr) := AfterHugeMalloc(v, size, space);
      Owns(v', ptr, Huge) && Bytes(v', ptr, Huge) == size && !Owns(v, ptr, Huge)
  {
    hide Composed, Enabled, AfterHugeMalloc;
    HugeMallocShape(v, size, space);
  }

  lemma HugeMallocShape(v: Vam, size: nat, space: int)
    requires Composed(v) && Enabled(v, HugeMalloc(size, space))
    ensures var (v', ptr) := AfterHugeMalloc(v, size, space);
      && (ptr != NULL ==> ptr - HEADER !in v.huge && v'.huge == v.huge[ptr - HEADER := size])
      && (ptr == NULL ==> v'.huge == v.huge) && v'.shelves == v.shelves && v'.blocks == v.blocks
  {
    hide Composed, Enabled, CanAllocate, HugeSize, SoundPool, ObjectAt, Live, Cluster, KeepsBut;
    EnabledHugeMalloc(v, size, space);
    SoundPoolOf(v);
    ClusterKeeps(v.pool, HugeSize(size), LOW_FREQ_TYPE, space, v.aggressive);
    var g := Cluster(v.pool, HugeSize(size), LOW_FREQ_TYPE, space, v.aggressive).1;
    if g in v.huge {
      HugeNotOther(v, g);
    }
  }

  /** Two owners of one address are of the same component and the same cluster. */
  lemma OneRoute(v: Vam, ptr: int, o: Owner, o': Owner)
    requires Composed(v) && Owns(v, ptr, o) && Owns(v, ptr, o')
    ensures RouteOf(o) == RouteOf(o')
  {
    hide Composed, Owns, Routed;
    RoutedToOwner(v, ptr, o, RouteOf(o));
    RoutedToOwner(v, ptr, o', RouteOf(o));
  }

  /** `malloc` returns NULL or an object of the requested size, at an address that nothing owned before. */
  lemma MallocGives(v: Vam, step: Step) returns (o: Owner)
    requires Composed(v) && Enabled(v, step) && IsMalloc(step) && After(v, step).1 != NULL
    ensures var (v', ptr) := After(v, step);
      && Owns(v', ptr, o) && step.size <= Bytes(v', ptr, o) < step.size + 16 && (forall o' :: !Owns(v, ptr, o'))
      && (if step.ReapMalloc? then o.Reap? && o.c == step.c else o == if step.BlockMalloc? then Block else Huge)
  {
    hide Composed, Enabled, Holds, AfterReapMalloc, AfterReapFree, AfterBlockMalloc, AfterHugeMalloc, AfterHugeFree;
    ClassesOf(v);
    match step {
      case ReapMalloc(c, size, recycled, space) =>
        EnabledReapMalloc(v, c, size, recycled, space);
        o := ReapGives(v, c, size, recycled, space);
      case BlockMalloc(size, h, space) =>
        EnabledBlockMalloc(v, size, h, space);
        BlockGives(v, size, h, space);
        o := Block;
      case HugeMalloc(size, space) =>
        HugeGives(v, size, space);
        o := Huge;
      case _ =>
    }
    StepLinked(v, step);
    var (v', ptr) := After(v, step);
    forall o' | Owns(v, ptr, o')
      ensures false
    {
      OwnsStays(v, step, ptr, o');
      OneRoute(v', ptr, o, o');
      NotBefore(v, ptr, o, o');
    }
  }

  lemma EnabledHugeMalloc(v: Vam, size: nat, space: int)
    requires Enabled(v, HugeMalloc(size, space))
    ensures CanAllocate(v.pool, HugeSize(size), LOW_FREQ_TYPE, space)
  {}

  lemma EnabledBlockMalloc(v: Vam, size: nat, h: int, space: int)
    requires Enabled(v, BlockMalloc(size, h, space))
    ensures CanPlace(v, size, h, space)
  {}

  lemma NotBefore(v: Vam, ptr: int, o: Owner, o': Owner)
    requires Owns(v, ptr, o') && RouteOf(o) == RouteOf(o')
    ensures o == Block ==> Owns(v, ptr, Block)
    ensures o == Huge ==> Owns(v, ptr, Huge)
    ensures o.Reap? ==> |v.shelves| > o.c && ptr in LiveObjects(v.shelves[o.c])
  {
    hide Holds;
  }

  /** Everything that was live still is. */
  ghost predicate Keeps(v: Vam, v': Vam) {
    forall x, p :: Owns(v, x, p) ==> Owns(v', x, p)
  }

  /** At most `o` at `ptr` is new. */
  ghost predicate AddsOnly(v: Vam, v': Vam, ptr: int, o: Owner) {
    forall x, p :: Owns(v', x, p) ==> Owns(v, x, p) || (ptr != NULL && x == ptr && p == o)
  }

  /** NULL, or one new object of at least `size` bytes, with less than 16 to spare, at an address that nothing owned. */
  ghost predicate Gives(v: Vam, v': Vam, ptr: int, o: Owner, size: nat) {
    && AddsOnly(v, v', ptr, o)
    && (ptr != NULL ==> Owns(v', ptr, o) && size <= Bytes(v', ptr, o) < size + 16 && forall p :: !Owns(v, ptr, p))
  }

  lemma StepGives(v: Vam, step: Step) returns (o: Owner)
    requires Composed(v) && Enabled(v, step) && IsMalloc(step)
    ensures var (v', ptr) := After(v, step);
      && Composed(v') && Keeps(v, v') && Gives(v, v', ptr, o, step.size)
      && (ptr != NULL ==>
        if step.ReapMalloc? then o.Reap? && o.c == step.c else o == if step.BlockMalloc? then Block else Huge)
  {
    hide Composed, Enabled, After, Owns;
    StepLinked(v, step);
    o := Block;
    var (v', ptr) := After(v, step);
    if ptr != NULL {
      o := MallocGives(v, step);
    }
    forall x, p | Owns(v, x, p)
      ensures Owns(v', x, p)
    {
      OwnsStays(v, step, x, p);
    }
    forall x, p | Owns(v', x, p)
      ensures Owns(v, x, p) || (ptr != NULL && x == ptr && p == o)
    {
      StepAdds(v, step, x, p);
      if x == ptr && ptr != NULL {
        OneOwnerOf(v', ptr, o, p);
      }
    }
  }

  /** An address has one owner. */
  lemma OneOwnerOf(v: Vam, ptr: int, o: Owner, o': Owner)
    requires Composed(v) && Owns(v, ptr, o) && Owns(v, ptr, o')
    ensures o == o'
  {
    OneRoute(v, ptr, o, o');
    if o.Reap? {
      ShelfAt(v.pool, v.shelves, o.c);
      hide Composed, SoundShelf, Holds;
      OneOwner(v.shelves[o.c], ptr, o.a, o.i, o'.a, o'.i);
    }
  }

  /** What a malloc returns is the only object it adds. */
  lemma StepAdds(v: Vam, step: Step, x: int, p: Owner)
    requires Composed(v) && Enabled(v, step) && IsMalloc(step) && Owns(After(v, step).0, x, p)
    ensures Owns(v, x, p) || x == After(v, step).1 != NULL
  {
    hide Composed, Enabled, Holds, AfterReapMalloc, AfterReapFree, AfterBlockMalloc, AfterHugeMalloc, AfterHugeFree;
    ClassesOf(v);
    match step {
      case ReapMalloc(c, size, recycled, space) =>
        EnabledReapMalloc(v, c, size, recycled, space);
        ReapAdds(v, c, size, recycled, space, x, p);
      case BlockMalloc(size, h, space) =>
        EnabledBlockMalloc(v, size, h, space);
        BlockAdds(v, size, h, space, x, p);
      case HugeMalloc(size, space) =>
        HugeAdds(v, size, space, x, p);
      case _ =>
    }
  }

  lemma ReapAdds(v: Vam, c: nat, size: nat, recycled: nat -> nat, space: int, x: int, p: Owner)
    requires Composed(v) && c < CLASSES && CanServe(v, c, size, recycled, space)
    requires Owns(AfterReapMalloc(v, c, size, recycled, space).0, x, p)
    ensures Owns(v, x, p) || x == AfterReapMalloc(v, c, size, recycled, space).1 != NULL
  {
    SameLow(v, c, size, recycled, space);
    hide Composed, Holds, SoundShelf, CanMalloc, Served, AfterReapMalloc, CanServe;
    var b := ReapMallocShape(v, c, size, recycled, space);
    if p.Reap? && p.c == c {
      ServedAdds(v.shelves[c], size, recycled, b, x, p.a, p.i);
    }
  }

  lemma SameLow(v: Vam, c: nat, size: nat, recycled: nat -> nat, space: int)
    requires Composed(v) && c < CLASSES && CanServe(v, c, size, recycled, space)
    ensures var v' := AfterReapMalloc(v, c, size, recycled, space).0; v'.blocks == v.blocks && v'.huge == v.huge
  {
    hide Composed, Cluster, Served, SoundShelf, CanMalloc, NoneLeft, ClusterSize, CanAllocate;
    SubheapSpace(v, c, size, recycled, space);
  }

  lemma ServedAdds(s: Shelf, size: nat, recycled: nat -> nat, space: nat, x: int, a: nat, i: nat)
    requires SoundShelf(s) && CanMalloc(s, size, recycled, space)
    requires Holds(Served(s, size, recycled, space).0, x, a, i)
    ensures Holds(s, x, a, i) || x == Served(s, size, recycled, space).1 != NULL
  {
    hide Holds, SoundShelf, CanMalloc, Served, NoneLeft;
    ServedSound(s, size, recycled, space);
    var (s', ptr) := Served(s, size, recycled, space);
    assert IsObject(s', x);
    if x in LiveObjects(s) {
      var b: nat, j: nat :| Holds(s, x, b, j);
      ServedKeeps(s, size, recycled, space, x, b, j);
      OneOwner(s', x, a, i, b, j);
    }
  }

  lemma BlockAdds(v: Vam, size: nat, h: int, space: int, x: int, p: Owner)
    requires Composed(v) && CanPlace(v, size, h, space) && Owns(AfterBlockMalloc(v, size, h, space).0, x, p)
    ensures Owns(v, x, p) || x == AfterBlockMalloc(v, size, h, space).1 != NULL
  {
    var (v', ptr) := AfterBlockMalloc(v, size, h, space);
    BlockShape(v, size, h, space);
    hide Composed, CanPlace, AfterBlockMalloc, Holds;
  }

  /** A regular object is the only block that is no longer free, and it lies behind its chunk's start. */
  lemma BlockShape(v: Vam, size: nat, h: int, space: int)
    requires Composed(v) && CanPlace(v, size, h, space)
    ensures var (v', ptr) := AfterBlockMalloc(v, size, h, space);
      && v'.shelves == v.shelves && v'.huge == v.huge
      && forall k :: k in v'.blocks.view && !v'.blocks.view[k].free ==>
        (k in v.blocks.view && !v.blocks.view[k].free) || (ptr != NULL && k == ptr - HEADER)
    ensures SplitCoalesce.Fits(v.blocks.view, size) ==> AfterBlockMalloc(v, size, h, space).1 != NULL
  {
    hide SoundPool, ObjectAt, ShelvesLinked, HugeLinked, Live, CanAllocate;
    if SplitCoalesce.Fits(v.blocks.view, size) {
      assert B.Placed(v.blocks.view, v.blocks.bases, h);
    } else {
      hide BlocksLinked, SplitCoalesce.Fits;
      ClusterKeeps(v.pool, PARTITION_SIZE, LOW_FREQ_TYPE, space, v.aggressive);
    }
  }

  lemma HugeAdds(v: Vam, size: nat, space: int, x: int, p: Owner)
    requires Composed(v) && Enabled(v, HugeMalloc(size, space)) && Owns(AfterHugeMalloc(v, size, space).0, x, p)
    ensures Owns(v, x, p) || x == AfterHugeMalloc(v, size, space).1 != NULL
  {
    hide Composed, Enabled, Holds, AfterHugeMalloc;
    HugeMallocShape(v, size, space);
  }

  lemma KeepsItself(v: Vam, size: nat)
    ensures Keeps(v, v) && Gives(v, v, NULL, Block, size)
  {
    hide Owns;
  }

  /** An attempt that failed before does not show. */
  lemma GivesAfter(v: Vam, v': Vam, v'': Vam, failed: Owner, ptr: int, o: Owner, size: nat)
    requires Keeps(v, v') && Gives(v, v', NULL, failed, size) && Keeps(v', v'') && Gives(v', v'', ptr, o, size)
    ensures Keeps(v, v'') && Gives(v, v'', ptr, o, size)
  {
    hide Owns;
  }

  // ---- what free takes away

  /** The step that frees an object. */
  function FreeStep(ptr: int, o: Owner): Step {
    match o
    case Reap(c, a, i) => ReapFree(c, a, i)
    case Block => BlockFree(ptr - HEADER)
    case Huge => HugeFree(ptr - HEADER)
  }

  /** A free takes away the object of this owner, and no other. */
  ghost predicate Takes(v: Vam, v': Vam, ptr: int, o: Owner) {
    forall x, p :: Owns(v', x, p) <==> Owns(v, x, p) && !(x == ptr && p == o)
  }

  lemma FreeTakes(v: Vam, ptr: int, o: Owner)
    requires Composed(v) && Owns(v, ptr, o)
    ensures Enabled(v, FreeStep(ptr, o)) && Takes(v, After(v, FreeStep(ptr, o)).0, ptr, o)
  {
    FreeEnabled(v, ptr, o);
    hide Composed, Enabled, After, Owns;
    var v' := After(v, FreeStep(ptr, o)).0;
    forall x, p
      ensures Owns(v', x, p) <==> Owns(v, x, p) && !(x == ptr && p == o)
    {
      if Owns(v', x, p) {
        FreeOnlyTakes(v, ptr, o, x, p);
      } else if Owns(v, x, p) && !(x == ptr && p == o) {
        OneAddress(v, ptr, o, x, p);
        OwnsStays(v, FreeStep(ptr, o), x, p);
      }
    }
  }

  lemma FreeEnabled(v: Vam, ptr: int, o: Owner)
    requires Owns(v, ptr, o)
    ensures Enabled(v, FreeStep(ptr, o))
  {
    if o.Reap? {
      HeldHere(v.shelves[o.c], ptr, o.a, o.i);
    }
  }

  /** An owner owns one address. */
  lemma OneAddress(v: Vam, ptr: int, o: Owner, x: int, p: Owner)
    requires Owns(v, ptr, o) && Owns(v, x, p) && !(x == ptr && p == o)
    ensures !Frees(FreeStep(ptr, o), x, p)
  {
    hide LayoutOf;
  }

  lemma FreeOnlyTakes(v: Vam, ptr: int, o: Owner, x: int, p: Owner)
    requires Composed(v) && Owns(v, ptr, o) && Enabled(v, FreeStep(ptr, o)) && Owns(After(v, FreeStep(ptr, o)).0, x, p)
    ensures Owns(v, x, p) && !(x == ptr && p == o)
  {
    hide Composed, Holds, AfterReapFree, AfterHugeFree;
    match o
    case Reap(c, a, i) => ReapTaken(v, ptr, c, a, i, x, p);
    case Block => BlockTaken(v, ptr, x, p);
    case Huge => HugeTaken(v, ptr, x, p);
  }

  lemma ReapTaken(v: Vam, ptr: int, c: nat, a: nat, i: nat, x: int, p: Owner)
    requires Composed(v) && c < |v.shelves| && Holds(v.shelves[c], ptr, a, i) && InSubs(v.shelves, c, a)
    requires Owns(AfterReapFree(v, c, a, i), x, p)
    ensures Owns(v, x, p) && !(x == ptr && p == Reap(c, a, i))
  {
    hide SoundPool, BlocksLinked, HugeLinked, SoundShelf, Holds, Returned, AfterReapFree, InSubs, Backed;
    ShelfAt(v.pool, v.shelves, c);
    ReapFreeShape(v, c, a, i);
    if p.Reap? && p.c == c {
      ReturnedHolds(v.shelves[c], a, i, ptr, x, p.a, p.i);
      NoLongerHeld(v.shelves[c], a, i, ptr);
    }
  }

  lemma ReapFreeShape(v: Vam, c: nat, a: nat, i: nat)
    requires Composed(v) && InSubs(v.shelves, c, a)
    ensures a in v.shelves[c].subs
    ensures var v' := AfterReapFree(v, c, a, i);
      v'.shelves == v.shelves[c := Returned(v.shelves[c], a, i)] && v'.blocks == v.blocks && v'.huge == v.huge
  {
    hide Composed, Returned, Released, Live;
    SubNotLow(v, c, a);
  }

  lemma BlockTaken(v: Vam, ptr: int, x: int, p: Owner)
    requires Composed(v) && Owns(v, ptr, Block) && Owns(After(v, BlockFree(ptr - HEADER)).0, x, p)
    ensures Owns(v, x, p) && !(x == ptr && p == Block)
  {
    hide SoundPool, ShelvesLinked, HugeLinked, ObjectAt, Holds;
    if p == Block {
      B.ReleasedLive(v.blocks.view, v.blocks.bases, ptr - HEADER, x - HEADER);
    }
  }

  lemma HugeTaken(v: Vam, ptr: int, x: int, p: Owner)
    requires Composed(v) && Owns(v, ptr, Huge) && Owns(After(v, HugeFree(ptr - HEADER)).0, x, p)
    ensures Owns(v, x, p) && !(x == ptr && p == Huge)
  {
    hide Composed, Holds, After;
    HugeFreeShape(v, ptr - HEADER);
  }

  lemma HugeFreeShape(v: Vam, g: int)
    requires Composed(v) && g in v.huge
    ensures Enabled(v, HugeFree(g))
    ensures var v' := After(v, HugeFree(g)).0; v'.huge == v.huge - {g} && v'.shelves == v.shelves && v'.blocks == v.blocks
  {
    hide Composed, Released, Live;
    HugeNotOther(v, g);
  }

  /** When nothing is live, every cluster has gone back to the partition heap but the chunks, each of them one free block. */
  lemma NothingLive(v: Vam, a: int)
    requires Composed(v) && a in Live(v.pool) && (forall x, o :: !Owns(v, x, o))
    ensures a in v.blocks.bases && a + HEADER in v.blocks.view
    ensures v.blocks.view[a + HEADER] == B.Block(B.MAX_OBJECT_SIZE, true)
  {
    hide SoundPool, Live, ShelvesLinked, HugeLinked, InSubs, ObjectAt, Holds;
    if a in v.huge || !OnNoShelf(v.shelves, a) {
      var x, o := ClusterHasObject(v, a);
    } else {
      forall h | h in v.blocks.view && B.Inside(v.blocks.view, h, a)
        ensures v.blocks.view[h].free
      {
        assert !Owns(v, h + HEADER, Block);
      }
      B.EmptyChunkIsWhole(v.blocks.view, v.blocks.bases, a);
    }
  }

  lemma ClusterHasObject(v: Vam, a: int) returns (x: int, o: Owner)
    requires Composed(v) && (a in v.huge || !OnNoShelf(v.shelves, a))
    ensures Owns(v, x, o)
  {
    hide Composed, Holds;
    if a in v.huge {
      x, o := a + HEADER, Huge;
    } else {
      var c: nat :| InSubs(v.shelves, c, a);
      var i;
      x, i := ReapHasObject(v, c, a);
      o := Reap(c, a, i);
    }
  }

  /** A reap always has a live object. */
  lemma ReapHasObject(v: Vam, c: nat, a: nat) returns (x: int, i: nat)
    requires Composed(v) && InSubs(v.shelves, c, a)
    ensures Owns(v, x, Reap(c, a, i))
  {
    hide Composed, SoundShelf, ReapSlots.Live, Holds, Backed, ShelfLinked;
    ClassesOf(v);
    SubOwns(v, c, a);
    x, i := ShelfHasObject(v.pool, v.shelves[c], c, a);
  }

  lemma ShelfHasObject(p: Pool, s: Shelf, c: nat, a: nat) returns (x: int, i: nat)
    requires ShelfLinked(p, s, c) && a in s.subs
    ensures Holds(s, x, a, i)
  {
    hide SoundShelf, ReapSlots.Live, Holds, Backed;
    ReapSize(s, a);
    DeployedNoneIdle(s, a);
    i :| i in ReapSlots.Live(s.subs[a].slots);
    HeldSlot(s, a, i);
    x := AddressOfSlot(s, a, i);
  }

  lemma ReapSize(s: Shelf, a: nat)
    requires SoundShelf(s) && a in s.subs
    ensures 0 < s.objectSize
  {
    assert SubShape(a, s.subs[a], s.objectSize);
  }
}
