/**
 * The composition of vam.h: one partition heap under everything, a heap of one size for each size class of small
 * frequent objects, the boundary-tag heap for regular objects and regions of their own for huge ones.
 */
module VamStates {
  import opened IntrusiveLists
  import opened ObjectHeaders
  import opened ReapLayouts
  import opened Partitions
  import opened PartitionSteps
  import opened PartitionAllocation
  import opened PartitionFrames
  import opened Shelves
  import opened OneSizeHeaps
  import opened FrequencyHeaps
  import opened TwoHeaps
  import opened Routing
  import B = BoundaryTags
  import ReapSlots
  import SplitCoalesce

  // SIZE_TO_INDEX(MAX_DEDICATED_SIZE) + 1 size classes
  const CLASSES := 128

  /** `shelves` by size class, `blocks` with the chunks they are cut from, `huge` the sizes of huge objects by header. */
  datatype Vam = Vam(pool: Pool, shelves: seq<Shelf>, blocks: B.Heap, huge: map<int, nat>, aggressive: bool)

  // ---- what links the layers: everything above the partition heap lies in live clusters of its type and size

  ghost predicate Backed(p: Pool, s: Shelf) {
    forall a :: a in s.subs ==> ObjectAt(p, a, ClusterSize(s.subs[a].order), s.subs[a].order)
  }

  ghost predicate ShelfLinked(p: Pool, s: Shelf, c: nat) {
    SoundShelf(s) && Backed(p, s) && (s.objectSize != 0 ==> InClass(s.objectSize, c) && s.objectSize % 8 == 0)
  }

  ghost predicate InSubs(shelves: seq<Shelf>, c: nat, a: int) {
    c < |shelves| && 0 <= a && a in shelves[c].subs
  }

  ghost predicate OnNoShelf(shelves: seq<Shelf>, a: int) {
    forall c :: !InSubs(shelves, c, a)
  }

  ghost predicate ShelvesLinked(p: Pool, shelves: seq<Shelf>) {
    && |shelves| == CLASSES
    && (forall c: nat {:trigger ShelfLinked(p, shelves[c], c)} :: c < CLASSES ==> ShelfLinked(p, shelves[c], c))
    && (forall c, d, a :: InSubs(shelves, c, a) && InSubs(shelves, d, a) ==> c == d)
  }

  ghost predicate BlocksLinked(p: Pool, blocks: B.Heap) {
    && B.Sound(blocks.view, blocks.bases)
    && forall b :: b in blocks.bases ==> ObjectAt(p, b, PARTITION_SIZE, LOW_FREQ_TYPE)
  }

  ghost predicate HugeLinked(p: Pool, huge: map<int, nat>) {
    forall g :: g in huge ==>
      && B.MAX_OBJECT_SIZE < huge[g] < ADDRESS_SPACE && PARTITION_SIZE < HugeSize(huge[g])
      && ObjectAt(p, g, HugeSize(huge[g]), LOW_FREQ_TYPE)
  }

  /** The cluster at `a` is the region of a reap, a chunk or the region of a huge object. */
  ghost predicate Used(shelves: seq<Shelf>, blocks: B.Heap, huge: map<int, nat>, a: int) {
    !OnNoShelf(shelves, a) || a in blocks.bases || a in huge
  }

  /** No cluster leaks. */
  ghost predicate Accounted(p: Pool, shelves: seq<Shelf>, blocks: B.Heap, huge: map<int, nat>) {
    forall a :: a in Live(p) ==> Used(shelves, blocks, huge, a)
  }

  ghost predicate Composed(v: Vam) {
    && SoundPool(v.pool) && ShelvesLinked(v.pool, v.shelves) && BlocksLinked(v.pool, v.blocks) && HugeLinked(v.pool, v.huge)
    && Accounted(v.pool, v.shelves, v.blocks, v.huge)
  }

  // ---- changes of the pool

  /** Every live cluster but the one at `gone` stays live, with its size and type. */
  ghost predicate KeepsBut(p: Pool, p': Pool, gone: int) {
    forall x, size, t {:trigger ObjectAt(p', x, size, t)} :: x != gone && ObjectAt(p, x, size, t) ==> ObjectAt(p', x, size, t)
  }

  lemma ShelvesFrame(p: Pool, p': Pool, shelves: seq<Shelf>, gone: int)
    requires ShelvesLinked(p, shelves) && KeepsBut(p, p', gone)
    requires OnNoShelf(shelves, gone)
    ensures ShelvesLinked(p', shelves)
  {
    hide ObjectAt, SoundShelf, ClusterSize;
    forall c: nat | c < CLASSES
      ensures ShelfLinked(p', shelves[c], c)
    {
      assert ShelfLinked(p, shelves[c], c);
      assert !InSubs(shelves, c, gone);
    }
  }

  lemma BlocksFrame(p: Pool, p': Pool, blocks: B.Heap, gone: int)
    requires BlocksLinked(p, blocks) && KeepsBut(p, p', gone) && gone !in blocks.bases
    ensures BlocksLinked(p', blocks)
  {
    hide ObjectAt, B.Sound;
  }

  lemma HugeFrame(p: Pool, p': Pool, huge: map<int, nat>, gone: int)
    requires HugeLinked(p, huge) && KeepsBut(p, p', gone) && gone !in huge
    ensures HugeLinked(p', huge)
  {
    hide ObjectAt;
  }

  lemma ShelfReplaced(p: Pool, shelves: seq<Shelf>, c: nat, s: Shelf)
    requires ShelvesLinked(p, shelves) && c < CLASSES && ShelfLinked(p, s, c)
    requires forall a, d :: a in s.subs && InSubs(shelves, d, a) ==> d == c
    ensures ShelvesLinked(p, shelves[c := s])
  {
    hide ShelfLinked;
    var after := shelves[c := s];
    forall d: nat | d < CLASSES
      ensures ShelfLinked(p, after[d], d)
    {
      if d != c {
        assert after[d] == shelves[d];
        assert ShelfLinked(p, shelves[d], d);
      }
    }
    forall d, e, a | InSubs(after, d, a) && InSubs(after, e, a)
      ensures d == e
    {
      assert d != c ==> InSubs(shelves, d, a);
      assert e != c ==> InSubs(shelves, e, a);
    }
  }

  lemma ShelfAt(p: Pool, shelves: seq<Shelf>, c: nat)
    requires ShelvesLinked(p, shelves) && c < |shelves|
    ensures |shelves| == CLASSES && ShelfLinked(p, shelves[c], c)
  {
    hide ShelfLinked, InSubs;
    assert c < CLASSES;
  }

  lemma OneShelf(p: Pool, shelves: seq<Shelf>, c: nat, d: nat, a: int)
    requires ShelvesLinked(p, shelves) && InSubs(shelves, c, a) && InSubs(shelves, d, a)
    ensures c == d
  {
    hide ShelfLinked, InSubs;
  }

  // ---- the owners in the pool are distinct

  lemma SubOwns(v: Vam, c: nat, a: nat)
    requires Composed(v) && InSubs(v.shelves, c, a)
    ensures var t := v.shelves[c].subs[a].order;
      1 <= t <= MAX_PAGE_ORDER && PAGE_SIZE <= ClusterSize(t) <= PARTITION_SIZE && ObjectAt(v.pool, a, ClusterSize(t), t)
    ensures ShelfLinked(v.pool, v.shelves[c], c)
  {
    hide SoundPool, ObjectAt, BlocksLinked, HugeLinked, ClusterSize;
    assert ShelfLinked(v.pool, v.shelves[c], c);
    assert SubShape(a, v.shelves[c].subs[a], v.shelves[c].objectSize);
    OrderSize(v.shelves[c].subs[a].order);
  }

  lemma SubNotLow(v: Vam, c: nat, a: nat)
    requires Composed(v) && InSubs(v.shelves, c, a)
    ensures a !in v.blocks.bases && a !in v.huge && a in Live(v.pool)
  {
    SubOwns(v, c, a);
    var t := v.shelves[c].subs[a].order;
    hide ObjectAt, ShelvesLinked, Live;
    assert SoundPool(v.pool) && BlocksLinked(v.pool, v.blocks) && HugeLinked(v.pool, v.huge);
    hide SoundPool;
    OneObject(v.pool, a, ClusterSize(t), t, ClusterSize(t), t);
    if a in v.blocks.bases {
      OneObject(v.pool, a, ClusterSize(t), t, PARTITION_SIZE, LOW_FREQ_TYPE);
    }
    if a in v.huge {
      OneObject(v.pool, a, ClusterSize(t), t, HugeSize(v.huge[a]), LOW_FREQ_TYPE);
    }
  }

  lemma HugeNotOther(v: Vam, g: int)
    requires Composed(v) && g in v.huge
    ensures g !in v.blocks.bases && g in Live(v.pool) && OnNoShelf(v.shelves, g)
  {
    hide ObjectAt, Live, B.Sound;
    forall c | InSubs(v.shelves, c, g)
      ensures false
    {
      SubNotLow(v, c, g);
    }
    hide ShelvesLinked, SoundPool;
    var size := HugeSize(v.huge[g]);
    OneObject(v.pool, g, size, LOW_FREQ_TYPE, size, LOW_FREQ_TYPE);
    if g in v.blocks.bases {
      OneObject(v.pool, g, size, LOW_FREQ_TYPE, PARTITION_SIZE, LOW_FREQ_TYPE);
    }
  }

  // ---- steps: what one call of malloc or free does

  /** A cluster from the partition heap, NULL if it has none. */
  ghost function Cluster(p: Pool, size: nat, t: nat, space: int, aggressive: bool): (Pool, nat)
    requires SoundPool(p) && CanAllocate(p, size, t, space)
  {
    AllocatedSound(p, size, t, space, aggressive);
    Allocated(p, size, t, space, aggressive)
  }

  /** At most the cluster at `a` is new. */
  ghost predicate Adds(p: Pool, p': Pool, a: int) {
    forall x :: x in Live(p') ==> x in Live(p) || (x == a && a != NULL)
  }

  lemma AccountedMore(v: Vam, p': Pool, a: int, shelves: seq<Shelf>, blocks: B.Heap, huge: map<int, nat>)
    requires Accounted(v.pool, v.shelves, v.blocks, v.huge) && Adds(v.pool, p', a)
    requires forall x :: Used(v.shelves, v.blocks, v.huge, x) || (x == a && a != NULL) ==> Used(shelves, blocks, huge, x)
    ensures Accounted(p', shelves, blocks, huge)
  {
    hide Live, Used;
  }

  lemma ClusterKeeps(p: Pool, size: nat, t: nat, space: int, aggressive: bool)
    requires SoundPool(p) && CanAllocate(p, size, t, space)
    ensures var (p', a) := Cluster(p, size, t, space, aggressive);
      && SoundPool(p') && KeepsBut(p, p', NULL) && Adds(p, p', a)
      && (a != NULL ==> a !in Live(p) && ObjectAt(p', a, size, t))
  {
    hide SoundPool, CanAllocate, ObjectAt, Live;
    AllocatedSound(p, size, t, space, aggressive);
    var p' := Allocated(p, size, t, space, aggressive).0;
    forall x, size', t' | ObjectAt(p, x, size', t')
      ensures ObjectAt(p', x, size', t')
    {
      AllocatedKeeps(p, size, t, space, aggressive, x, size', t');
    }
  }

  datatype Step =
    | ReapMalloc(c: nat, size: nat, recycled: nat -> nat, space: int)
    | ReapFree(c: nat, a: nat, i: nat)
    | BlockMalloc(size: nat, h: int, space: int)
    | BlockFree(h: int)
    | HugeMalloc(size: nat, space: int)
    | HugeFree(g: int)

  ghost predicate CanServe(v: Vam, c: nat, size: nat, recycled: nat -> nat, space: int)
    requires c < |v.shelves|
  {
    var s := v.shelves[c];
    && size % 8 == 0 && InClass(size, c) && (s.objectSize == 0 || s.objectSize == size) && Recycles(s, recycled)
    && (NoneLeft(s) ==> CanAllocate(v.pool, ClusterSize(s.nextOrder), s.nextOrder, space))
  }

  ghost predicate CanPlace(v: Vam, size: nat, h: int, space: int) {
    && 8 <= size <= B.MAX_OBJECT_SIZE && size % 8 == 0
    && if SplitCoalesce.Fits(v.blocks.view, size) then SplitCoalesce.BestFit(v.blocks.view, h, size)
       else CanAllocate(v.pool, PARTITION_SIZE, LOW_FREQ_TYPE, space)
  }

  /** `recycled`, `space` and `h` are what the layers below answer; the callers only choose the size or the object. */
  ghost predicate Enabled(v: Vam, step: Step) {
    match step
    case ReapMalloc(c, size, recycled, space) => c < |v.shelves| && CanServe(v, c, size, recycled, space)
    case ReapFree(c, a, i) => InSubs(v.shelves, c, a) && i in ReapSlots.Live(v.shelves[c].subs[a].slots)
    case BlockMalloc(size, h, space) => CanPlace(v, size, h, space)
    case BlockFree(h) => h in v.blocks.view && !v.blocks.view[h].free
    case HugeMalloc(size, space) =>
      && B.MAX_OBJECT_SIZE < size < ADDRESS_SPACE && PARTITION_SIZE < HugeSize(size)
      && CanAllocate(v.pool, HugeSize(size), LOW_FREQ_TYPE, space)
    case HugeFree(g) => g in v.huge
  }

  /** The cluster for a new subheap suits it. */
  lemma SubheapSpace(v: Vam, c: nat, size: nat, recycled: nat -> nat, space: int)
    requires Composed(v) && c < CLASSES && CanServe(v, c, size, recycled, space)
    ensures SoundShelf(v.shelves[c]) && CanMalloc(v.shelves[c], size, recycled, NULL)
    ensures NoneLeft(v.shelves[c]) ==>
      var o := v.shelves[c].nextOrder;
      CanMalloc(v.shelves[c], size, recycled, Cluster(v.pool, ClusterSize(o), o, space, v.aggressive).1)
  {
    var s := v.shelves[c];
    assert ShelfLinked(v.pool, s, c);
    assert 1 <= s.nextOrder;
    if NoneLeft(s) {
      ClusterKeeps(v.pool, ClusterSize(s.nextOrder), s.nextOrder, space, v.aggressive);
      var (p', a) := Cluster(v.pool, ClusterSize(s.nextOrder), s.nextOrder, space, v.aggressive);
      if a != NULL {
        forall b | b in s.subs
          ensures b != a && ObjectAt(p', b, ClusterSize(s.subs[b].order), s.subs[b].order)
        {
          assert InSubs(v.shelves, c, b);
          SubNotLow(v, c, b);
        }
        hide SoundShelf, ObjectAt, SoundPool, ShelvesLinked, ClusterSize, CanAllocate;
        NewClusterIsFresh(p', s, a);
      }
    }
  }

  ghost function AfterReapMalloc(v: Vam, c: nat, size: nat, recycled: nat -> nat, space: int): (Vam, int)
    requires Composed(v) && c < CLASSES && CanServe(v, c, size, recycled, space)
  {
    SubheapSpace(v, c, size, recycled, space);
    var s := v.shelves[c];
    var (p', a) := if NoneLeft(s) then Cluster(v.pool, ClusterSize(s.nextOrder), s.nextOrder, space, v.aggressive) else (v.pool, NULL);
    var (s', ptr) := Served(s, size, recycled, a);
    (v.(pool := p', shelves := v.shelves[c := s']), ptr)
  }

  ghost function AfterReapFree(v: Vam, c: nat, a: nat, i: nat): Vam
    requires Composed(v) && InSubs(v.shelves, c, a)
  {
    SubNotLow(v, c, a);
    var s' := Returned(v.shelves[c], a, i);
    v.(shelves := v.shelves[c := s'], pool := if a in s'.subs then v.pool else Released(v.pool, a))
  }

  ghost function AfterBlockMalloc(v: Vam, size: nat, h: int, space: int): (Vam, int)
    requires Composed(v) && CanPlace(v, size, h, space)
  {
    var view := v.blocks.view;
    if SplitCoalesce.Fits(view, size) then
      (v.(blocks := B.Heap(B.Allocate(view, h, size), v.blocks.bases)), h + HEADER)
    else
      var (p', b) := Cluster(v.pool, PARTITION_SIZE, LOW_FREQ_TYPE, space, v.aggressive);
      if b == NULL then (v.(pool := p'), NULL)
      else
        (v.(pool := p', blocks := B.Heap(B.Allocate(B.NewChunk(view, b), b + HEADER, size), v.blocks.bases + {b})), b + 2 * HEADER)
  }

  ghost function AfterHugeMalloc(v: Vam, size: nat, space: int): (Vam, int)
    requires Composed(v) && Enabled(v, HugeMalloc(size, space))
  {
    var (p', g) := Cluster(v.pool, HugeSize(size), LOW_FREQ_TYPE, space, v.aggressive);
    if g == NULL then (v.(pool := p'), NULL) else (v.(pool := p', huge := v.huge[g := size]), g + HEADER)
  }

  ghost function AfterHugeFree(v: Vam, g: int): Vam
    requires Composed(v) && g in v.huge
  {
    HugeNotOther(v, g);
    v.(pool := Released(v.pool, g), huge := v.huge - {g})
  }

  /** The state after a step, and the pointer a malloc returns. */
  ghost function After(v: Vam, step: Step): (Vam, int)
    requires Composed(v) && Enabled(v, step)
  {
    match step
    case ReapMalloc(c, size, recycled, space) => AfterReapMalloc(v, c, size, recycled, space)
    case ReapFree(c, a, i) => (AfterReapFree(v, c, a, i), NULL)
    case BlockMalloc(size, h, space) => AfterBlockMalloc(v, size, h, space)
    case BlockFree(h) => (v.(blocks := B.Heap(B.Release(v.blocks.view, h), v.blocks.bases)), NULL)
    case HugeMalloc(size, space) => AfterHugeMalloc(v, size, space)
    case HugeFree(g) => (AfterHugeFree(v, g), NULL)
  }

  // ---- every step keeps the layers linked

  lemma ReapMallocLinked(v: Vam, c: nat, size: nat, recycled: nat -> nat, space: int)
    requires Composed(v) && c < CLASSES && CanServe(v, c, size, recycled, space)
    ensures Composed(AfterReapMalloc(v, c, size, recycled, space).0)
  {
    var s := v.shelves[c];
    var (v', ptr) := AfterReapMalloc(v, c, size, recycled, space);
    SubheapSpace(v, c, size, recycled, space);
    hide SoundPool, ObjectAt, SoundShelf, CanMalloc, Served, BlocksLinked, HugeLinked, Live, CanAllocate, ClusterSize;
    var o := s.nextOrder;
    var (p', a) := if NoneLeft(s) then Cluster(v.pool, ClusterSize(o), o, space, v.aggressive) else (v.pool, NULL);
    if NoneLeft(s) {
      ClusterKeeps(v.pool, ClusterSize(o), o, space, v.aggressive);
    }
    hide Cluster;
    NullOwnsNothing(v);
    ShelvesFrame(v.pool, p', v.shelves, NULL);
    BlocksFrame(v.pool, p', v.blocks, NULL);
    HugeFrame(v.pool, p', v.huge, NULL);
    ServedLinked(v, p', c, size, recycled, a);
    ServedAccounted(v, p', c, size, recycled, a);
  }

  lemma ServedAccounted(v: Vam, p': Pool, c: nat, size: nat, recycled: nat -> nat, a: nat)
    requires Composed(v) && c < CLASSES && |v.shelves| == CLASSES
    requires SoundShelf(v.shelves[c]) && CanMalloc(v.shelves[c], size, recycled, a) && (a != NULL ==> NoneLeft(v.shelves[c]))
    requires Adds(v.pool, p', a)
    ensures Accounted(p', v.shelves[c := Served(v.shelves[c], size, recycled, a).0], v.blocks, v.huge)
  {
    hide SoundShelf, CanMalloc, Served, NoneLeft, Live, SoundPool, ShelvesLinked, BlocksLinked, HugeLinked, Adds, Accounted;
    var after := v.shelves[c := Served(v.shelves[c], size, recycled, a).0];
    ServedKeys(v.shelves[c], size, recycled, a);
    forall x | Used(v.shelves, v.blocks, v.huge, x) || (x == a && a != NULL)
      ensures Used(after, v.blocks, v.huge, x)
    {
      if !OnNoShelf(v.shelves, x) {
        var d :| InSubs(v.shelves, d, x);
        assert InSubs(after, d, x);
      } else if x == a && a != NULL {
        assert InSubs(after, c, x);
      }
    }
    AccountedMore(v, p', a, after, v.blocks, v.huge);
  }

  lemma NullOwnsNothing(v: Vam)
    requires Composed(v)
    ensures NULL !in v.blocks.bases && NULL !in v.huge && OnNoShelf(v.shelves, NULL)
  {
    hide SoundPool, ObjectAt, B.Sound, HugeSize;
    forall size, t
      ensures !ObjectAt(v.pool, NULL, size, t)
    {
      NothingAtNull(v.pool, size, t);
    }
    forall c | InSubs(v.shelves, c, NULL)
      ensures false
    {
      SubOwns(v, c, NULL);
    }
  }

  lemma NothingAtNull(p: Pool, size: nat, t: nat)
    requires SoundPool(p)
    ensures !ObjectAt(p, NULL, size, t)
  {
    hide SoundPool, Shape;
    if ObjectAt(p, NULL, size, t) {
      var q, i :| Held(p, NULL, q, i) && IsOf(p, q, t) && p.subheaps[q].clusterSize == size;
      ShapeOf(p, q);
      RegionPositive(p.subheaps[q], t, q);
      ClusterInside(p.subheaps[q], t, q, i);
    }
  }

  lemma RegionPositive(h: Subheap, t: nat, q: nat)
    requires Shape(h, t, q)
    ensures 0 < h.address
  {}

  lemma ServedShelf(p: Pool, s: Shelf, c: nat, size: nat, recycled: nat -> nat, a: nat)
    requires ShelfLinked(p, s, c) && InClass(size, c) && size % 8 == 0 && CanMalloc(s, size, recycled, a)
    requires a != NULL ==> NoneLeft(s) && ObjectAt(p, a, ClusterSize(s.nextOrder), s.nextOrder)
    ensures ShelfLinked(p, Served(s, size, recycled, a).0, c)
  {
    ServedSound(s, size, recycled, a);
    ServedSubs(s, size, recycled, a);
    hide SoundShelf, CanMalloc, Served, ObjectAt, ClusterSize, NoneLeft;
  }

  lemma ServedKeys(s: Shelf, size: nat, recycled: nat -> nat, a: nat)
    requires SoundShelf(s) && CanMalloc(s, size, recycled, a) && (a != NULL ==> NoneLeft(s))
    ensures var s' := Served(s, size, recycled, a).0;
      forall b :: b in s'.subs <==> b in s.subs || (b == a && a != NULL)
  {
    ServedSound(s, size, recycled, a);
    hide SoundShelf, CanMalloc, Served, NoneLeft, LiveObjects;
  }

  lemma ServedLinked(v: Vam, p': Pool, c: nat, size: nat, recycled: nat -> nat, a: nat)
    requires Composed(v) && c < CLASSES && InClass(size, c) && size % 8 == 0 && SoundShelf(v.shelves[c]) && CanMalloc(v.shelves[c], size, recycled, a)
    requires ShelvesLinked(p', v.shelves) && (a != NULL ==> a !in Live(v.pool))
    requires var o := v.shelves[c].nextOrder; a != NULL ==> NoneLeft(v.shelves[c]) && ObjectAt(p', a, ClusterSize(o), o)
    ensures ShelvesLinked(p', v.shelves[c := Served(v.shelves[c], size, recycled, a).0])
  {
    hide SoundShelf, CanMalloc, Served, ObjectAt, SoundPool, Live, BlocksLinked, HugeLinked, ClusterSize, ShelvesLinked, NoneLeft;
    hide ShelfLinked;
    ClassesOf(v);
    var s := v.shelves[c];
    var s' := Served(s, size, recycled, a).0;
    ShelfAt(p', v.shelves, c);
    ServedShelf(p', s, c, size, recycled, a);
    ServedKeys(s, size, recycled, a);
    forall b, d | b in s'.subs && InSubs(v.shelves, d, b)
      ensures d == c
    {
      if b in s.subs {
        OneShelf(p', v.shelves, c, d, b);
      } else {
        SubNotLow(v, d, b);
      }
    }
    ShelfReplaced(p', v.shelves, c, s');
  }

  lemma ReturnedShelf(p: Pool, s: Shelf, c: nat, a: nat, i: nat)
    requires ShelfLinked(p, s, c) && a in s.subs && i in ReapSlots.Live(s.subs[a].slots)
    ensures var s' := Returned(s, a, i); ShelfLinked(p, s', c) && forall b :: b in s'.subs ==> b in s.subs
  {
    ReturnedKeeps(s, a, i);
    ReturnedSubs(s, a, i);
    hide SoundShelf, Returned, ObjectAt, ClusterSize, ReapSlots.Live;
  }

  lemma ReturnedLinked(v: Vam, c: nat, a: nat, i: nat)
    requires Composed(v) && InSubs(v.shelves, c, a) && i in ReapSlots.Live(v.shelves[c].subs[a].slots)
    ensures var s' := Returned(v.shelves[c], a, i);
      && ShelvesLinked(v.pool, v.shelves[c := s'])
      && (a !in s'.subs ==> OnNoShelf(v.shelves[c := s'], a))
  {
    hide SoundPool, ObjectAt, SoundShelf, Returned, BlocksLinked, HugeLinked, ClusterSize, ReapSlots.Live, ShelvesLinked;
    hide ShelfLinked;
    ClassesOf(v);
    var s, s' := v.shelves[c], Returned(v.shelves[c], a, i);
    ShelfAt(v.pool, v.shelves, c);
    ReturnedShelf(v.pool, s, c, a, i);
    forall b, d | b in s'.subs && InSubs(v.shelves, d, b)
      ensures d == c
    {
      OneShelf(v.pool, v.shelves, c, d, b);
    }
    ShelfReplaced(v.pool, v.shelves, c, s');
    var after := v.shelves[c := s'];
    forall d | InSubs(after, d, a)
      ensures a in s'.subs
    {
      if d != c {
        OneShelf(v.pool, v.shelves, c, d, a);
      }
    }
  }

  lemma ReapFreeLinked(v: Vam, c: nat, a: nat, i: nat)
    requires Composed(v) && InSubs(v.shelves, c, a) && i in ReapSlots.Live(v.shelves[c].subs[a].slots)
    ensures Composed(AfterReapFree(v, c, a, i))
  {
    SubNotLow(v, c, a);
    ReturnedLinked(v, c, a, i);
    hide SoundPool, Returned, Live, ShelvesLinked, BlocksLinked, HugeLinked, KeepsBut, ReapSlots.Live;
    var s' := Returned(v.shelves[c], a, i);
    if a !in s'.subs {
      ReleasedKeepsBut(v.pool, a);
      ShelvesFrame(v.pool, Released(v.pool, a), v.shelves[c := s'], a);
      BlocksFrame(v.pool, Released(v.pool, a), v.blocks, a);
      HugeFrame(v.pool, Released(v.pool, a), v.huge, a);
    }
    ReturnedAccounted(v, c, a, i);
  }

  /** A cluster leaves the pool with the subheap in it. */
  lemma ReturnedAccounted(v: Vam, c: nat, a: nat, i: nat)
    requires Composed(v) && InSubs(v.shelves, c, a) && a in Live(v.pool)
    ensures var s' := Returned(v.shelves[c], a, i);
      Accounted(if a in s'.subs then v.pool else Released(v.pool, a), v.shelves[c := s'], v.blocks, v.huge)
  {
    hide SoundPool, Returned, Live, ShelvesLinked, BlocksLinked, HugeLinked, KeepsBut, Released;
    ReturnedSubs(v.shelves[c], a, i);
    var s' := Returned(v.shelves[c], a, i);
    var after := v.shelves[c := s'];
    if a !in s'.subs {
      ReleasedKeepsBut(v.pool, a);
    }
    forall x | Used(v.shelves, v.blocks, v.huge, x) && (x != a || a in s'.subs)
      ensures Used(after, v.blocks, v.huge, x)
    {
      if !OnNoShelf(v.shelves, x) {
        var d :| InSubs(v.shelves, d, x);
        assert InSubs(after, d, x);
      }
    }
    hide Used;
  }

  lemma ReleasedKeepsBut(p: Pool, ptr: int)
    requires SoundPool(p) && ptr in Live(p)
    ensures SoundPool(Released(p, ptr)) && KeepsBut(p, Released(p, ptr), ptr)
    ensures forall x :: x in Live(Released(p, ptr)) <==> x in Live(p) && x != ptr
  {
    hide SoundPool, Live, ObjectAt, Released;
    ReleasedKeeps(p, ptr);
  }

  /** A new chunk is apart from the others. */
  lemma ChunkSpace(v: Vam, p': Pool, b: int)
    requires Composed(v) && SoundPool(p') && KeepsBut(v.pool, p', NULL) && 0 < b
    requires b !in Live(v.pool) && ObjectAt(p', b, PARTITION_SIZE, LOW_FREQ_TYPE)
    ensures b % 8 == 0 && B.Apart(v.blocks.bases, b)
  {
    hide SoundPool, ObjectAt, ShelvesLinked, HugeLinked, B.Sound, Live;
    NullOwnsNothing(v);
    ChunkAligned(p', b);
    forall d | d in v.blocks.bases
      ensures d + B.CHUNK <= b || b + B.CHUNK <= d
    {
      OneObject(v.pool, d, PARTITION_SIZE, LOW_FREQ_TYPE, PARTITION_SIZE, LOW_FREQ_TYPE);
      assert ObjectAt(p', d, PARTITION_SIZE, LOW_FREQ_TYPE);
      ObjectsDisjoint(p', d, PARTITION_SIZE, LOW_FREQ_TYPE, b, PARTITION_SIZE, LOW_FREQ_TYPE);
    }
  }

  lemma ChunkAligned(p: Pool, b: int)
    requires SoundPool(p) && ObjectAt(p, b, PARTITION_SIZE, LOW_FREQ_TYPE)
    ensures b % 8 == 0
  {
    var q, i :| Held(p, b, q, i) && IsOf(p, q, LOW_FREQ_TYPE) && p.subheaps[q].clusterSize == PARTITION_SIZE;
    hide SoundPool, Shape;
    ShapeOf(p, q);
    RegularSubheap(p.subheaps[q], LOW_FREQ_TYPE, q);
    AlignedInside(p.subheaps[q], LOW_FREQ_TYPE, q, i);
    hide Held;
    EighthAligned(b);
  }

  lemma EighthAligned(b: int)
    ensures b % PARTITION_SIZE == 0 ==> b % 8 == 0
  {}

  lemma BlockMallocLinked(v: Vam, size: nat, h: int, space: int)
    requires Composed(v) && CanPlace(v, size, h, space)
    ensures Composed(AfterBlockMalloc(v, size, h, space).0)
  {
    var view, bases := v.blocks.view, v.blocks.bases;
    hide SoundPool, ObjectAt, ShelvesLinked, HugeLinked, Live, CanAllocate;
    if SplitCoalesce.Fits(view, size) {
      B.AllocateSound(view, bases, h, size);
    } else {
      ClusterKeeps(v.pool, PARTITION_SIZE, LOW_FREQ_TYPE, space, v.aggressive);
      var (p', b) := Cluster(v.pool, PARTITION_SIZE, LOW_FREQ_TYPE, space, v.aggressive);
      hide Cluster;
      NullOwnsNothing(v);
      ShelvesFrame(v.pool, p', v.shelves, NULL);
      BlocksFrame(v.pool, p', v.blocks, NULL);
      HugeFrame(v.pool, p', v.huge, NULL);
      if b != NULL {
        ChunkSpace(v, p', b);
        B.NewChunkSound(view, bases, b);
        B.AllocateSound(B.NewChunk(view, b), bases + {b}, b + HEADER, size);
      }
      AccountedAlso(v, p', b, if b == NULL then v.blocks else AfterBlockMalloc(v, size, h, space).0.blocks, v.huge);
    }
  }

  lemma AccountedAlso(v: Vam, p': Pool, a: int, blocks: B.Heap, huge: map<int, nat>)
    requires Accounted(v.pool, v.shelves, v.blocks, v.huge) && Adds(v.pool, p', a)
    requires v.blocks.bases <= blocks.bases && v.huge.Keys <= huge.Keys && (a != NULL ==> a in blocks.bases || a in huge)
    ensures Accounted(p', v.shelves, blocks, huge)
  {
    hide Live, Adds, Accounted;
    AccountedMore(v, p', a, v.shelves, blocks, huge);
  }

  lemma BlockFreeLinked(v: Vam, h: int)
    requires Composed(v) && h in v.blocks.view && !v.blocks.view[h].free
    ensures Composed(After(v, BlockFree(h)).0)
  {
    hide SoundPool, ObjectAt, ShelvesLinked, HugeLinked;
    B.ReleaseSound(v.blocks.view, v.blocks.bases, h);
  }

  lemma HugeMallocLinked(v: Vam, size: nat, space: int)
    requires Composed(v) && Enabled(v, HugeMalloc(size, space))
    ensures Composed(AfterHugeMalloc(v, size, space).0)
  {
    hide SoundPool, ObjectAt, ShelvesLinked, BlocksLinked, Live, CanAllocate, HugeSize;
    ClusterKeeps(v.pool, HugeSize(size), LOW_FREQ_TYPE, space, v.aggressive);
    var (p', g) := Cluster(v.pool, HugeSize(size), LOW_FREQ_TYPE, space, v.aggressive);
    hide Cluster;
    NullOwnsNothing(v);
    ShelvesFrame(v.pool, p', v.shelves, NULL);
    BlocksFrame(v.pool, p', v.blocks, NULL);
    HugeFrame(v.pool, p', v.huge, NULL);
    AccountedAlso(v, p', g, v.blocks, if g == NULL then v.huge else v.huge[g := size]);
  }

  lemma HugeFreeLinked(v: Vam, g: int)
    requires Composed(v) && g in v.huge
    ensures Composed(AfterHugeFree(v, g))
  {
    HugeNotOther(v, g);
    hide SoundPool, ObjectAt, ShelvesLinked, InSubs, BlocksLinked, Live, HugeSize, KeepsBut, Released;
    ReleasedKeepsBut(v.pool, g);
    ShelvesFrame(v.pool, Released(v.pool, g), v.shelves, g);
    BlocksFrame(v.pool, Released(v.pool, g), v.blocks, g);
    var rest := v.huge - {g};
    assert HugeLinked(v.pool, rest);
    HugeFrame(v.pool, Released(v.pool, g), rest, g);
  }

  /** Every step keeps everything above the partition heap in live clusters of its own. */
  lemma StepLinked(v: Vam, step: Step)
    requires Composed(v) && Enabled(v, step)
    ensures Composed(After(v, step).0)
  {
    hide Composed, AfterReapMalloc, AfterReapFree, AfterBlockMalloc, AfterHugeMalloc, AfterHugeFree;
    match step
    case ReapMalloc(c, size, recycled, space) =>
      ClassesOf(v);
      ReapMallocLinked(v, c, size, recycled, space);
    case ReapFree(c, a, i) => ReapFreeLinked(v, c, a, i);
    case BlockMalloc(size, h, space) => BlockMallocLinked(v, size, h, space);
    case BlockFree(h) => BlockFreeLinked(v, h);
    case HugeMalloc(size, space) => HugeMallocLinked(v, size, space);
    case HugeFree(g) => HugeFreeLinked(v, g);
  }

  lemma ClassesOf(v: Vam)
    requires Composed(v)
    ensures |v.shelves| == CLASSES
  {}
}
