/** Where a reap puts its map and its objects inside its region (the constructors), with 32-bit sizes of the reap itself. */
module ReapLayouts {
  import opened ReapBases

  const PAGE_SIZE := 4096
  const MAX_PAGE_ORDER := 5
  const MAX_DEDICATED_SIZE := 1024

  const BITMAP_REAP := 40
  const BYTEMAP_REAP := 40
  const FREELIST_REAP := 36
  const BITMAP_CACHING_REAP := 108

  /** The next multiple of sizeof(double). */
  function AlignUp(x: int): int {
    (x + 7) / 8 * 8
  }

  /** How many objects fit in `space` bytes. */
  function Objects(space: int, objectSize: nat): (n: int)
    requires 0 < objectSize
    ensures 0 <= space ==> 0 <= n
  {
    space / objectSize
  }

  datatype Layout = Layout(mapEnd: int, base: int, total: int)

  function Words(size: nat, header: nat, objectSize: nat): int
    requires 0 < objectSize
  {
    (Objects(size - header, objectSize) + 31) / 32
  }

  /** A bitmap for as many objects as the region could hold without one, then the objects. */
  function BitmapLayout(at: nat, size: nat, header: nat, objectSize: nat): Layout
    requires 0 < objectSize
  {
    var mapEnd := at + header + Words(size, header, objectSize) * 4;
    Layout(mapEnd, AlignUp(mapEnd), Objects(at + size - AlignUp(mapEnd), objectSize))
  }

  function BytemapLayout(at: nat, size: nat, objectSize: nat): Layout
    requires 0 < objectSize
  {
    var mapEnd := at + BYTEMAP_REAP + Objects(size - BYTEMAP_REAP, objectSize);
    Layout(mapEnd, AlignUp(mapEnd), Objects(at + size - AlignUp(mapEnd), objectSize))
  }

  /** No map; the number of objects is computed before the base is aligned. */
  function FreelistLayout(at: nat, size: nat, objectSize: nat): Layout
    requires 0 < objectSize
  {
    Layout(at + FREELIST_REAP, AlignUp(at + FREELIST_REAP), Objects(size - FREELIST_REAP, objectSize))
  }

  /** The objects lie behind the map, 8-aligned, and end inside the region. */
  ghost predicate LaidOut(l: Layout, at: nat, size: nat, objectSize: nat) {
    && 0 <= l.total && l.mapEnd <= l.base && l.base % 8 == 0
    && l.base + objectSize * l.total <= at + size
  }

  lemma Quotient(x: int, d: int)
    requires 0 < d
    ensures x == d * (x / d) + x % d && 0 <= x % d < d
    ensures 0 <= x ==> 0 <= x / d <= x
  {
    if 0 <= x && 0 <= x / d {
      MulAtLeast(d, x / d);
    }
  }

  lemma QuotientAtLeast(x: int, d: int, n: nat)
    requires 0 < d && d * n <= x
    ensures n <= x / d
  {
    Quotient(x, d);
    if x / d < n {
      MulDistributes(d, x / d + 1, n - x / d - 1);
      MulDistributes(d, x / d, 1);
    }
  }

  /** Dividing a part of the space gives no more objects than dividing all of it. */
  lemma Share(part: nat, whole: nat, d: nat)
    requires 0 < d && part <= whole
    ensures 0 <= Objects(part, d) <= Objects(whole, d) <= whole && d * Objects(part, d) <= part
  {
    Quotient(part, d);
    Quotient(whole, d);
    QuotientAtLeast(whole, d, part / d);
  }

  lemma Aligned(x: int)
    ensures x <= AlignUp(x) < x + 8 && AlignUp(x) % 8 == 0
  {}

  /** An aligned bound on `x` also bounds the next multiple of 8. */
  lemma AlignedBelow(x: int, bound: int)
    requires x <= bound && bound % 8 == 0
    ensures AlignUp(x) <= bound
  {}

  /** Behind an aligned base the objects that the remaining room holds do fit. */
  lemma RoomFits(l: Layout, at: nat, size: nat, header: nat, objectSize: nat)
    requires 0 < objectSize && at + header <= l.mapEnd <= l.base <= at + size && l.base % 8 == 0
    requires l.total == Objects(at + size - l.base, objectSize)
    ensures LaidOut(l, at, size, objectSize)
    ensures l.total <= Objects(size - header, objectSize) && objectSize * l.total <= size - header
  {
    hide Objects;
    Share(at + size - l.base, size - header, objectSize);
  }

  /** `n` objects are as many as `space` bytes hold: they fit, and one more does not. */
  ghost predicate Most(n: int, space: int, objectSize: nat) {
    objectSize * n <= space < objectSize * (n + 1)
  }

  lemma MostObjects(space: int, d: nat)
    requires 0 < d
    ensures Most(Objects(space, d), space, d)
  {
    Quotient(space, d);
    MulDistributes(d, space / d, 1);
  }

  /** `words` words are the least number with a bit for each object that `space` bytes hold. */
  ghost predicate LeastWords(words: int, space: int, objectSize: nat) {
    && space < objectSize * (32 * words + 1)
    && (words != 0 ==> objectSize * (32 * (words - 1) + 1) <= space)
  }

  lemma LeastWordsOf(space: nat, d: nat, n: nat)
    requires 0 < d && Most(n, space, d)
    ensures LeastWords((n + 31) / 32, space, d)
  {
    var w := (n + 31) / 32;
    MulGrows(d, n + 1, 32 * w + 1);
    if w != 0 {
      MulGrows(d, 32 * (w - 1) + 1, n);
    }
  }

  lemma MulGrows(d: nat, a: int, b: int)
    requires a <= b
    ensures d * a <= d * b
  {
    MulDistributes(d, a, b - a);
    assert 0 <= d * (b - a);
  }

  /**
   * A bitmap layout is as tight as can be: no more words than the objects need that would fit without a bitmap, the
   * base at the next multiple of 8, and no room for another object.
   */
  lemma BitmapLayoutTight(at: nat, size: nat, header: nat, objectSize: nat)
    requires 0 < objectSize && header <= size
    ensures var l, words := BitmapLayout(at, size, header, objectSize), Words(size, header, objectSize);
      && LeastWords(words, size - header, objectSize)
      && l.mapEnd == at + header + 4 * words && l.mapEnd <= l.base < l.mapEnd + 8 && l.base % 8 == 0
      && Most(l.total, at + size - l.base, objectSize)
  {
    hide Objects, AlignUp, Most, LeastWords;
    var l := BitmapLayout(at, size, header, objectSize);
    Share(size - header, size - header, objectSize);
    MostObjects(size - header, objectSize);
    LeastWordsOf(size - header, objectSize, Objects(size - header, objectSize));
    Aligned(l.mapEnd);
    MostObjects(at + size - l.base, objectSize);
  }

  /** So is a bytemap layout, with a byte for each object that would fit without a bytemap. */
  lemma BytemapLayoutTight(at: nat, size: nat, objectSize: nat)
    requires 0 < objectSize && BYTEMAP_REAP <= size
    ensures var l := BytemapLayout(at, size, objectSize);
      && Most(l.mapEnd - at - BYTEMAP_REAP, size - BYTEMAP_REAP, objectSize)
      && l.mapEnd <= l.base < l.mapEnd + 8 && l.base % 8 == 0
      && Most(l.total, at + size - l.base, objectSize)
  {
    hide Objects, AlignUp, Most;
    var l := BytemapLayout(at, size, objectSize);
    MostObjects(size - BYTEMAP_REAP, objectSize);
    Aligned(l.mapEnd);
    MostObjects(at + size - l.base, objectSize);
  }

  /** A freelist reap counts the objects that would fit right behind it. */
  lemma FreelistLayoutTight(at: nat, size: nat, objectSize: nat)
    requires 0 < objectSize
    ensures var l := FreelistLayout(at, size, objectSize);
      && at + FREELIST_REAP <= l.base < at + FREELIST_REAP + 8 && l.base % 8 == 0
      && Most(l.total, size - FREELIST_REAP, objectSize)
  {
    hide Objects, AlignUp, Most;
    Aligned(at + FREELIST_REAP);
    MostObjects(size - FREELIST_REAP, objectSize);
  }

  /** In a bitmap layout everything fits, every object has a bit, and every byte offset stays below the region's size. */
  lemma BitmapLayoutFits(at: nat, size: nat, header: nat, objectSize: nat)
    requires 0 < objectSize && at % 8 == 0 && header + 64 <= size
    ensures var l := BitmapLayout(at, size, header, objectSize);
      && LaidOut(l, at, size, objectSize)
      && at + header <= l.mapEnd && l.total <= 32 * Words(size, header, objectSize)
      && objectSize * l.total <= size - header
  {
    hide Objects, AlignUp, LaidOut;
    var l := BitmapLayout(at, size, header, objectSize);
    Share(size - header, size - header, objectSize);
    Aligned(l.mapEnd);
    RoomFits(l, at, size, header, objectSize);
  }

  lemma BytemapLayoutFits(at: nat, size: nat, objectSize: nat)
    requires 0 < objectSize && at % 8 == 0 && size % 8 == 0 && BYTEMAP_REAP <= size
    ensures var l := BytemapLayout(at, size, objectSize);
      && LaidOut(l, at, size, objectSize)
      && at + BYTEMAP_REAP <= l.mapEnd && l.total <= l.mapEnd - at - BYTEMAP_REAP
  {
    hide Objects, AlignUp, LaidOut;
    Share(size - BYTEMAP_REAP, size - BYTEMAP_REAP, objectSize);
    BytemapRoom(at, size, Objects(size - BYTEMAP_REAP, objectSize));
    RoomFits(BytemapLayout(at, size, objectSize), at, size, BYTEMAP_REAP, objectSize);
  }

  lemma BytemapRoom(at: nat, size: nat, objects: nat)
    requires at % 8 == 0 && size % 8 == 0 && BYTEMAP_REAP + objects <= size
    ensures var mapEnd := at + BYTEMAP_REAP + objects;
      mapEnd <= AlignUp(mapEnd) <= at + size && AlignUp(mapEnd) % 8 == 0
  {
    var mapEnd := at + BYTEMAP_REAP + objects;
    Aligned(mapEnd);
    AlignedBelow(mapEnd, at + size);
  }

  /** A freelist reap overruns its region exactly when less than the four bytes of alignment are left over. */
  lemma FreelistLayoutFits(at: nat, size: nat, objectSize: nat)
    requires 0 < objectSize && at % 8 == 0 && FREELIST_REAP <= size
    ensures LaidOut(FreelistLayout(at, size, objectSize), at, size, objectSize)
        <==> 4 <= (size - FREELIST_REAP) % objectSize
  {
    Quotient(size - FREELIST_REAP, objectSize);
    assert AlignUp(at + FREELIST_REAP) == at + FREELIST_REAP + 4;
  }

  /** Object sizes that are multiples of 8 leave at least those four bytes. */
  lemma EvenSizesFit(at: nat, size: nat, k: nat)
    requires 0 < k && at % 8 == 0 && size % 8 == 0 && FREELIST_REAP <= size
    ensures LaidOut(FreelistLayout(at, size, 8 * k), at, size, 8 * k)
  {
    var d := 8 * k;
    var q := (size - FREELIST_REAP) / d;
    Quotient(size - FREELIST_REAP, d);
    assert d * q == 8 * (k * q);
    EvenRest(size - FREELIST_REAP, k * q, (size - FREELIST_REAP) % d);
    FreelistLayoutFits(at, size, d);
  }

  lemma EvenRest(x: int, n: int, rest: nat)
    requires x == 8 * n + rest && x % 8 == 4
    ensures 4 <= rest
  {}

  /** Objects of four bytes in a page do not fit. */
  lemma FreelistOverruns()
    ensures !LaidOut(FreelistLayout(8 * PAGE_SIZE, PAGE_SIZE, 4), 8 * PAGE_SIZE, PAGE_SIZE, 4)
  {
    FreelistLayoutFits(8 * PAGE_SIZE, PAGE_SIZE, 4);
  }

  /** Objects of different slots do not overlap each other, the map or the end of the region. */
  lemma SlotsDisjoint(l: Layout, at: nat, size: nat, objectSize: nat, i: nat, j: nat)
    requires LaidOut(l, at, size, objectSize) && i < j < l.total
    ensures l.mapEnd <= Address(l.base, objectSize, i)
    ensures Address(l.base, objectSize, i) + objectSize <= Address(l.base, objectSize, j)
    ensures Address(l.base, objectSize, j) + objectSize <= at + size
  {
    AddressOrder(l.base, objectSize, i, j);
    AddressOrder(l.base, objectSize, j, l.total);
    assert objectSize * i >= 0;
  }

  /** The regions `createSubHeap` asks for. */
  predicate IsRegion(at: nat, size: nat) {
    PAGE_SIZE <= size <= 0x1_0000 && size % PAGE_SIZE == 0 && 0 < at && at % PAGE_SIZE == 0
  }

  lemma RegionShape(order: nat)
    requires 1 <= order <= MAX_PAGE_ORDER
    ensures var size := PAGE_SIZE * Power2(order - 1); PAGE_SIZE <= size <= 0x1_0000 && size % PAGE_SIZE == 0
  {
    assert Power2(0) == 1 && Power2(1) == 2 && Power2(2) == 4 && Power2(3) == 8;
    assert Power2(4) == 16;
  }

  function Power2(n: nat): nat {
    if n == 0 then 1 else 2 * Power2(n - 1)
  }

  /** What a bitmap layout in such a region provides. */
  lemma RegionLayout(at: nat, size: nat, header: nat, objectSize: nat)
    requires IsRegion(at, size) && 0 < objectSize && header <= BITMAP_CACHING_REAP
    ensures var l := BitmapLayout(at, size, header, objectSize);
      && LaidOut(l, at, size, objectSize) && at + header <= l.mapEnd && 0 < l.base
      && 0 <= l.total <= 32 * Words(size, header, objectSize) && objectSize * l.total <= 0x1_0000
      && LeastWords(Words(size, header, objectSize), size - header, objectSize)
      && l.mapEnd == at + header + 4 * Words(size, header, objectSize) && l.mapEnd <= l.base < l.mapEnd + 8
      && Most(l.total, at + size - l.base, objectSize)
  {
    BitmapLayoutTight(at, size, header, objectSize);
    RegionEven(at, size);
    hide IsRegion, Objects, AlignUp, Words, Most, LeastWords;
    BitmapLayoutFits(at, size, header, objectSize);
  }

  lemma RegionFreelist(at: nat, size: nat, objectSize: nat)
    requires IsRegion(at, size) && 0 < objectSize
    ensures var l := FreelistLayout(at, size, objectSize);
      && 0 <= l.total && 0 < l.base && at + FREELIST_REAP <= l.base < at + FREELIST_REAP + 8
      && Most(l.total, size - FREELIST_REAP, objectSize)
      && (objectSize % 8 == 0 ==> LaidOut(l, at, size, objectSize))
  {
    RegionEven(at, size);
    hide IsRegion, Objects, AlignUp, Most, LaidOut;
    Share(size - FREELIST_REAP, size - FREELIST_REAP, objectSize);
    FreelistLayoutTight(at, size, objectSize);
    if objectSize % 8 == 0 {
      EvenSizesFit(at, size, objectSize / 8);
    }
  }

  lemma RegionEven(at: nat, size: nat)
    requires IsRegion(at, size)
    ensures at % 8 == 0 && size % 8 == 0 && PAGE_SIZE <= size <= 0x1_0000 && 0 < at
  {
    PageEven(at);
    PageEven(size);
  }

  lemma PageEven(x: nat)
    requires x % PAGE_SIZE == 0
    ensures x % 8 == 0
  {
    assert x == 8 * (512 * (x / PAGE_SIZE));
  }

  lemma RegionBytemap(at: nat, size: nat, objectSize: nat)
    requires IsRegion(at, size) && 0 < objectSize
    ensures var l := BytemapLayout(at, size, objectSize);
      && LaidOut(l, at, size, objectSize) && at + BYTEMAP_REAP <= l.mapEnd && 0 < l.base
      && 0 <= l.total <= l.mapEnd - at - BYTEMAP_REAP
      && Most(l.mapEnd - at - BYTEMAP_REAP, size - BYTEMAP_REAP, objectSize) && l.mapEnd <= l.base < l.mapEnd + 8
      && Most(l.total, at + size - l.base, objectSize)
  {
    BytemapLayoutTight(at, size, objectSize);
    RegionEven(at, size);
    hide IsRegion, Objects, AlignUp, Most;
    BytemapLayoutFits(at, size, objectSize);
  }

  /** With the sizes the deployed allocator sends to reaps, a reap has at least three slots. */
  lemma SeveralSlots(at: nat, size: nat, objectSize: nat)
    requires IsRegion(at, size) && 8 <= objectSize <= MAX_DEDICATED_SIZE
    ensures BitmapLayout(at, size, BITMAP_CACHING_REAP, objectSize).total >= 3
  {
    var l := BitmapLayout(at, size, BITMAP_CACHING_REAP, objectSize);
    var most := (size - BITMAP_CACHING_REAP) / objectSize;
    Quotient(size - BITMAP_CACHING_REAP, objectSize);
    assert 8 * most <= objectSize * most by {
      MulAtLeast(1, 0);
      MulMonotone(8, objectSize, most);
    }
    QuotientAtLeast(at + size - l.base, objectSize, 3);
  }

  lemma MulMonotone(a: int, b: int, n: nat)
    requires a <= b
    ensures a * n <= b * n
  {}

  /** What is aligned to a multiple of the page size is aligned to pages. */
  lemma PageAligned(x: int, size: nat)
    requires 0 < size && size % PAGE_SIZE == 0 && x % size == 0
    ensures x % PAGE_SIZE == 0
  {
    Quotient(x, size);
    Quotient(size, PAGE_SIZE);
    var m, k := size / PAGE_SIZE, x / size;
    assert size * k == PAGE_SIZE * (m * k);
    DivUnique(x, PAGE_SIZE, m * k, 0);
  }
}
