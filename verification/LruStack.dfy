/**
 * The LRU simulators of tools/lrusim2.cpp and tools/lrusim.cpp. One list of pages with placeholders (value 0) for
 * pages that were unmapped or discarded stands for the LRU memories of all sizes at once.
 */
module LruStack {
  import opened PageTraces
  import opened LruMemory
  import opened Sequences

  const HOLE: nat := 0

  /** Where the scan for `page` stops. */
  function Position(q: seq<nat>, page: nat): (pos: nat)
    ensures pos <= |q|
    ensures pos < |q| ==> q[pos] == page
    ensures forall i :: 0 <= i < pos ==> q[i] != page
  {
    if q == [] || q[0] == page then 0 else 1 + Position(q[1..], page)
  }

  /** The first placeholder the scan of the first `n` entries passes, `n` if there is none. */
  function FirstHole(q: seq<nat>, n: nat): (h: nat)
    requires n <= |q|
    ensures h <= n
    ensures h < n ==> q[h] == HOLE
    ensures forall i :: 0 <= i < h ==> q[i] != HOLE
  {
    if n == 0 || q[0] == HOLE then 0 else 1 + FirstHole(q[1..], n - 1)
  }

  /** A page that is not on the stack goes to the front; the first placeholder `h`, if any, is used up. */
  function Insert(q: seq<nat>, page: nat, h: nat): seq<nat>
    requires h <= |q|
  {
    if h == |q| then [page] + q else [page] + q[..h] + q[h + 1..]
  }

  /** The page at `pos` goes to the front; the first placeholder `h` above it, if any, moves down to `pos`. */
  function Promote(q: seq<nat>, pos: nat, h: nat): seq<nat>
    requires h <= pos < |q|
  {
    if pos == 0 then q
    else if h == pos then [q[pos]] + q[..pos] + q[pos + 1..]
    else [q[pos]] + q[..h] + q[h + 1..pos] + [HOLE] + q[pos + 1..]
  }

  /** The effect of one line on the list, for any line of a non-zero page. */
  function StackStep(q: seq<nat>, e: Event): seq<nat> {
    var pos := Position(q, e.page);
    var h := FirstHole(q, pos);
    if IsDrop(e.tag) then
      if pos < |q| then q[pos := HOLE] else q
    else if e.tag == 'R' && pos < |q| then
      // the page was there already: its entry becomes a placeholder, but only one above it is used up
      if h < pos then [e.page] + q[pos := HOLE][..h] + q[pos := HOLE][h + 1..] else [e.page] + q[pos := HOLE]
    else if IsTouch(e.tag) then
      if pos < |q| then Promote(q, pos, h) else Insert(q, e.page, h)
    else q
  }

  /** The pages on the stack, in order. */
  function Pages(q: seq<nat>): seq<nat> {
    Without(q, HOLE)
  }

  function Top(q: seq<nat>, k: nat): seq<nat> {
    if k <= |q| then q[..k] else q
  }

  ghost function Count(q: seq<nat>, page: nat): nat {
    multiset(q)[page]
  }

  /** No page is on the stack twice. */
  ghost predicate Distinct(q: seq<nat>) {
    forall page :: page != HOLE ==> Count(q, page) <= 1
  }

  ghost function PageSet(q: seq<nat>): set<nat> {
    set page | page in q && page != HOLE
  }

  lemma PagesConcat(a: seq<nat>, b: seq<nat>)
    ensures Pages(a + b) == Pages(a) + Pages(b)
  {
    WithoutConcat(a, b, HOLE);
  }

  lemma PagesOf(q: seq<nat>, page: nat)
    requires page != HOLE
    ensures page in Pages(q) <==> page in q
  {
    if q != [] {
      PagesOf(q[1..], page);
    }
  }

  lemma PagesLength(q: seq<nat>)
    ensures |Pages(q)| <= |q|
    ensures HOLE in q ==> |Pages(q)| < |q|
    ensures HOLE !in q ==> Pages(q) == q
  {
    if q != [] {
      PagesLength(q[1..]);
    }
  }

  lemma PagesAround(a: seq<nat>, x: nat, b: seq<nat>)
    ensures Pages(a + [x] + b) == if x == HOLE then Pages(a) + Pages(b) else Pages(a) + [x] + Pages(b)
  {
    PagesConcat(a + [x], b);
    PagesConcat(a, [x]);
    WithoutOne(x, HOLE);
    assert Pages(a) + [] == Pages(a);
  }

  // Taking one page out of the memory is dropping its stack entry.
  lemma PagesWithout(a: seq<nat>, page: nat, b: seq<nat>)
    requires page != HOLE && page !in a && page !in b
    ensures Without(Pages(a + [page] + b), page) == Pages(a) + Pages(b)
  {
    PagesAround(a, page, b);
    PagesOf(a, page);
    PagesOf(b, page);
    WithoutAround(Pages(a), page, Pages(b));
  }

  // A miss with a placeholder among the first `k` entries: a place is free and nothing is evicted.
  lemma MissIntoHole(a: seq<nat>, b: seq<nat>, k: nat, page: nat)
    requires page != HOLE && page !in a && page !in b && |a| + 1 + |b| <= k
    ensures Touch(Pages(a + [HOLE] + b), k, page) == Pages([page] + a + b)
  {
    var t := a + [HOLE] + b;
    assert t[|a|] == HOLE;
    PagesLength(t);
    PagesOf(t, page);
    PagesAround(a, HOLE, b);
    PagesAround([], page, a + b);
    PagesConcat(a, b);
    assert [page] + a + b == [] + [page] + (a + b);
  }

  // A miss with no placeholder: the memory is full once the stack has `k` entries.
  lemma MissOnFull(t: seq<nat>, k: nat, page: nat)
    requires page != HOLE && page !in t && HOLE !in t && |t| <= k
    ensures Touch(Pages(t), k, page) == Pages(Top([page] + t, k))
  {
    PagesLength(t);
    PagesLength(Top([page] + t, k));
    assert 0 < |t| == k ==> Top([page] + t, k) == [page] + t[..k - 1];
  }

  lemma PagesPush(page: nat, s: seq<nat>)
    requires page != HOLE
    ensures Pages([page] + s) == [page] + Pages(s)
  {
    PagesConcat([page], s);
    WithoutOne(page, HOLE);
  }

  // A hit below no placeholder ...
  lemma HitInPlace(a: seq<nat>, page: nat, b: seq<nat>)
    requires page != HOLE && page !in a && page !in b
    ensures Pages([page] + a + b) == [page] + Without(Pages(a + [page] + b), page)
  {
    PagesWithout(a, page, b);
    PagesConcat(a, b);
    PagesPush(page, a + b);
    assert [page] + a + b == [page] + (a + b);
  }

  // ... and one below a placeholder, which trickles down.
  lemma HitBelowHole(a: seq<nat>, b: seq<nat>, page: nat, c: seq<nat>)
    requires page != HOLE && page !in a && page !in b && page !in c
    ensures Pages([page] + a + b + [HOLE] + c) == [page] + Without(Pages(a + [HOLE] + b + [page] + c), page)
  {
    HoleBefore(a, b, page, c);
    HoleAfter(a, b, page, c);
  }

  lemma HoleBefore(a: seq<nat>, b: seq<nat>, page: nat, c: seq<nat>)
    requires page != HOLE && page !in a && page !in b && page !in c
    ensures Without(Pages(a + [HOLE] + b + [page] + c), page) == Pages(a) + Pages(b) + Pages(c)
  {
    PagesWithout(a + [HOLE] + b, page, c);
    PagesAround(a, HOLE, b);
  }

  lemma HoleAfter(a: seq<nat>, b: seq<nat>, page: nat, c: seq<nat>)
    requires page != HOLE
    ensures Pages([page] + a + b + [HOLE] + c) == [page] + (Pages(a) + Pages(b) + Pages(c))
  {
    var s := a + b + [HOLE] + c;
    assert Pages(s) == Pages(a) + Pages(b) + Pages(c) by {
      PagesConcat(a, b);
      PagesAround(a + b, HOLE, c);
    }
    assert [page] + a + b + [HOLE] + c == [page] + s;
    PagesPush(page, s);
  }

  lemma TopInsertIntoHole(q: seq<nat>, page: nat, h: nat, k: nat)
    requires h < |q| && h < k
    ensures Top(Insert(q, page, h), k) == [page] + Top(q, k)[..h] + Top(q, k)[h + 1..]
  {}

  lemma TopInsertOnTop(q: seq<nat>, page: nat, h: nat, k: nat)
    requires h == |q| || k <= h < |q|
    ensures Top(Insert(q, page, h), k) == Top([page] + Top(q, k), k)
  {}

  lemma TopPromoteMiss(q: seq<nat>, pos: nat, h: nat, k: nat)
    requires h <= pos < |q| && k <= pos
    ensures h < k ==> Top(Promote(q, pos, h), k) == [q[pos]] + Top(q, k)[..h] + Top(q, k)[h + 1..]
    ensures k <= h ==> Top(Promote(q, pos, h), k) == Top([q[pos]] + Top(q, k), k)
  {}

  lemma TopPromoteHit(q: seq<nat>, pos: nat, h: nat, k: nat)
    requires h <= pos < |q| && pos < k
    ensures Top(Promote(q, pos, h), k) == Promote(Top(q, k), pos, h)
  {
    if pos != 0 && k <= |q| {
      var t, page, c := q[..k], [q[pos]], q[pos + 1..];
      assert t[pos + 1..] == c[..k - pos - 1];
      if h < pos {
        assert t[..h] == q[..h] && t[h + 1..pos] == q[h + 1..pos];
        PrefixOf(page + q[..h] + q[h + 1..pos] + [HOLE], c, k);
      } else {
        assert t[..pos] == q[..pos];
        PrefixOf(page + q[..pos], c, k);
      }
    }
  }

  lemma PrefixOf(a: seq<nat>, c: seq<nat>, k: nat)
    requires |a| <= k <= |a + c|
    ensures (a + c)[..k] == a + c[..k - |a|]
  {}

  lemma CountIn(q: seq<nat>, page: nat)
    ensures Count(q, page) > 0 <==> page in q
  {}

  lemma CountConcat(a: seq<nat>, b: seq<nat>, page: nat)
    ensures Count(a + b, page) == Count(a, page) + Count(b, page)
  {}

  lemma CountAround(a: seq<nat>, x: nat, b: seq<nat>, page: nat)
    ensures Count(a + [x] + b, page) == Count(a, page) + Count(b, page) + if x == page then 1 else 0
  {
    CountConcat(a + [x], b, page);
    CountConcat(a, [x], page);
  }

  lemma DistinctParts(a: seq<nat>, b: seq<nat>)
    requires Distinct(a + b)
    ensures Distinct(a) && Distinct(b)
  {
    forall page | page != HOLE
      ensures Count(a, page) <= 1 && Count(b, page) <= 1
    {
      CountConcat(a, b, page);
    }
  }

  lemma DistinctAround(a: seq<nat>, page: nat, b: seq<nat>)
    requires page != HOLE && Distinct(a + [page] + b)
    ensures page !in a && page !in b
  {
    CountAround(a, page, b, page);
    CountIn(a, page);
    CountIn(b, page);
  }

  lemma TopDistinct(q: seq<nat>, pos: nat, k: nat)
    requires pos < |q| && Distinct(q) && q[pos] != HOLE
    ensures Distinct(Top(q, k))
    ensures q[pos] in Top(q, k) <==> pos < k
  {
    var n := |Top(q, k)|;
    assert q == Top(q, k) + q[n..];
    DistinctParts(Top(q, k), q[n..]);
    SplitAt(q, pos);
    DistinctAround(q[..pos], q[pos], q[pos + 1..]);
    if k <= pos {
      assert Top(q, k) <= q[..pos];
    } else {
      assert Top(q, k)[pos] == q[pos];
    }
  }

  lemma SplitAt(t: seq<nat>, h: nat)
    requires h < |t|
    ensures t == t[..h] + [t[h]] + t[h + 1..]
  {}

  lemma MissAt(t: seq<nat>, h: nat, k: nat, page: nat)
    requires h < |t| <= k && t[h] == HOLE && page != HOLE && page !in t
    ensures Touch(Pages(t), k, page) == Pages([page] + t[..h] + t[h + 1..])
  {
    SplitAt(t, h);
    MissIntoHole(t[..h], t[h + 1..], k, page);
  }

  /** A page that is not on the stack: every memory size sees a miss. */
  lemma InsertSimulates(q: seq<nat>, page: nat, k: nat)
    requires page != HOLE && page !in q
    ensures Pages(Top(Insert(q, page, FirstHole(q, |q|)), k)) == Touch(Pages(Top(q, k)), k, page)
  {
    var h, t := FirstHole(q, |q|), Top(q, k);
    if h < |q| && h < k {
      TopInsertIntoHole(q, page, h, k);
      MissAt(t, h, k, page);
    } else {
      TopInsertOnTop(q, page, h, k);
      MissOnFull(t, k, page);
    }
  }

  /** A page at position `pos`: a hit for the memories with more than `pos` pages, a miss for the others. */
  lemma PromoteSimulates(q: seq<nat>, pos: nat, k: nat)
    requires pos < |q| && Distinct(q) && q[pos] != HOLE
    ensures Pages(Top(Promote(q, pos, FirstHole(q, pos)), k)) == Touch(Pages(Top(q, k)), k, q[pos])
  {
    var h, t, page := FirstHole(q, pos), Top(q, k), q[pos];
    TopDistinct(q, pos, k);
    if pos < k {
      TopPromoteHit(q, pos, h, k);
      HitSimulates(t, pos, h);
    } else if h < k {
      TopPromoteMiss(q, pos, h, k);
      MissAt(t, h, k, page);
    } else {
      TopPromoteMiss(q, pos, h, k);
      MissOnFull(t, k, page);
    }
  }

  lemma HitSimulates(t: seq<nat>, pos: nat, h: nat)
    requires pos < |t| && Distinct(t) && t[pos] != HOLE
    requires h <= pos && (h < pos ==> t[h] == HOLE)
    ensures Pages(Promote(t, pos, h)) == [t[pos]] + Without(Pages(t), t[pos])
    ensures t[pos] in Pages(t)
  {
    var page, c := t[pos], t[pos + 1..];
    PagesOf(t, page);
    SplitAt(t, pos);
    DistinctAround(t[..pos], page, c);
    if h == pos {
      HitInPlace(t[..pos], page, c);
      assert Promote(t, pos, h) == [page] + t[..pos] + c;
    } else {
      var a, b := t[..h], t[h + 1..pos];
      assert t[..pos] == a + [HOLE] + b;
      HitBelowHole(a, b, page, c);
    }
  }

  lemma TopDrop(q: seq<nat>, pos: nat, k: nat)
    requires pos < |q| && pos < k
    ensures Top(q[pos := HOLE], k) == Top(q, k)[..pos] + [HOLE] + Top(q, k)[pos + 1..]
  {}

  lemma DropAround(a: seq<nat>, page: nat, c: seq<nat>)
    requires page != HOLE && page !in a && page !in c
    ensures Pages(a + [HOLE] + c) == Without(Pages(a + [page] + c), page)
  {
    PagesWithout(a, page, c);
    PagesAround(a, HOLE, c);
  }

  /** A page that is unmapped or discarded leaves every memory that holds it; its place stays free. */
  lemma DropSimulates(q: seq<nat>, pos: nat, k: nat)
    requires pos < |q| && Distinct(q) && q[pos] != HOLE
    ensures Pages(Top(q[pos := HOLE], k)) == Without(Pages(Top(q, k)), q[pos])
  {
    var t, page := Top(q, k), q[pos];
    TopDistinct(q, pos, k);
    if pos < k {
      var a, c := t[..pos], t[pos + 1..];
      SplitAt(t, pos);
      DistinctAround(a, page, c);
      TopDrop(q, pos, k);
      DropAround(a, page, c);
    } else {
      assert Top(q[pos := HOLE], k) == t;
      PagesOf(t, page);
      WithoutAbsent(Pages(t), page);
    }
  }

  /** One line of a well-formed trace moves every `k`-page view of the stack as it moves the `k`-page memory. */
  lemma StepSimulates(q: seq<nat>, e: Event, k: nat)
    requires Distinct(q) && Acceptable(PageSet(q), e)
    ensures Pages(Top(StackStep(q, e), k)) == MemoryStep(Pages(Top(q, k)), k, e)
  {
    var pos := Position(q, e.page);
    if IsDrop(e.tag) {
      if pos < |q| {
        DropSimulates(q, pos, k);
      } else {
        PagesOf(Top(q, k), e.page);
        WithoutAbsent(Pages(Top(q, k)), e.page);
      }
    } else if IsTouch(e.tag) {
      if pos < |q| {
        PromoteSimulates(q, pos, k);
      } else {
        InsertSimulates(q, e.page, k);
      }
    }
  }

  lemma CountPush(page: nat, s: seq<nat>, x: nat)
    ensures Count([page] + s, x) == Count(s, x) + if x == page then 1 else 0
  {
    CountConcat([page], s, x);
  }

  lemma FillCount(a: seq<nat>, b: seq<nat>, page: nat, x: nat)
    ensures Count([page] + a + b, x)
      == Count(a + [HOLE] + b, x) + (if x == page then 1 else 0) - (if x == HOLE then 1 else 0)
  {
    assert [page] + a + b == [page] + (a + b);
    CountPush(page, a + b, x);
    CountConcat(a, b, x);
    CountAround(a, HOLE, b, x);
  }

  lemma TrickleCount(a: seq<nat>, b: seq<nat>, page: nat, c: seq<nat>, x: nat)
    ensures Count([page] + a + b + [HOLE] + c, x) == Count(a + [HOLE] + b + [page] + c, x)
  {
    CountAround([page] + a + b, HOLE, c, x);
    FillCount(a, b, page, x);
    CountAround(a + [HOLE] + b, page, c, x);
  }

  // What a step does to the number of times `x` is on the stack.
  lemma InsertCount(q: seq<nat>, page: nat, x: nat)
    ensures Count(Insert(q, page, FirstHole(q, |q|)), x)
      == Count(q, x) + (if x == page then 1 else 0) - (if x == HOLE && HOLE in q then 1 else 0)
  {
    var h := FirstHole(q, |q|);
    if h < |q| {
      SplitAt(q, h);
      FillCount(q[..h], q[h + 1..], page, x);
    } else {
      CountPush(page, q, x);
    }
  }

  lemma PromoteCount(q: seq<nat>, pos: nat, x: nat)
    requires pos < |q|
    ensures Count(Promote(q, pos, FirstHole(q, pos)), x) == Count(q, x)
  {
    var h, page, c := FirstHole(q, pos), q[pos], q[pos + 1..];
    SplitAt(q, pos);
    if h < pos {
      assert q[..pos] == q[..h] + [HOLE] + q[h + 1..pos];
      TrickleCount(q[..h], q[h + 1..pos], page, c, x);
    } else if pos != 0 {
      CountAround(q[..pos], page, c, x);
      CountConcat([page] + q[..pos], c, x);
      CountPush(page, q[..pos], x);
    }
  }

  lemma DropCount(q: seq<nat>, pos: nat, x: nat)
    requires pos < |q|
    ensures Count(q[pos := HOLE], x)
      == Count(q, x) - (if x == q[pos] then 1 else 0) + (if x == HOLE then 1 else 0)
  {
    SplitAt(q, pos);
    SplitAt(q[pos := HOLE], pos);
    CountAround(q[..pos], q[pos], q[pos + 1..], x);
    CountAround(q[..pos], HOLE, q[pos + 1..], x);
    assert q[pos := HOLE][..pos] == q[..pos] && q[pos := HOLE][pos + 1..] == q[pos + 1..];
  }

  lemma StepCount(q: seq<nat>, e: Event, x: nat)
    requires Acceptable(PageSet(q), e)
    ensures Count(StackStep(q, e), x) == Count(q, x)
      + (if e.tag == 'R' then (if x == e.page then 1 else 0) - (if x == HOLE && HOLE in q then 1 else 0)
         else if IsDrop(e.tag) && e.page in q then (if x == HOLE then 1 else 0) - (if x == e.page then 1 else 0)
         else 0)
  {
    var pos := Position(q, e.page);
    assert e.page in q <==> e.page in PageSet(q);
    if IsDrop(e.tag) && pos < |q| {
      DropCount(q, pos, x);
    } else if IsReuse(e.tag) {
      PromoteCount(q, pos, x);
    } else if e.tag == 'R' {
      InsertCount(q, e.page, x);
    }
  }

  /** A first touch of a page that is there already: its old entry goes, and it is at the front. */
  lemma RepeatCount(q: seq<nat>, e: Event, x: nat)
    requires e.tag == 'R' && e.page != HOLE && e.page in q && x != HOLE
    ensures Count(StackStep(q, e), x) == Count(q, x) && StackStep(q, e)[0] == e.page
  {
    var pos := Position(q, e.page);
    var h, r := FirstHole(q, pos), q[pos := HOLE];
    DropCount(q, pos, x);
    if h < pos {
      SplitAt(r, h);
      FillCount(r[..h], r[h + 1..], e.page, x);
    } else {
      CountPush(e.page, r, x);
    }
  }

  /** How often a page is on the stack after any line, well formed or not. */
  lemma AnyStepCount(q: seq<nat>, e: Event, x: nat)
    requires e.page != HOLE && x != HOLE
    ensures Count(StackStep(q, e), x) == Count(q, x)
      + (if x != e.page then 0 else if IsTouch(e.tag) && e.page !in q then 1 else if IsDrop(e.tag) && e.page in q then -1 else 0)
  {
    var pos := Position(q, e.page);
    if IsDrop(e.tag) {
      if pos < |q| {
        DropCount(q, pos, x);
      }
    } else if IsTouch(e.tag) {
      if pos == |q| {
        InsertCount(q, e.page, x);
      } else if e.tag == 'R' {
        RepeatCount(q, e, x);
      } else {
        PromoteCount(q, pos, x);
      }
    }
  }

  /** Any line keeps the stack free of duplicates, and its pages are the resident pages. */
  lemma StepKeepsPages(q: seq<nat>, e: Event)
    requires Distinct(q) && e.page != HOLE
    ensures Distinct(StackStep(q, e))
    ensures PageSet(StackStep(q, e)) == ResidentStep(PageSet(q), e)
  {
    var q' := StackStep(q, e);
    forall x | x != HOLE
      ensures Count(q', x) <= 1 && (x in q' <==> x in ResidentStep(PageSet(q), e))
    {
      AnyStepCount(q, e, x);
      CountIn(q, x);
      CountIn(q', x);
    }
    assert HOLE !in ResidentStep(PageSet(q), e);
  }

  lemma StackSize(q: seq<nat>)
    requires Distinct(q)
    ensures |q| == |PageSet(q)| + Count(q, HOLE)
  {
    if q != [] {
      var x, rest := q[0], q[1..];
      assert q == [x] + rest == [] + [x] + rest;
      DistinctParts([x], rest);
      StackSize(rest);
      CountAround([], x, rest, HOLE);
      if x == HOLE {
        assert PageSet(q) == PageSet(rest);
      } else {
        DistinctAround([], x, rest);
        assert PageSet(q) == PageSet(rest) + {x};
      }
    }
  }

  /** The stack after a trace. */
  ghost function StackRun(trace: seq<Event>): seq<nat> {
    if trace == [] then [] else StackStep(StackRun(trace[..|trace| - 1]), trace[|trace| - 1])
  }

  lemma {:induction false} RunKeepsPages(trace: seq<Event>)
    requires WellFormed(trace)
    ensures Distinct(StackRun(trace)) && PageSet(StackRun(trace)) == Resident(trace)
  {
    if trace != [] {
      RunKeepsPages(trace[..|trace| - 1]);
      StepKeepsPages(StackRun(trace[..|trace| - 1]), trace[|trace| - 1]);
    }
  }

  /**
   * The stack simulates the LRU memories of all sizes at once: its first `k` entries, without the placeholders, are
   * the contents of the `k`-page memory, in order of last use.
   */
  lemma {:induction false} StackSimulatesAllSizes(trace: seq<Event>, k: nat)
    requires WellFormed(trace)
    ensures Pages(Top(StackRun(trace), k)) == MemoryRun(trace, k)
  {
    if trace != [] {
      var before := trace[..|trace| - 1];
      StackSimulatesAllSizes(before, k);
      RunKeepsPages(before);
      StepSimulates(StackRun(before), trace[|trace| - 1], k);
    }
  }

  /** The stack never holds more entries than the peak number of resident pages: the placeholders are the difference. */
  lemma {:induction false} StackLengthIsPeak(trace: seq<Event>)
    requires WellFormed(trace)
    ensures |StackRun(trace)| == Peak(trace)
    ensures Count(StackRun(trace), HOLE) == Peak(trace) - |Resident(trace)|
  {
    RunKeepsPages(trace);
    StackSize(StackRun(trace));
    if trace != [] {
      var before, e := trace[..|trace| - 1], trace[|trace| - 1];
      StackLengthIsPeak(before);
      RunKeepsPages(before);
      StepCount(StackRun(before), e, HOLE);
      StepLength(StackRun(before), e);
      CountIn(StackRun(before), HOLE);
    }
  }

  lemma StepLength(q: seq<nat>, e: Event)
    requires Distinct(q) && Acceptable(PageSet(q), e)
    ensures |StackStep(q, e)| == |q| + if e.tag == 'R' && HOLE !in q then 1 else 0
  {
    var pos := Position(q, e.page);
    assert e.page in q ==> e.page in PageSet(q);
  }
}
