/**
 * The page tracer of tools/memtrace.h: a state machine over pages whose output lines feed the LRU simulators.
 * Results of the real system calls are parameters.
 */
module PageStatus {
  import opened PageTraces

  const PAGE_SIZE := 4096

  datatype Mapping = SbrkAnon | MmapAnon | MmapPrivate | MmapShared

  datatype Residency = OnDemand | Discarded | InMemory

  /** The status bits of one page: mapping, residency, the program's protection and the protection now in force. */
  datatype Status = Status(mapping: Mapping, residency: Residency, origReadable: bool, origWritable: bool,
                           currReadable: bool, currWritable: bool)

  type StatusMap = map<nat, Status>

  function RoundUp(n: nat): (r: nat)
    ensures r % PAGE_SIZE == 0 && n <= r < n + PAGE_SIZE
  {
    (n + PAGE_SIZE - 1) / PAGE_SIZE * PAGE_SIZE
  }

  function PageAt(start: nat, i: nat): nat {
    start + i * PAGE_SIZE
  }

  /** The `n` lines with one tag for consecutive pages from `start`. */
  function Lines(tag: char, start: nat, n: nat): seq<Event> {
    if n == 0 then [] else Lines(tag, start, n - 1) + [Event(tag, PageAt(start, n - 1))]
  }

  lemma {:induction false} LinesAt(tag: char, start: nat, n: nat, i: nat)
    requires i < n
    ensures |Lines(tag, start, n)| == n && Lines(tag, start, n)[i] == Event(tag, start + 4096 * i)
  {
    LinesCount(tag, start, n - 1);
    if i < n - 1 {
      LinesAt(tag, start, n - 1, i);
    }
  }

  lemma {:induction false} LinesCount(tag: char, start: nat, n: nat)
    ensures |Lines(tag, start, n)| == n
  {
    if n > 0 {
      LinesCount(tag, start, n - 1);
    }
  }

  /** The pages the tracer keeps byte counts of. */
  datatype Kind = Mmapped | MmapUntouched | MmapDropped | SbrkUntouched | SbrkDropped

  predicate Is(s: Status, kind: Kind) {
    match kind
    case Mmapped => !s.mapping.SbrkAnon?
    case MmapUntouched => !s.mapping.SbrkAnon? && s.residency == OnDemand
    case MmapDropped => !s.mapping.SbrkAnon? && s.residency == Discarded
    case SbrkUntouched => s.mapping.SbrkAnon? && s.residency == OnDemand
    case SbrkDropped => s.mapping.SbrkAnon? && s.residency == Discarded
  }

  ghost function Select(m: StatusMap, kind: Kind): set<nat> {
    set p | p in m && Is(m[p], kind)
  }

  ghost function Count(m: StatusMap, kind: Kind): nat {
    |Select(m, kind)|
  }

  function One(s: Status, kind: Kind): nat {
    if Is(s, kind) then 1 else 0
  }

  ghost function Sbrked(m: StatusMap): set<nat> {
    set p | p in m && m[p].mapping.SbrkAnon?
  }

  ghost function Loaded(m: StatusMap): set<nat> {
    set p | p in m && m[p].residency == InMemory
  }

  ghost predicate PageRange(p: nat, start: nat, length: nat) {
    p % PAGE_SIZE == 0 && start <= p < start + length
  }

  ghost function PagesIn(start: nat, length: nat): set<nat> {
    set p: nat | p < start + length && PageRange(p, start, length)
  }

  /** The sbrk pages are the pages between the initial and the current break. */
  ghost predicate BreakFits(sbrked: set<nat>, initialBreak: nat, currentBreak: nat) {
    && 0 < initialBreak <= currentBreak
    && RoundUp(initialBreak) <= RoundUp(currentBreak)
    && sbrked == PagesIn(RoundUp(initialBreak), RoundUp(currentBreak) - RoundUp(initialBreak))
  }

  /** What every page satisfies: a protection is lifted only for a page in memory, and no further than the program's own. */
  ghost predicate Sound(p: nat, s: Status) {
    && p != 0 && p % PAGE_SIZE == 0
    && (s.currReadable ==> s.residency == InMemory && s.origReadable)
    && (s.currWritable ==> s.currReadable && s.origWritable)
  }

  ghost predicate AllSound(m: StatusMap) {
    forall p :: p in m ==> Sound(p, m[p])
  }

  lemma CountAdd(m: StatusMap, p: nat, s: Status, kind: Kind)
    requires p !in m
    ensures Count(m[p := s], kind) == Count(m, kind) + One(s, kind)
  {
    assert Select(m[p := s], kind) == Select(m, kind) + if Is(s, kind) then {p} else {};
    assert p !in Select(m, kind);
  }

  lemma CountRemove(m: StatusMap, p: nat, kind: Kind)
    requires p in m
    ensures Count(m - {p}, kind) == Count(m, kind) - One(m[p], kind)
  {
    assert m == (m - {p})[p := m[p]];
    CountAdd(m - {p}, p, m[p], kind);
  }

  lemma CountChange(m: StatusMap, p: nat, s: Status, kind: Kind)
    requires p in m
    ensures Count(m[p := s], kind) == Count(m, kind) - One(m[p], kind) + One(s, kind)
  {
    assert m[p := s] == (m - {p})[p := s];
    CountRemove(m, p, kind);
    CountAdd(m - {p}, p, s, kind);
  }

  lemma CountsAdd(m: StatusMap, p: nat, s: Status)
    requires p !in m
    ensures forall kind :: Count(m[p := s], kind) == Count(m, kind) + One(s, kind)
  {
    forall kind
      ensures Count(m[p := s], kind) == Count(m, kind) + One(s, kind)
    {
      CountAdd(m, p, s, kind);
    }
  }

  lemma CountsRemove(m: StatusMap, p: nat)
    requires p in m
    ensures forall kind :: Count(m - {p}, kind) == Count(m, kind) - One(m[p], kind)
  {
    forall kind
      ensures Count(m - {p}, kind) == Count(m, kind) - One(m[p], kind)
    {
      CountRemove(m, p, kind);
    }
  }

  lemma CountsChange(m: StatusMap, p: nat, s: Status)
    requires p in m
    ensures forall kind :: Count(m[p := s], kind) == Count(m, kind) - One(m[p], kind) + One(s, kind)
  {
    forall kind
      ensures Count(m[p := s], kind) == Count(m, kind) - One(m[p], kind) + One(s, kind)
    {
      CountChange(m, p, s, kind);
    }
  }

  lemma SetPage(m: StatusMap, p: nat, s: Status)
    requires AllSound(m) && Sound(p, s)
    ensures AllSound(m[p := s])
    ensures p in m && m[p].mapping == s.mapping ==> Sbrked(m[p := s]) == Sbrked(m)
    ensures Loaded(m[p := s]) == if s.residency == InMemory then Loaded(m) + {p} else Loaded(m) - {p}
  {}

  /** The map after the first `n` pages from `start` were entered with status `s`. */
  ghost function Tracked(m: StatusMap, start: nat, n: nat, s: Status): StatusMap {
    if n == 0 then m else Tracked(m, start, n - 1, s)[PageAt(start, n - 1) := s]
  }

  /** The map after the first `n` pages from `start` were erased. */
  ghost function Untracked(m: StatusMap, start: nat, n: nat): StatusMap {
    if n == 0 then m else Untracked(m, start, n - 1) - {PageAt(start, n - 1)}
  }

  /** The map after the tracked ones among the first `n` pages from `start` were changed. */
  ghost function Changed(m: StatusMap, start: nat, n: nat, change: Status -> Status): StatusMap {
    if n == 0 then m
    else
      var before, p := Changed(m, start, n - 1, change), PageAt(start, n - 1);
      if p in before then before[p := change(before[p])] else before
  }

  /** `madvise(MADV_DONTNEED)` on one page: a page in memory becomes discarded, and no access is permitted. */
  function Dropped(s: Status): Status {
    s.(residency := if s.residency == InMemory then Discarded else s.residency, currReadable := false, currWritable := false)
  }

  /** A page the break has just moved over. */
  function FreshSbrked(): Status {
    Status(SbrkAnon, OnDemand, true, true, false, false)
  }

  /** No access is permitted until the next fault. */
  function Closed(s: Status): Status {
    s.(currReadable := false, currWritable := false)
  }

  /** `mprotect` on one page. */
  function Protecting(readable: bool, writable: bool): Status -> Status {
    (s: Status) => s.(origReadable := readable, origWritable := writable, currReadable := false, currWritable := false)
  }

  lemma NextPage(p: nat, start: nat, n: nat)
    requires start % PAGE_SIZE == 0
    ensures PageRange(p, start, (n + 1) * PAGE_SIZE) <==> PageRange(p, start, n * PAGE_SIZE) || p == PageAt(start, n)
    ensures !PageRange(PageAt(start, n), start, n * PAGE_SIZE)
  {}

  /** Tracking, untracking and changing reach exactly the pages of the range, once each. */
  lemma {:induction false} TrackedAt(m: StatusMap, start: nat, n: nat, s: Status, p: nat)
    requires start % PAGE_SIZE == 0
    ensures var m' := Tracked(m, start, n, s);
      && (p in m' <==> p in m || PageRange(p, start, n * PAGE_SIZE))
      && (p in m' ==> m'[p] == if PageRange(p, start, n * PAGE_SIZE) then s else m[p])
  {
    if n > 0 {
      TrackedAt(m, start, n - 1, s, p);
      NextPage(p, start, n - 1);
    }
  }

  lemma {:induction false} UntrackedAt(m: StatusMap, start: nat, n: nat, p: nat)
    requires start % PAGE_SIZE == 0
    ensures var m' := Untracked(m, start, n);
      && (p in m' <==> p in m && !PageRange(p, start, n * PAGE_SIZE))
      && (p in m' ==> m'[p] == m[p])
  {
    if n > 0 {
      UntrackedAt(m, start, n - 1, p);
      NextPage(p, start, n - 1);
    }
  }

  lemma {:induction false} ChangedAt(m: StatusMap, start: nat, n: nat, change: Status -> Status, p: nat)
    requires start % PAGE_SIZE == 0
    ensures var m' := Changed(m, start, n, change);
      && m'.Keys == m.Keys
      && (p in m' ==> m'[p] == if PageRange(p, start, n * PAGE_SIZE) then change(m[p]) else m[p])
  {
    if n > 0 {
      ChangedAt(m, start, n - 1, change, p);
      ChangedAt(m, start, n - 1, change, PageAt(start, n - 1));
      NextPage(p, start, n - 1);
    }
  }

  /** The same for all pages at once. */
  lemma ChangedPages(m: StatusMap, start: nat, length: nat, change: Status -> Status)
    requires start % PAGE_SIZE == 0 && length % PAGE_SIZE == 0
    ensures var m' := Changed(m, start, length / PAGE_SIZE, change);
      && m'.Keys == m.Keys
      && forall p :: p in m' ==> m'[p] == if PageRange(p, start, length) then change(m[p]) else m[p]
  {
    var n := length / PAGE_SIZE;
    ChangedAt(m, start, n, change, start);
    forall p | p in Changed(m, start, n, change)
      ensures Changed(m, start, n, change)[p] == if PageRange(p, start, length) then change(m[p]) else m[p]
    {
      ChangedAt(m, start, n, change, p);
    }
  }

  lemma TrackedPages(m: StatusMap, start: nat, length: nat, s: Status)
    requires start % PAGE_SIZE == 0 && length % PAGE_SIZE == 0
    ensures var m' := Tracked(m, start, length / PAGE_SIZE, s);
      && (forall p: nat :: p in m' <==> p in m || PageRange(p, start, length))
      && forall p :: p in m' ==> m'[p] == if PageRange(p, start, length) then s else m[p]
  {
    var n := length / PAGE_SIZE;
    forall p: nat
      ensures p in Tracked(m, start, n, s) <==> p in m || PageRange(p, start, length)
      ensures p in Tracked(m, start, n, s) ==>
        Tracked(m, start, n, s)[p] == if PageRange(p, start, length) then s else m[p]
    {
      TrackedAt(m, start, n, s, p);
    }
  }
}

module MemTracing {
  import opened PageTraces
  import opened PageStatus

  const UNPROTECTED_SIZE := 128

  function Max(a: int, b: int): (m: int)
    ensures a <= m && b <= m && (m == a || m == b)
  {
    if b > a then b else a
  }

  class MemTracer {
    var status: StatusMap
    var allocatedMmap: int
    var allocatedSbrk: int
    var mmapDiscarded: int
    var sbrkDiscarded: int
    var mmapUntouched: int
    var sbrkUntouched: int
    var maxAllocated: int
    var initialBreak: nat
    var currentBreak: nat
    const window: array<nat>
    var windowPointer: nat
    // the lines written to the trace file
    var trace: seq<Event>

    /** The trace so far is well formed, and the simulator's resident pages are the pages in memory. */
    ghost predicate TraceAgrees()
      reads this
    {
      WellFormed(trace) && Resident(trace) == Loaded(status)
    }

    function Counter(kind: Kind): int
      reads this
    {
      match kind
      case Mmapped => allocatedMmap
      case MmapUntouched => mmapUntouched
      case MmapDropped => mmapDiscarded
      case SbrkUntouched => sbrkUntouched
      case SbrkDropped => sbrkDiscarded
    }

    /** The byte counters are the page counts, in bytes. */
    ghost predicate CountersAgree()
      reads this
    {
      forall kind :: Counter(kind) == PAGE_SIZE * Count(status, kind)
    }

    ghost predicate BreakAgrees()
      reads this
    {
      BreakFits(Sbrked(status), initialBreak, currentBreak)
    }

    /** What holds even while the break is being moved. */
    ghost predicate Books()
      reads this, window
    {
      && window.Length == UNPROTECTED_SIZE && windowPointer < UNPROTECTED_SIZE
      && AllSound(status) && TraceAgrees() && CountersAgree()
    }

    ghost predicate Valid()
      reads this, window
    {
      && Books() && BreakAgrees()
      && allocatedSbrk == currentBreak - initialBreak
      && allocatedMmap + allocatedSbrk <= maxAllocated
    }

    constructor (sbrk0: nat)
      requires 0 < sbrk0
      ensures Valid() && status == map[] && trace == []
    {
      status, trace := map[], [];
      allocatedMmap, allocatedSbrk, mmapDiscarded, sbrkDiscarded, mmapUntouched, sbrkUntouched := 0, 0, 0, 0, 0, 0;
      maxAllocated, windowPointer := 0, 0;
      initialBreak, currentBreak := sbrk0, sbrk0;
      window := new nat[UNPROTECTED_SIZE](_ => 0);
    }

    method Print(tag: char, page: nat)
      requires TraceAgrees() && Acceptable(Loaded(status), Event(tag, page))
      modifies this`trace
      ensures trace == old(trace) + [Event(tag, page)]
      ensures WellFormed(trace) && Resident(trace) == ResidentStep(Loaded(status), Event(tag, page))
    {
      Extend(trace, Event(tag, page));
      trace := trace + [Event(tag, page)];
    }

    /** One new page enters the map. */
    method TrackPage(tag: char, page: nat, s: Status)
      requires TraceAgrees() && AllSound(status)
      requires page !in status && Sound(page, s) && IsMap(tag) && s.residency == OnDemand
      modifies this`status, this`trace
      ensures TraceAgrees() && AllSound(status)
      ensures trace == old(trace) + [Event(tag, page)]
      ensures status == old(status)[page := s]
      ensures forall kind :: Count(status, kind) == Count(old(status), kind) + One(s, kind)
    {
      hide WellFormed, Resident;
      CountsAdd(status, page, s);
      SetPage(status, page, s);
      Print(tag, page);
      status := status[page := s];
    }

    /** The loop of `mmap` and of `addPagesSbrked`. */
    method TrackPages(tag: char, start: nat, length: nat, s: Status)
      requires TraceAgrees() && AllSound(status)
      requires start % PAGE_SIZE == 0 && 0 < start && length % PAGE_SIZE == 0
      requires IsMap(tag) && s.residency == OnDemand && !s.currReadable && !s.currWritable
      requires PagesIn(start, length) !! status.Keys
      modifies this`status, this`trace
      ensures TraceAgrees() && AllSound(status)
      ensures trace == old(trace) + Lines(tag, start, length / PAGE_SIZE)
      ensures status == Tracked(old(status), start, length / PAGE_SIZE, s)
      ensures forall kind :: PAGE_SIZE * Count(status, kind)
                == PAGE_SIZE * Count(old(status), kind) + if Is(s, kind) then length else 0
    {
      hide WellFormed, Resident;
      var mapped, n := 0, 0;
      while mapped < length
        invariant mapped == n * PAGE_SIZE <= length
        invariant TraceAgrees() && AllSound(status)
        invariant trace == old(trace) + Lines(tag, start, n)
        invariant status == Tracked(old(status), start, n, s)
        invariant forall kind :: PAGE_SIZE * Count(status, kind)
                    == PAGE_SIZE * Count(old(status), kind) + if Is(s, kind) then mapped else 0
      {
        TrackedAt(old(status), start, n, s, PageAt(start, n));
        NextPage(PageAt(start, n), start, n);
        TrackPage(tag, start + mapped, s);
        mapped, n := mapped + PAGE_SIZE, n + 1;
      }
    }

    /** One page leaves the map. */
    method ErasePage(page: nat)
      requires TraceAgrees() && AllSound(status) && page in status
      modifies this`status, this`trace
      ensures TraceAgrees() && AllSound(status)
      ensures trace == old(trace) + [Event('U', page)]
      ensures status == old(status) - {page}
      ensures forall kind :: Count(status, kind) == Count(old(status), kind) - One(old(status)[page], kind)
    {
      hide WellFormed, Resident;
      CountsRemove(status, page);
      Print('U', page);
      status := status - {page};
      assert Loaded(status) == Loaded(old(status)) - {page};
    }

    /** The status of a tracked page changes, and the trace says how. */
    method UpdatePage(page: nat, s: Status, tag: char)
      requires AllSound(status) && page in status && Sound(page, s) && s.mapping == status[page].mapping
      requires WellFormed(trace) && Resident(trace) == ResidentStep(Loaded(status), Event(tag, page))
      requires if IsTouch(tag) then s.residency == InMemory else IsDrop(tag) && s.residency != InMemory
      modifies this`status
      ensures TraceAgrees() && AllSound(status)
      ensures status == old(status)[page := s] && Sbrked(status) == Sbrked(old(status))
      ensures forall kind :: Count(status, kind)
                == Count(old(status), kind) - One(old(status)[page], kind) + One(s, kind)
    {
      hide WellFormed, Resident;
      CountsChange(status, page, s);
      SetPage(status, page, s);
      status := status[page := s];
    }

    /** The protection bits of a tracked page change: nothing else depends on them. */
    method ProtectPage(page: nat, s: Status)
      requires TraceAgrees() && AllSound(status) && page in status && Sound(page, s)
      requires s.mapping == status[page].mapping && s.residency == status[page].residency
      modifies this`status
      ensures TraceAgrees() && AllSound(status)
      ensures status == old(status)[page := s] && Sbrked(status) == Sbrked(old(status))
      ensures forall kind :: Count(status, kind) == Count(old(status), kind)
    {
      hide WellFormed, Resident;
      CountsChange(status, page, s);
      SetPage(status, page, s);
      status := status[page := s];
    }

    /** `removePageRangeUnprotectedWindow`. */
    method RemoveFromWindow(start: nat, length: nat)
      requires window.Length == UNPROTECTED_SIZE
      modifies window
      ensures forall i :: 0 <= i < UNPROTECTED_SIZE ==>
        window[i] == if start <= old(window[i]) < start + length then 0 else old(window[i])
    {
      for index := 0 to UNPROTECTED_SIZE
        invariant forall i :: index <= i < UNPROTECTED_SIZE ==> window[i] == old(window[i])
        invariant forall i :: 0 <= i < index ==>
          window[i] == if start <= old(window[i]) < start + length then 0 else old(window[i])
      {
        var page := window[index];
        if page >= start && page < start + length {
          window[index] := 0;
        }
      }
    }

    /** The pages of a new mapping and the counters of mmapped pages. */
    method AddMapping(rv: nat, bytes: nat, tag: char, s: Status)
      requires Valid() && rv % PAGE_SIZE == 0 && 0 < rv && bytes % PAGE_SIZE == 0
      requires PagesIn(rv, bytes) !! status.Keys
      requires IsMap(tag) && s.residency == OnDemand && !s.currReadable && !s.currWritable && !s.mapping.SbrkAnon?
      modifies this
      ensures Valid()
      ensures status == Tracked(old(status), rv, bytes / PAGE_SIZE, s)
      ensures trace == old(trace) + Lines(tag, rv, bytes / PAGE_SIZE)
      ensures maxAllocated == Max(old(maxAllocated), allocatedMmap + allocatedSbrk)
    {
      hide WellFormed, Resident;
      TrackPages(tag, rv, bytes, s);
      TrackedSbrk(old(status), rv, bytes / PAGE_SIZE, s);
      allocatedMmap := allocatedMmap + bytes;
      mmapUntouched := mmapUntouched + bytes;
      maxAllocated := Max(maxAllocated, allocatedMmap + allocatedSbrk);
    }

    /** `mmap` returned `rv`: the pages of the new mapping are tracked as untouched. */
    method Mmap(rv: nat, length: nat, anonymous: bool, isPrivate: bool, readable: bool, writable: bool)
      requires Valid() && rv % PAGE_SIZE == 0
      requires rv != 0 && length != 0x801000 ==> PagesIn(rv, RoundUp(length)) !! status.Keys
      modifies this
      ensures Valid()
      ensures rv == 0 || length == 0x801000 ==> status == old(status) && trace == old(trace)
      ensures rv != 0 && length != 0x801000 ==>
        var mapping := if anonymous then MmapAnon else if isPrivate then MmapPrivate else MmapShared;
        && status == Tracked(old(status), rv, RoundUp(length) / PAGE_SIZE,
                             Status(mapping, OnDemand, readable, writable, false, false))
        && trace == old(trace)
                    + Lines(if anonymous then 'A' else if isPrivate then 'P' else 'S', rv, RoundUp(length) / PAGE_SIZE)
      ensures window[..] == old(window[..])
      ensures maxAllocated == if rv == 0 || length == 0x801000 then old(maxAllocated)
                              else if old(maxAllocated) < allocatedMmap + allocatedSbrk then allocatedMmap + allocatedSbrk
                              else old(maxAllocated)
    {
      if rv != 0 && length != 0x801000 {
        var mapping, tag := MmapShared, 'S';
        if anonymous {
          mapping, tag := MmapAnon, 'A';
        } else if isPrivate {
          mapping, tag := MmapPrivate, 'P';
        }
        AddMapping(rv, RoundUp(length), tag, Status(mapping, OnDemand, readable, writable, false, false));
      }
    }

    /** `munmap`: every page of the range leaves the map with one 'U' line, whatever its residency. */
    method Munmap(start: nat, length: nat, rv: int)
      requires Valid() && start % PAGE_SIZE == 0
      requires rv == 0 && length != 0x801000 ==> PagesIn(start, RoundUp(length)) <= status.Keys - Sbrked(status)
      modifies this, window
      ensures Valid()
      ensures rv != 0 || length == 0x801000 ==> status == old(status) && trace == old(trace)
      ensures rv == 0 && length != 0x801000 ==>
        && status == Untracked(old(status), start, RoundUp(length) / PAGE_SIZE)
        && trace == old(trace) + Lines('U', start, RoundUp(length) / PAGE_SIZE)
      ensures maxAllocated == old(maxAllocated)
      ensures forall i :: 0 <= i < UNPROTECTED_SIZE ==>
        window[i] == if rv == 0 && length != 0x801000 && start <= old(window[i]) < start + RoundUp(length) then 0 else old(window[i])
    {
      if rv == 0 && length != 0x801000 {
        RemoveMapping(start, RoundUp(length));
        RemoveFromWindow(start, RoundUp(length));
      }
    }

    /** One page of an unmapped range: its untouched or discarded bytes are no longer counted. */
    method UnmapPage(page: nat)
      requires TraceAgrees() && AllSound(status) && page in status && !status[page].mapping.SbrkAnon?
      modifies this`status, this`trace, this`mmapUntouched, this`mmapDiscarded
      ensures TraceAgrees() && AllSound(status)
      ensures trace == old(trace) + [Event('U', page)]
      ensures status == old(status) - {page}
      ensures forall kind :: Counter(kind) - PAGE_SIZE * Count(status, kind)
                == old(Counter(kind)) - PAGE_SIZE * Count(old(status), kind) + if kind == Mmapped then PAGE_SIZE else 0
    {
      hide WellFormed, Resident;
      match status[page].residency {
        case OnDemand =>
          mmapUntouched := mmapUntouched - PAGE_SIZE;
        case Discarded =>
          mmapDiscarded := mmapDiscarded - PAGE_SIZE;
        case InMemory =>
      }
      ErasePage(page);
    }

    method RemoveMapping(start: nat, bytes: nat)
      requires Valid() && start % PAGE_SIZE == 0 && bytes % PAGE_SIZE == 0
      requires PagesIn(start, bytes) <= status.Keys - Sbrked(status)
      modifies this`status, this`trace, this`mmapUntouched, this`mmapDiscarded, this`allocatedMmap
      ensures Valid()
      ensures status == Untracked(old(status), start, bytes / PAGE_SIZE)
      ensures trace == old(trace) + Lines('U', start, bytes / PAGE_SIZE)
    {
      hide WellFormed, Resident, Count, Loaded, BreakFits;
      var unmapped, n := 0, 0;
      while unmapped < bytes
        invariant unmapped == n * PAGE_SIZE <= bytes
        invariant TraceAgrees() && AllSound(status)
        invariant trace == old(trace) + Lines('U', start, n)
        invariant status == Untracked(old(status), start, n)
        invariant forall kind :: Counter(kind) == PAGE_SIZE * Count(status, kind) + if kind == Mmapped then unmapped else 0
        invariant allocatedMmap == old(allocatedMmap)
      {
        UntrackedAt(old(status), start, n, PageAt(start, n));
        NextPage(PageAt(start, n), start, n);
        assert start + unmapped in PagesIn(start, bytes);
        UnmapPage(start + unmapped);
        unmapped, n := unmapped + PAGE_SIZE, n + 1;
      }
      allocatedMmap := allocatedMmap - bytes;
      UntrackedSbrk(old(status), start, n);
    }

    /** `madvise`: pages in memory become discarded; each page of the range gets a 'D' line. */
    method Madvise(start: nat, length: nat, dontNeed: bool, rv: int)
      requires Valid() && start % PAGE_SIZE == 0
      requires rv == 0 && dontNeed ==> PagesIn(start, RoundUp(length)) <= status.Keys
      modifies this, window
      ensures Valid()
      ensures rv != 0 || !dontNeed ==> status == old(status) && trace == old(trace)
      ensures rv == 0 && dontNeed ==>
        && status == Changed(old(status), start, RoundUp(length) / PAGE_SIZE, Dropped)
        && trace == old(trace) + Lines('D', start, RoundUp(length) / PAGE_SIZE)
      ensures status.Keys == old(status).Keys
      ensures forall p :: p in status && !(rv == 0 && dontNeed && PageRange(p, start, RoundUp(length))) ==> status[p] == old(status)[p]
      ensures forall p :: p in status && rv == 0 && dontNeed && PageRange(p, start, RoundUp(length)) ==>
        && status[p].residency == (if old(status)[p].residency == InMemory then Discarded else old(status)[p].residency)
        && !status[p].currReadable && !status[p].currWritable && status[p].mapping == old(status)[p].mapping
        && status[p].origReadable == old(status)[p].origReadable && status[p].origWritable == old(status)[p].origWritable
      ensures maxAllocated == old(maxAllocated)
      ensures forall i :: 0 <= i < UNPROTECTED_SIZE ==>
        window[i] == if rv == 0 && dontNeed && start <= old(window[i]) < start + RoundUp(length) then 0 else old(window[i])
    {
      if rv == 0 && dontNeed {
        ChangedPages(status, start, RoundUp(length), Dropped);
        DropPages(start, RoundUp(length));
        RemoveFromWindow(start, RoundUp(length));
      }
    }

    /** One discarded page: its bytes are counted as discarded if it was in memory. */
    method DropPage(page: nat)
      requires TraceAgrees() && AllSound(status) && page in status && CountersAgree()
      modifies this`status, this`trace, this`mmapDiscarded, this`sbrkDiscarded
      ensures TraceAgrees() && AllSound(status) && CountersAgree()
      ensures trace == old(trace) + [Event('D', page)]
      ensures status == old(status)[page := Dropped(old(status)[page])]
    {
      hide WellFormed, Resident;
      Print('D', page);
      var s := status[page];
      UpdatePage(page, Dropped(s), 'D');
      if s.residency == InMemory {
        if s.mapping.SbrkAnon? {
          sbrkDiscarded := sbrkDiscarded + PAGE_SIZE;
        } else {
          mmapDiscarded := mmapDiscarded + PAGE_SIZE;
        }
      }
    }

    method DropPages(start: nat, bytes: nat)
      requires Valid() && start % PAGE_SIZE == 0 && bytes % PAGE_SIZE == 0
      requires PagesIn(start, bytes) <= status.Keys
      modifies this`status, this`trace, this`mmapDiscarded, this`sbrkDiscarded
      ensures Valid()
      ensures status == Changed(old(status), start, bytes / PAGE_SIZE, Dropped)
      ensures trace == old(trace) + Lines('D', start, bytes / PAGE_SIZE)
    {
      hide WellFormed, Resident, Count, Loaded, Sbrked, BreakFits;
      var advised, n := 0, 0;
      while advised < bytes
        invariant advised == n * PAGE_SIZE <= bytes
        invariant TraceAgrees() && AllSound(status) && CountersAgree()
        invariant trace == old(trace) + Lines('D', start, n)
        invariant status == Changed(old(status), start, n, Dropped)
      {
        ChangedAt(old(status), start, n, Dropped, PageAt(start, n));
        assert start + advised in PagesIn(start, bytes);
        DropPage(start + advised);
        advised, n := advised + PAGE_SIZE, n + 1;
      }
      ChangedSbrk(old(status), start, n, Dropped);
    }

    /** `mprotect`: the program's own protection of the tracked pages changes, and the next access to each will fault. */
    method Mprotect(addr: nat, len: nat, readable: bool, writable: bool)
      requires Valid() && addr % PAGE_SIZE == 0
      modifies this`status
      ensures Valid() && trace == old(trace)
      ensures status == Changed(old(status), addr, RoundUp(len) / PAGE_SIZE, Protecting(readable, writable))
      ensures status.Keys == old(status).Keys
      ensures forall p :: p in status && !PageRange(p, addr, RoundUp(len)) ==> status[p] == old(status)[p]
      ensures forall p :: p in status && PageRange(p, addr, RoundUp(len)) ==>
        && status[p].origReadable == readable && status[p].origWritable == writable
        && !status[p].currReadable && !status[p].currWritable
        && status[p].mapping == old(status)[p].mapping && status[p].residency == old(status)[p].residency
    {
      ReprotectPages(addr, RoundUp(len), readable, writable);
      ChangedPages(old(status), addr, RoundUp(len), Protecting(readable, writable));
    }

    method ReprotectPages(addr: nat, bytes: nat, readable: bool, writable: bool)
      requires Valid() && addr % PAGE_SIZE == 0 && bytes % PAGE_SIZE == 0
      modifies this`status
      ensures Valid() && trace == old(trace)
      ensures status == Changed(old(status), addr, bytes / PAGE_SIZE, Protecting(readable, writable))
    {
      hide WellFormed, Resident, Count, Loaded, Sbrked, BreakFits;
      var mprotected, n := 0, 0;
      while mprotected < bytes
        invariant mprotected == n * PAGE_SIZE <= bytes
        invariant TraceAgrees() && AllSound(status) && CountersAgree()
        invariant trace == old(trace)
        invariant status == Changed(old(status), addr, n, Protecting(readable, writable))
      {
        var page := addr + mprotected;
        if page in status {
          ProtectPage(page, Protecting(readable, writable)(status[page]));
        }
        mprotected, n := mprotected + PAGE_SIZE, n + 1;
      }
      ChangedSbrk(old(status), addr, n, Protecting(readable, writable));
    }

    /** `reprotectBuf`: the pages of a buffer the kernel has written are closed again. */
    method ReprotectBuf(buf: nat, size: nat)
      requires Valid()
      requires PagesIn(buf / PAGE_SIZE * PAGE_SIZE, RoundUp(buf + size) - buf / PAGE_SIZE * PAGE_SIZE) <= status.Keys
      modifies this`status
      ensures Valid() && trace == old(trace)
      ensures var start := buf / PAGE_SIZE * PAGE_SIZE;
        status == Changed(old(status), start, (RoundUp(buf + size) - start) / PAGE_SIZE, Closed)
      ensures status.Keys == old(status).Keys
      ensures var start := buf / PAGE_SIZE * PAGE_SIZE;
        forall p :: p in status ==>
          if PageRange(p, start, RoundUp(buf + size) - start) then
            status[p] == old(status)[p].(currReadable := false, currWritable := false)
          else status[p] == old(status)[p]
    {
      var start := buf / PAGE_SIZE * PAGE_SIZE;
      ChangedPages(status, start, RoundUp(buf + size) - start, Closed);
      ClosePages(start, RoundUp(buf + size) - start);
    }

    method ClosePages(start: nat, bytes: nat)
      requires Valid() && start % PAGE_SIZE == 0 && bytes % PAGE_SIZE == 0 && PagesIn(start, bytes) <= status.Keys
      modifies this`status
      ensures Valid()
      ensures status == Changed(old(status), start, bytes / PAGE_SIZE, Closed)
    {
      hide WellFormed, Resident, Count, Loaded, Sbrked, BreakFits;
      var offset, n := 0, 0;
      while offset < bytes
        invariant offset == n * PAGE_SIZE <= bytes
        invariant TraceAgrees() && AllSound(status) && CountersAgree()
        invariant status == Changed(old(status), start, n, Closed)
      {
        ChangedAt(old(status), start, n, Closed, PageAt(start, n));
        assert start + offset in PagesIn(start, bytes);
        ProtectPage(start + offset, Closed(status[start + offset]));
        offset, n := offset + PAGE_SIZE, n + 1;
      }
      ChangedSbrk(old(status), start, n, Closed);
    }

    /** `addPagesSbrked`. */
    method AddPagesSbrked(start: nat, length: nat)
      requires Books() && start % PAGE_SIZE == 0 && 0 < start && length % PAGE_SIZE == 0
      requires PagesIn(start, length) !! status.Keys
      modifies this
      ensures Books() && unchanged(`initialBreak, `currentBreak)
      ensures status == Tracked(old(status), start, length / PAGE_SIZE, FreshSbrked())
      ensures trace == old(trace) + Lines('A', start, length / PAGE_SIZE)
      ensures forall p: nat :: p in status <==> p in old(status) || PageRange(p, start, length)
      ensures forall p :: p in status ==>
        if PageRange(p, start, length) then
          && status[p].mapping == SbrkAnon && status[p].residency == OnDemand
          && status[p].origReadable && status[p].origWritable && !status[p].currReadable && !status[p].currWritable
        else status[p] == old(status)[p]
      ensures allocatedSbrk == old(allocatedSbrk) + length && allocatedMmap == old(allocatedMmap)
      ensures maxAllocated == Max(old(maxAllocated), allocatedMmap + allocatedSbrk)
    {
      hide WellFormed, Resident;
      TrackedPages(status, start, length, FreshSbrked());
      TrackPages('A', start, length, FreshSbrked());
      allocatedSbrk := allocatedSbrk + length;
      sbrkUntouched := sbrkUntouched + length;
      maxAllocated := Max(maxAllocated, allocatedMmap + allocatedSbrk);
    }

    /** One page below the old break: its untouched or discarded bytes are no longer counted. */
    method UnbrkPage(page: nat)
      requires TraceAgrees() && AllSound(status) && page in status && status[page].mapping.SbrkAnon? && CountersAgree()
      modifies this`status, this`trace, this`sbrkUntouched, this`sbrkDiscarded
      ensures TraceAgrees() && AllSound(status) && CountersAgree()
      ensures trace == old(trace) + [Event('U', page)]
      ensures status == old(status) - {page}
    {
      hide WellFormed, Resident;
      match status[page].residency {
        case OnDemand =>
          sbrkUntouched := sbrkUntouched - PAGE_SIZE;
        case Discarded =>
          sbrkDiscarded := sbrkDiscarded - PAGE_SIZE;
        case InMemory =>
      }
      ErasePage(page);
    }

    /** `removePagesSbrked`. */
    method RemovePagesSbrked(start: nat, length: nat)
      requires Books() && start % PAGE_SIZE == 0 && length % PAGE_SIZE == 0
      requires PagesIn(start, length) <= Sbrked(status)
      modifies this, window
      ensures Books() && unchanged(`initialBreak, `currentBreak, `maxAllocated)
      ensures status == Untracked(old(status), start, length / PAGE_SIZE)
      ensures trace == old(trace) + Lines('U', start, length / PAGE_SIZE)
      ensures allocatedSbrk == old(allocatedSbrk) - length && allocatedMmap == old(allocatedMmap)
      ensures forall i :: 0 <= i < UNPROTECTED_SIZE ==>
        window[i] == if start <= old(window[i]) < start + length then 0 else old(window[i])
    {
      hide WellFormed, Resident;
      var offset, n := 0, 0;
      while offset < length
        invariant offset == n * PAGE_SIZE <= length
        invariant allocatedMmap == old(allocatedMmap) && window[..] == old(window[..])
        invariant Books()
        invariant trace == old(trace) + Lines('U', start, n)
        invariant status == Untracked(old(status), start, n)
        invariant unchanged(`allocatedSbrk, `maxAllocated, `initialBreak, `currentBreak)
      {
        UntrackedAt(old(status), start, n, PageAt(start, n));
        NextPage(PageAt(start, n), start, n);
        assert start + offset in PagesIn(start, length);
        UnbrkPage(start + offset);
        offset, n := offset + PAGE_SIZE, n + 1;
      }
      allocatedSbrk := allocatedSbrk - length;
      RemoveFromWindow(start, length);
    }

    method RecordBreak()
      modifies this`allocatedSbrk, this`maxAllocated
      ensures allocatedSbrk == currentBreak - initialBreak
      ensures maxAllocated == Max(old(maxAllocated), allocatedMmap + allocatedSbrk)
    {
      allocatedSbrk := currentBreak - initialBreak;
      maxAllocated := Max(maxAllocated, allocatedMmap + allocatedSbrk);
    }

    /** The end of the sbrk pages moves from `oldEnd` to `newEnd`. */
    method MovePageEnd(oldEnd: nat, newEnd: nat, ghost first: nat)
      requires Books() && oldEnd % PAGE_SIZE == 0 && newEnd % PAGE_SIZE == 0
      requires 0 < first <= oldEnd && first <= newEnd && Sbrked(status) == PagesIn(first, oldEnd - first)
      requires oldEnd < newEnd ==> PagesIn(oldEnd, newEnd - oldEnd) !! status.Keys
      modifies this, window
      ensures Books() && unchanged(`initialBreak, `currentBreak)
      ensures Sbrked(status) == PagesIn(first, newEnd - first)
      ensures allocatedSbrk == old(allocatedSbrk) + (newEnd - oldEnd) && allocatedMmap == old(allocatedMmap)
      ensures maxAllocated == if oldEnd < newEnd then Max(old(maxAllocated), allocatedMmap + allocatedSbrk) else old(maxAllocated)
      ensures forall i :: 0 <= i < UNPROTECTED_SIZE ==> window[i] == if newEnd <= old(window[i]) < oldEnd then 0 else old(window[i])
      ensures if oldEnd <= newEnd then
          && status == Tracked(old(status), oldEnd, (newEnd - oldEnd) / PAGE_SIZE, FreshSbrked())
          && trace == old(trace) + Lines('A', oldEnd, (newEnd - oldEnd) / PAGE_SIZE)
        else
          && status == Untracked(old(status), newEnd, (oldEnd - newEnd) / PAGE_SIZE)
          && trace == old(trace) + Lines('U', newEnd, (oldEnd - newEnd) / PAGE_SIZE)
    {
      hide WellFormed, Resident;
      if newEnd > oldEnd {
        PagesInSplit(first, oldEnd, newEnd);
        AddPagesSbrked(oldEnd, newEnd - oldEnd);
        TrackedSbrk(old(status), oldEnd, (newEnd - oldEnd) / PAGE_SIZE, FreshSbrked());
      } else if newEnd < oldEnd {
        PagesInSplit(first, newEnd, oldEnd);
        RemovePagesSbrked(newEnd, oldEnd - newEnd);
        UntrackedSbrk(old(status), newEnd, (oldEnd - newEnd) / PAGE_SIZE);
      }
    }

    /** `handleNewBreak`: whole pages enter or leave at the top of the data segment. */
    method HandleNewBreak(newBreak: nat)
      requires Valid() && initialBreak <= newBreak
      requires RoundUp(currentBreak) < RoundUp(newBreak) ==>
        PagesIn(RoundUp(currentBreak), RoundUp(newBreak) - RoundUp(currentBreak)) !! status.Keys
      modifies this, window
      ensures Valid() && currentBreak == newBreak && initialBreak == old(initialBreak)
      ensures var oldEnd, newEnd := RoundUp(old(currentBreak)), RoundUp(newBreak);
        if oldEnd <= newEnd then
          && status == Tracked(old(status), oldEnd, (newEnd - oldEnd) / PAGE_SIZE, FreshSbrked())
          && trace == old(trace) + Lines('A', oldEnd, (newEnd - oldEnd) / PAGE_SIZE)
        else
          && status == Untracked(old(status), newEnd, (oldEnd - newEnd) / PAGE_SIZE)
          && trace == old(trace) + Lines('U', newEnd, (oldEnd - newEnd) / PAGE_SIZE)
      ensures var oldEnd, newEnd := RoundUp(old(currentBreak)), RoundUp(newBreak);
        forall i :: 0 <= i < UNPROTECTED_SIZE ==> window[i] == if newEnd <= old(window[i]) < oldEnd then 0 else old(window[i])
      // while whole pages enter, the unrounded total grows by their size, and it counts as allocated
      ensures var oldEnd, newEnd := RoundUp(old(currentBreak)), RoundUp(newBreak);
        var before, now := old(allocatedMmap) + old(allocatedSbrk), old(allocatedMmap) + (newBreak - initialBreak);
        && allocatedMmap == old(allocatedMmap)
        && maxAllocated == Max(if oldEnd < newEnd then Max(old(maxAllocated), before + (newEnd - oldEnd)) else old(maxAllocated), now)
    {
      hide WellFormed, Resident;
      var oldEnd, newEnd := RoundUp(currentBreak), RoundUp(newBreak);
      RoundUpMonotone(initialBreak, newBreak);
      currentBreak := newBreak;
      MovePageEnd(oldEnd, newEnd, RoundUp(initialBreak));
      RecordBreak();
    }

    /** The byte counts of a page that is about to be in memory. */
    method CountBroughtIn(page: nat)
      requires page in status && CountersAgree()
      modifies this`sbrkUntouched, this`mmapUntouched, this`sbrkDiscarded, this`mmapDiscarded
      ensures forall kind :: Counter(kind) == PAGE_SIZE * Count(status, kind)
                - PAGE_SIZE * One(status[page], kind) + PAGE_SIZE * One(status[page].(residency := InMemory), kind)
    {
      var sbrk := status[page].mapping.SbrkAnon?;
      match status[page].residency {
        case OnDemand =>
          if sbrk {
            sbrkUntouched := sbrkUntouched - PAGE_SIZE;
          } else {
            mmapUntouched := mmapUntouched - PAGE_SIZE;
          }
        case Discarded =>
          if sbrk {
            sbrkDiscarded := sbrkDiscarded - PAGE_SIZE;
          } else {
            mmapDiscarded := mmapDiscarded - PAGE_SIZE;
          }
        case InMemory =>
      }
    }

    /** The line for an access, the page's new status and the byte counts that go with it. */
    method LoadPage(page: nat, s: Status, tag: char)
      requires Books() && page in status && Sound(page, s)
      requires s.mapping == status[page].mapping && s.residency == InMemory
      requires IsTouch(tag) && (tag == 'R' <==> status[page].residency != InMemory)
      modifies this`status, this`trace, this`sbrkUntouched, this`mmapUntouched, this`sbrkDiscarded, this`mmapDiscarded
      ensures Books()
      ensures status == old(status)[page := s] && Sbrked(status) == Sbrked(old(status))
      ensures trace == old(trace) + [Event(tag, page)]
    {
      hide WellFormed, Resident;
      CountBroughtIn(page);
      Print(tag, page);
      UpdatePage(page, s, tag);
    }

    /** The page enters the window of open pages; the page whose slot it takes is closed. */
    method AdvanceWindow(page: nat)
      requires Books()
      modifies this`status, this`windowPointer, window
      ensures Books() && Sbrked(status) == Sbrked(old(status))
      ensures status == Evicted(old(status), old(window[windowPointer]))
      ensures window[old(windowPointer)] == page && windowPointer == (old(windowPointer) + 1) % UNPROTECTED_SIZE
      ensures forall i :: 0 <= i < UNPROTECTED_SIZE && i != old(windowPointer) ==> window[i] == old(window[i])
    {
      hide WellFormed, Resident;
      var evicted := window[windowPointer];
      if evicted != 0 && evicted in status {
        ProtectPage(evicted, Closed(status[evicted]));
      }
      window[windowPointer] := page;
      windowPointer := if windowPointer + 1 == UNPROTECTED_SIZE then 0 else windowPointer + 1;
    }

    /**
     * `realSigsegvSigaction`: the first access to a page after it was closed is let through for reading, the next one
     * also for writing. The line says 'R' for a page that had to be brought in, else 'r' or 'w'; never 'W'. Opening a
     * page closes the one whose window slot it takes, last of all; see `OpenAfterFault`.
     */
    method Fault(page: nat)
      requires Valid() && page in status
      requires !status[page].currWritable
      requires if status[page].currReadable then status[page].origWritable else status[page].origReadable
      modifies this`status, this`trace, this`windowPointer, window
      modifies this`sbrkUntouched, this`mmapUntouched, this`sbrkDiscarded, this`mmapDiscarded
      ensures Valid()
      ensures var was := old(status[page]);
        trace == old(trace)
          + [Event(if was.currReadable then 'w' else if was.residency == InMemory then 'r' else 'R', page)]
      ensures var after := old(status)[page := Opened(old(status[page]))];
        status == if old(status[page]).currReadable then after else Evicted(after, old(window[windowPointer]))
      // a second fault opens the page for writing
      ensures old(status[page]).currReadable ==>
        && status[page].currReadable && status[page].currWritable && status[page].residency == InMemory
        && status[page].mapping == old(status[page]).mapping
        && status[page].origReadable == old(status[page]).origReadable
        && status[page].origWritable == old(status[page]).origWritable
        && forall p :: p in status && p != page ==> status[p] == old(status)[p]
      // a first one opens it for reading, unless the page whose slot it takes is the page itself
      ensures !old(status[page]).currReadable ==>
        && (status[page].currReadable <==> old(window[windowPointer]) != page) && !status[page].currWritable
        && status[page].residency == InMemory && status[page].mapping == old(status[page]).mapping
        && status[page].origReadable == old(status[page]).origReadable
        && status[page].origWritable == old(status[page]).origWritable
        && forall p :: p in status && p != page ==>
             if p == old(window[windowPointer]) then status[p] == old(status)[p].(currReadable := false, currWritable := false)
             else status[p] == old(status)[p]
      ensures if old(status[page]).currReadable then windowPointer == old(windowPointer) && window[..] == old(window[..])
        else
          && window[old(windowPointer)] == page && windowPointer == (old(windowPointer) + 1) % UNPROTECTED_SIZE
          && forall i :: 0 <= i < UNPROTECTED_SIZE && i != old(windowPointer) ==> window[i] == old(window[i])
    {
      hide WellFormed, Resident;
      var zeroOnDemand, s := status[page].residency != InMemory, status[page].(residency := InMemory);
      if !s.currReadable {
        LoadPage(page, s.(currReadable := true), if zeroOnDemand then 'R' else 'r');
        AdvanceWindow(page);
      } else {
        LoadPage(page, s.(currWritable := true), if zeroOnDemand then 'W' else 'w');
      }
    }
  }

  /** A page after a fault on it: in memory, and open for reading, or if it was so already, for writing. */
  function Opened(s: Status): Status {
    s.(residency := InMemory, currReadable := true, currWritable := s.currReadable)
  }

  /** The page whose window slot is reused is closed if it is still tracked. */
  function Evicted(m: StatusMap, page: nat): StatusMap {
    if page != 0 && page in m then m[page := Closed(m[page])] else m
  }

  /**
   * After a first access the page is open exactly if the slot it took did not hold it already. A page that was closed
   * while it stayed in the window can so be closed again by the very fault that opened it, and the access faults again.
   */
  lemma OpenAfterFault(m: StatusMap, page: nat, evicted: nat)
    requires page in m && page != 0 && !m[page].currReadable
    ensures var m' := Evicted(m[page := Opened(m[page])], evicted);
      && page in m' && (m'[page].currReadable <==> evicted != page) && !m'[page].currWritable
      && m'[page].residency == InMemory && m'[page].mapping == m[page].mapping
      && m'[page].origReadable == m[page].origReadable && m'[page].origWritable == m[page].origWritable
      && m'.Keys == m.Keys
      && forall p :: p in m && p != page ==> m'[p] == if p == evicted && p != 0 then Closed(m[p]) else m[p]
  {}

  /** A second fault in a row: the slot after the one the page just took holds it too, so the same line is written again. */
  method FaultTwice(tracer: MemTracer, page: nat)
    requires tracer.Valid() && page in tracer.status && tracer.status[page].origReadable
    requires !tracer.status[page].currReadable && !tracer.status[page].currWritable && tracer.status[page].residency == InMemory
    requires tracer.window[tracer.windowPointer] == page
    modifies tracer, tracer.window
    ensures tracer.Valid() && tracer.trace == old(tracer.trace) + [Event('r', page), Event('r', page)]
  {
    ghost var before := tracer.trace;
    tracer.Fault(page);
    tracer.Fault(page);
    assert before + [Event('r', page)] + [Event('r', page)] == before + [Event('r', page), Event('r', page)];
  }

  lemma TrackedSbrk(m: StatusMap, start: nat, n: nat, s: Status)
    requires start % PAGE_SIZE == 0
    requires PagesIn(start, n * PAGE_SIZE) !! m.Keys
    ensures Sbrked(Tracked(m, start, n, s)) == if s.mapping.SbrkAnon? then Sbrked(m) + PagesIn(start, n * PAGE_SIZE) else Sbrked(m)
  {
    forall p: nat
      ensures p in Sbrked(Tracked(m, start, n, s))
         <==> p in Sbrked(m) || (s.mapping.SbrkAnon? && p in PagesIn(start, n * PAGE_SIZE))
    {
      TrackedAt(m, start, n, s, p);
    }
  }

  lemma UntrackedSbrk(m: StatusMap, start: nat, n: nat)
    requires start % PAGE_SIZE == 0
    ensures PagesIn(start, n * PAGE_SIZE) !! Sbrked(m) ==> Sbrked(Untracked(m, start, n)) == Sbrked(m)
    ensures Sbrked(Untracked(m, start, n)) == Sbrked(m) - PagesIn(start, n * PAGE_SIZE)
  {
    forall p: nat
      ensures p in Sbrked(Untracked(m, start, n)) <==> p in Sbrked(m) && p !in PagesIn(start, n * PAGE_SIZE)
    {
      UntrackedAt(m, start, n, p);
    }
  }

  lemma ChangedSbrk(m: StatusMap, start: nat, n: nat, change: Status -> Status)
    requires start % PAGE_SIZE == 0 && forall s :: change(s).mapping == s.mapping
    ensures Sbrked(Changed(m, start, n, change)) == Sbrked(m)
  {
    forall p: nat
      ensures p in Sbrked(Changed(m, start, n, change)) <==> p in Sbrked(m)
    {
      ChangedAt(m, start, n, change, p);
    }
  }

  lemma RoundUpMonotone(a: nat, b: nat)
    requires a <= b
    ensures RoundUp(a) <= RoundUp(b)
  {}

  lemma PagesInSplit(a: nat, b: nat, c: nat)
    requires a <= b <= c
    ensures PagesIn(a, c - a) == PagesIn(a, b - a) + PagesIn(b, c - b)
    ensures PagesIn(a, b - a) == PagesIn(a, c - a) - PagesIn(b, c - b)
  {}
}

/** The tracer and the simulator together. */
module TracedSimulation {
  import opened PageTraces
  import opened PageStatus
  import opened MemTracing
  import opened LruStack
  import opened LruSimulation

  /**
   * Whatever calls and faults the tracer has seen, its trace is simulated without an error or an exit, and the pages
   * on the stack are the pages the tracer has in memory.
   */
  method Replay(tracer: MemTracer) returns (simulator: LruSimulator, exited: bool)
    requires tracer.Valid()
    ensures !exited && simulator.numErrors == 0
    ensures PageSet(simulator.queue) == Loaded(tracer.status)
    ensures simulator.queue == StackRun(tracer.trace) && |simulator.queue| == Peak(tracer.trace)
  {
    simulator := new LruSimulator();
    exited := simulator.Run(tracer.trace);
    RunKeepsPages(tracer.trace);
    StackLengthIsPeak(tracer.trace);
  }
}
