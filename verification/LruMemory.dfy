/** Page traces and the memories they are meant for: the reference side of the LRU simulators. */
module PageTraces {

  /** One line of a trace file: a tag and a page address. */
  datatype Event = Event(tag: char, page: nat)

  predicate IsMap(tag: char) { tag == 'A' || tag == 'P' || tag == 'S' }

  predicate IsDrop(tag: char) { tag == 'U' || tag == 'D' }

  predicate IsReuse(tag: char) { tag == 'r' || tag == 'w' }

  predicate IsTouch(tag: char) { tag == 'R' || IsReuse(tag) }

  /** The pages in memory after `trace`, when memory is unlimited. */
  ghost function Resident(trace: seq<Event>): set<nat> {
    if trace == [] then {} else ResidentStep(Resident(trace[..|trace| - 1]), trace[|trace| - 1])
  }

  ghost function ResidentStep(resident: set<nat>, e: Event): set<nat> {
    if IsTouch(e.tag) then resident + {e.page}
    else if IsDrop(e.tag) then resident - {e.page}
    else resident
  }

  /** What the simulator demands of the next line: a known tag, a page address, and a tag that fits the page's state. */
  ghost predicate Acceptable(resident: set<nat>, e: Event) {
    && e.page != 0 && e.page % 1024 == 0
    && (IsMap(e.tag) || IsDrop(e.tag) || IsTouch(e.tag))
    && (IsMap(e.tag) || e.tag == 'R' ==> e.page !in resident)
    && (IsReuse(e.tag) ==> e.page in resident)
  }

  ghost predicate WellFormed(trace: seq<Event>) {
    trace == [] ||
    (WellFormed(trace[..|trace| - 1]) && Acceptable(Resident(trace[..|trace| - 1]), trace[|trace| - 1]))
  }

  /** The largest number of pages that are in memory at the same time. */
  ghost function Peak(trace: seq<Event>): nat {
    if trace == [] then 0
    else
      var before, now := Peak(trace[..|trace| - 1]), |Resident(trace)|;
      if before < now then now else before
  }

  lemma Extend(trace: seq<Event>, e: Event)
    ensures (trace + [e])[..|trace|] == trace
    ensures Resident(trace + [e]) == ResidentStep(Resident(trace), e)
    ensures WellFormed(trace + [e]) <==> WellFormed(trace) && Acceptable(Resident(trace), e)
  {
    assert (trace + [e])[..|trace + [e]| - 1] == trace;
  }
}

/** An LRU memory of `k` pages in which pages can also be invalidated. */
module LruMemory {
  import opened PageTraces
  import opened Sequences

  /** A touch: a hit moves the page to the front, a miss evicts the last page only if all `k` places are taken. */
  function Touch(mem: seq<nat>, k: nat, page: nat): seq<nat> {
    if page in mem then [page] + Without(mem, page)
    else if |mem| < k then [page] + mem
    else if k == 0 then []
    else [page] + mem[..k - 1]
  }

  function MemoryStep(mem: seq<nat>, k: nat, e: Event): seq<nat> {
    if IsTouch(e.tag) then Touch(mem, k, e.page)
    else if IsDrop(e.tag) then Without(mem, e.page)
    else mem
  }

  /** The contents of the `k`-page memory after a trace, most recently used page first. */
  function MemoryRun(trace: seq<Event>, k: nat): seq<nat> {
    if trace == [] then [] else MemoryStep(MemoryRun(trace[..|trace| - 1], k), k, trace[|trace| - 1])
  }

  /** The number of repeated accesses that miss in the `k`-page memory. */
  function MissCount(trace: seq<Event>, k: nat): nat {
    if trace == [] then 0
    else
      var before, e := trace[..|trace| - 1], trace[|trace| - 1];
      MissCount(before, k) + if IsReuse(e.tag) && e.page !in MemoryRun(before, k) then 1 else 0
  }
}
