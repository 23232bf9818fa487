/** The simulator programs around the stack: the hit histogram, the miss table and the line-by-line processing. */
module LruSimulation {
  import opened PageTraces
  import opened LruMemory
  import opened LruStack

  /** One more hit at `pos`; the vector grows to hold it. */
  function Bump(histogram: seq<nat>, pos: nat): seq<nat> {
    if pos < |histogram| then histogram[pos := histogram[pos] + 1]
    else histogram + Zeros(pos - |histogram|) + [1]
  }

  function Zeros(n: nat): (s: seq<nat>)
    ensures |s| == n && forall i :: 0 <= i < n ==> s[i] == 0
  {
    seq(n, _ => 0)
  }

  /** All hits at position `k` or further down. */
  function Tail(histogram: seq<nat>, k: nat): nat
    decreases |histogram| - k
  {
    if k >= |histogram| then 0 else histogram[k] + Tail(histogram, k + 1)
  }

  ghost function HistogramRun(trace: seq<Event>): seq<nat> {
    if trace == [] then []
    else
      var before, e := trace[..|trace| - 1], trace[|trace| - 1];
      if IsReuse(e.tag) then Bump(HistogramRun(before), Position(StackRun(before), e.page)) else HistogramRun(before)
  }

  lemma {:induction false} TailBump(histogram: seq<nat>, pos: nat, k: nat)
    ensures Tail(Bump(histogram, pos), k) == Tail(histogram, k) + if k <= pos then 1 else 0
    decreases (if |histogram| > pos then |histogram| else pos + 1) - k
  {
    var h := Bump(histogram, pos);
    if k < |h| {
      TailBump(histogram, pos, k + 1);
    }
  }

  /** The page of a repeated access is missing from the `k`-page memory exactly when its stack position is `k` or more. */
  lemma MissIsPosition(trace: seq<Event>, page: nat, k: nat)
    requires WellFormed(trace) && page in Resident(trace)
    ensures page !in MemoryRun(trace, k) <==> k <= Position(StackRun(trace), page)
  {
    var q := StackRun(trace);
    RunKeepsPages(trace);
    StackSimulatesAllSizes(trace, k);
    TopDistinct(q, Position(q, page), k);
    PagesOf(Top(q, k), page);
  }

  /** The histogram's tail from `k` counts the misses of the `k`-page memory, for every `k`. */
  lemma {:induction false} TailCountsMisses(trace: seq<Event>, k: nat)
    requires WellFormed(trace)
    ensures Tail(HistogramRun(trace), k) == MissCount(trace, k)
  {
    if trace != [] {
      var before, e := trace[..|trace| - 1], trace[|trace| - 1];
      TailCountsMisses(before, k);
      if IsReuse(e.tag) {
        MissIsPosition(before, e.page, k);
        TailBump(HistogramRun(before), Position(StackRun(before), e.page), k);
      }
    }
  }

  lemma {:induction false} TailShrinks(histogram: seq<nat>, k: nat, m: nat)
    requires k <= m
    ensures Tail(histogram, m) <= Tail(histogram, k)
    decreases m - k
  {
    if k < m {
      TailShrinks(histogram, k + 1, m);
    }
  }

  /** A larger LRU memory never misses more often, with invalidations too. */
  lemma MissesShrink(trace: seq<Event>, k: nat, m: nat)
    requires WellFormed(trace) && k <= m
    ensures MissCount(trace, m) <= MissCount(trace, k)
  {
    TailCountsMisses(trace, k);
    TailCountsMisses(trace, m);
    TailShrinks(HistogramRun(trace), k, m);
  }

  /** The histogram never outgrows the peak number of resident pages. */
  lemma {:induction false} HistogramWithinPeak(trace: seq<Event>)
    requires WellFormed(trace)
    ensures |HistogramRun(trace)| <= Peak(trace)
  {
    if trace != [] {
      var before, e := trace[..|trace| - 1], trace[|trace| - 1];
      HistogramWithinPeak(before);
      StackLengthIsPeak(before);
      RunKeepsPages(before);
    }
  }

  /** A line after which the program gives up. */
  ghost predicate Fatal(q: seq<nat>, e: Event) {
    if IsMap(e.tag) then e.page in q else !IsDrop(e.tag) && !IsTouch(e.tag)
  }

  /** A line that is reported as an error. */
  ghost predicate Reported(q: seq<nat>, e: Event) {
    Fatal(q, e) || (e.tag == 'R' && e.page in q) || (IsReuse(e.tag) && e.page !in q)
  }

  lemma ReportedMeans(q: seq<nat>, e: Event)
    requires e.page != 0 && e.page % 1024 == 0
    ensures Reported(q, e) <==> !Acceptable(PageSet(q), e)
  {
    assert e.page in q <==> e.page in PageSet(q);
  }

  class LruSimulator {
    var queue: seq<nat>
    var histogram: seq<nat>
    var numErrors: nat

    constructor ()
      ensures queue == [] && histogram == [] && numErrors == 0
    {
      queue, histogram, numErrors := [], [], 0;
    }

    /** The scan both programs start with: the page's position and the first placeholder above it (or `pos` if none). */
    method Scan(page: nat) returns (found: bool, pos: nat, hole: nat)
      requires page != HOLE
      ensures pos == Position(queue, page) && hole == FirstHole(queue, pos)
      ensures found == (pos < |queue|)
    {
      found, pos := false, 0;
      var placeholder := -1;
      while pos < |queue|
        invariant 0 <= pos <= |queue|
        invariant forall i :: 0 <= i < pos ==> queue[i] != page
        invariant -1 <= placeholder < pos
        invariant placeholder == -1 ==> forall i :: 0 <= i < pos ==> queue[i] != HOLE
        invariant placeholder != -1 ==> queue[placeholder] == HOLE && forall i :: 0 <= i < placeholder ==> queue[i] != HOLE
      {
        if placeholder == -1 && queue[pos] == HOLE {
          placeholder := pos;
        } else if queue[pos] == page {
          found := true;
          break;
        }
        pos := pos + 1;
      }
      hole := if placeholder == -1 then pos else placeholder;
    }

    /** `page` goes to the front and `placeholder`, if there is one, is erased. */
    method PushFront(page: nat, pos: nat, hole: nat)
      requires hole <= pos <= |queue|
      modifies this`queue
      ensures queue == if hole == pos then [page] + old(queue) else [page] + old(queue)[..hole] + old(queue)[hole + 1..]
    {
      queue := [page] + queue;
      if hole < pos {
        queue := queue[..hole + 1] + queue[hole + 2..];
      }
    }

    method MoveToFront(page: nat, pos: nat, hole: nat)
      requires hole <= pos < |queue| && queue[pos] == page
      modifies this`queue
      ensures queue == Promote(old(queue), pos, hole)
    {
      if pos != 0 {
        ghost var q := queue;
        queue := [page] + queue;
        // the erased entry is one place further down, behind the page just pushed
        ErasedBehind(page, q, hole);
        queue := queue[..hole + 1] + queue[hole + 2..];
        if hole != pos {
          OldPlace(page, q, pos, hole);
          queue := queue[pos := HOLE];
        }
      }
    }

    /** The histogram entry of `pos` is incremented, after growing the vector one zero at a time. */
    method CountHit(pos: nat)
      modifies this`histogram
      ensures histogram == Bump(old(histogram), pos)
    {
      if |histogram| <= pos {
        while |histogram| < pos
          invariant |old(histogram)| <= |histogram| <= pos
          invariant histogram == old(histogram) + Zeros(|histogram| - |old(histogram)|)
        {
          histogram := histogram + [0];
        }
        histogram := histogram + [1];
      } else {
        histogram := histogram[pos := histogram[pos] + 1];
      }
    }

    /** `LRUprocess` of tools/lrusim2.cpp, error branches included. */
    method Process(tag: char, page: nat) returns (exited: bool)
      requires page != HOLE
      modifies this
      ensures queue == StackStep(old(queue), Event(tag, page))
      ensures histogram == if IsReuse(tag) && page in old(queue) then Bump(old(histogram), Position(old(queue), page))
                           else old(histogram)
      ensures exited <==> Fatal(old(queue), Event(tag, page))
      ensures exited <==> (tag in "APS" && page in old(queue)) || tag !in "APSUDRrw"
      ensures numErrors == old(numErrors) + if Reported(old(queue), Event(tag, page)) then 1 else 0
      ensures exited || (tag == 'R' && page in old(queue)) || (tag in "rw" && page !in old(queue))
        <==> numErrors == old(numErrors) + 1
    {
      var found, pos, hole := Scan(page);
      exited := false;
      if tag == 'A' || tag == 'P' || tag == 'S' {
        if found {
          numErrors := numErrors + 1;
          exited := true;
        }
      } else if tag == 'U' || tag == 'D' {
        if found {
          queue := queue[pos := HOLE];
        }
      } else if tag == 'R' {
        if found {
          numErrors := numErrors + 1;
          queue := queue[pos := HOLE];
        }
        PushFront(page, pos, hole);
      } else if tag == 'r' || tag == 'w' {
        if !found {
          numErrors := numErrors + 1;
          PushFront(page, pos, hole);
        } else {
          MoveToFront(page, pos, hole);
          CountHit(pos);
        }
      } else {
        numErrors := numErrors + 1;
        exited := true;
      }
    }

    /** The main loop over the lines of a trace file: no line is reported exactly when the trace is well formed. */
    method Run(trace: seq<Event>) returns (exited: bool)
      requires queue == [] && histogram == [] && numErrors == 0
      modifies this
      ensures !exited && numErrors == 0 <==> WellFormed(trace)
      ensures WellFormed(trace) ==> queue == StackRun(trace) && histogram == HistogramRun(trace)
    {
      exited := false;
      var line := 0;
      while line < |trace|
        invariant 0 <= line <= |trace|
        invariant numErrors == 0 <==> WellFormed(trace[..line])
        invariant numErrors == 0 ==> queue == StackRun(trace[..line]) && histogram == HistogramRun(trace[..line])
      {
        var e := trace[line];
        Extend(trace[..line], e);
        assert trace[..line] + [e] == trace[..line + 1];
        if numErrors == 0 {
          RunKeepsPages(trace[..line]);
        }
        if e.page == 0 || e.page % 1024 != 0 {
          numErrors := numErrors + 1;
          IllFormed(trace, line + 1);
          return true;
        }
        ReportedMeans(queue, e);
        exited := Process(e.tag, e.page);
        if exited {
          IllFormed(trace, line + 1);
          return;
        }
        line := line + 1;
      }
      assert trace[..line] == trace;
    }

    /** The backward loop of suffix sums. */
    method CalculateMisses() returns (misses: array<nat>)
      requires histogram != []
      ensures misses.Length == |histogram|
      ensures forall m :: 0 <= m < misses.Length ==> misses[m] == Tail(histogram, m)
    {
      misses := new nat[|histogram|];
      misses[|histogram| - 1] := histogram[|histogram| - 1];
      var i := |histogram| - 2;
      while i >= 0
        invariant -1 <= i <= |histogram| - 2
        invariant forall m :: i < m < |histogram| ==> misses[m] == Tail(histogram, m)
      {
        misses[i] := misses[i + 1] + histogram[i];
        i := i - 1;
      }
    }

    /** `NewLRUprocess` of tools/lrusim.cpp: the same stack under another set of tags, where every error is fatal. */
    method NewProcess(tag: char, page: nat) returns (exited: bool)
      requires page != HOLE
      modifies this
      ensures var e := Event(Translated(tag), page);
        if exited then Reported(old(queue), e) && queue == old(queue) && histogram == old(histogram)
        else
          && !Reported(old(queue), e)
          && queue == StackStep(old(queue), e)
          && histogram == if IsReuse(e.tag) then Bump(old(histogram), Position(old(queue), page)) else old(histogram)
      // the same, tag by tag
      ensures exited <==> (tag in "SMd" && page in old(queue)) || (tag in "sm" && page !in old(queue)) || tag !in "SMdsmUD"
      ensures numErrors == old(numErrors) + if exited then 1 else 0
      ensures !exited && tag in "SMd" ==> queue == StackStep(old(queue), Event('R', page)) && histogram == old(histogram)
      ensures !exited && tag in "sm" ==>
        && queue == StackStep(old(queue), Event('r', page))
        && histogram == Bump(old(histogram), Position(old(queue), page))
      ensures tag in "UD" ==> queue == StackStep(old(queue), Event('U', page)) && histogram == old(histogram)
    {
      var found, pos, hole := Scan(page);
      exited := false;
      if tag == 'S' || tag == 'M' || tag == 'd' {
        if found {
          numErrors := numErrors + 1;
          return true;
        }
        PushFront(page, pos, hole);
      } else if tag == 's' || tag == 'm' {
        if !found {
          numErrors := numErrors + 1;
          return true;
        }
        MoveToFront(page, pos, hole);
        CountHit(pos);
      } else if tag == 'U' || tag == 'D' {
        if found {
          queue := queue[pos := HOLE];
        }
      } else {
        numErrors := numErrors + 1;
        exited := true;
      }
    }
  }

  lemma ErasedBehind(page: nat, q: seq<nat>, n: nat)
    requires n < |q|
    ensures ([page] + q)[..n + 1] + ([page] + q)[n + 2..] == [page] + q[..n] + q[n + 1..]
  {}

  lemma OldPlace(page: nat, q: seq<nat>, pos: nat, hole: nat)
    requires hole < pos < |q|
    ensures ([page] + q[..hole] + q[hole + 1..])[pos := HOLE]
         == [page] + q[..hole] + q[hole + 1..pos] + [HOLE] + q[pos + 1..]
  {
    var a, b := [page] + q[..hole], q[hole + 1..];
    assert b == q[hole + 1..pos] + [q[pos]] + q[pos + 1..];
    assert |a + q[hole + 1..pos]| == pos;
  }

  /** The tag of tools/lrusim2.cpp with the meaning that `tag` has for tools/lrusim.cpp. */
  function Translated(tag: char): char {
    if tag == 'S' || tag == 'M' || tag == 'd' then 'R'
    else if tag == 's' || tag == 'm' then 'r'
    else if tag == 'U' || tag == 'D' then tag
    else '?'
  }

  lemma {:induction false} IllFormed(trace: seq<Event>, n: nat)
    requires n <= |trace| && !WellFormed(trace[..n])
    ensures !WellFormed(trace)
    decreases |trace| - n
  {
    if n < |trace| {
      Extend(trace[..n], trace[n]);
      assert trace[..n] + [trace[n]] == trace[..n + 1];
      IllFormed(trace, n + 1);
    } else {
      assert trace[..n] == trace;
    }
  }

  /** The whole program on a well-formed trace: entry `m` of the table is the miss count of an `m`-page LRU memory. */
  method MissTable(trace: seq<Event>) returns (misses: seq<nat>)
    requires WellFormed(trace) && exists i :: 0 <= i < |trace| && IsReuse(trace[i].tag)
    ensures forall m :: 0 <= m < |misses| ==> misses[m] == MissCount(trace, m)
    ensures 0 < |misses| <= Peak(trace)
    ensures forall m :: |misses| <= m ==> MissCount(trace, m) == 0
  {
    var simulator := new LruSimulator();
    var exited := simulator.Run(trace);
    SomeHit(trace);
    var table := simulator.CalculateMisses();
    misses := table[..];
    forall m: nat
      ensures Tail(HistogramRun(trace), m) == MissCount(trace, m)
    {
      TailCountsMisses(trace, m);
    }
    HistogramWithinPeak(trace);
  }

  lemma {:induction false} SomeHit(trace: seq<Event>)
    requires exists i :: 0 <= i < |trace| && IsReuse(trace[i].tag)
    ensures HistogramRun(trace) != []
  {
    var i :| 0 <= i < |trace| && IsReuse(trace[i].tag);
    if i < |trace| - 1 {
      assert trace[..|trace| - 1][i] == trace[i];
      SomeHit(trace[..|trace| - 1]);
    }
  }
}
