/** frequencyheap.h: sizes that are asked for often are served by the reaps, the others by the heap with headers. */
module FrequencyHeaps {
  import opened IntrusiveLists
  import opened ReapLayouts

  const MAX_FREQ_SIZE := MAX_DEDICATED_SIZE

  /** `SIZE_TO_INDEX`. */
  function SizeIndex(size: nat): nat
    requires 0 < size
  {
    (size - 1) / 8
  }

  /** A class holds the eight sizes up to its object size, `INDEX_TO_SIZE`. */
  lemma ClassSizes(size: nat, index: nat)
    requires 0 < size
    ensures SizeIndex(size) == index <==> 8 * index < size <= 8 * (index + 1)
  {}

  /** `high_freq_reached` of vam.h. */
  predicate HighFreqReached(size: nat, count: nat) {
    size * count > PAGE_SIZE
  }

  predicate InClass(size: nat, index: nat) {
    0 < size <= MAX_FREQ_SIZE && SizeIndex(size) == index
  }

  /** How many of the requests so far belong to a size class. */
  function Requests(history: seq<nat>, index: nat): nat {
    if history == [] then 0
    else Requests(history[..|history| - 1], index) + if InClass(history[|history| - 1], index) then 1 else 0
  }

  /** Request `k` brought its class over the limit: its size times the number of requests of its class. */
  ghost predicate Crosses(history: seq<nat>, k: nat, index: nat)
    requires k < |history|
  {
    InClass(history[k], index) && HighFreqReached(history[k], Requests(history[..k + 1], index))
  }

  /** Some request of the class has crossed the limit. */
  ghost predicate Hot(history: seq<nat>, index: nat) {
    exists k: nat :: k < |history| && Crosses(history, k, index)
  }

  lemma HotStep(history: seq<nat>, size: nat, index: nat)
    ensures var h := history + [size];
      && Requests(h, index) == Requests(history, index) + (if InClass(size, index) then 1 else 0)
      && (Hot(h, index) <==> Hot(history, index) || (InClass(size, index) && HighFreqReached(size, Requests(history, index) + 1)))
  {
    var h, n := history + [size], |history|;
    assert h[..n] == history && h[..n + 1] == h;
    forall k: nat | k < n
      ensures Crosses(h, k, index) <==> Crosses(history, k, index)
    {
      assert h[..k + 1] == history[..k + 1];
    }
    if Hot(history, index) {
      var k: nat :| k < n && Crosses(history, k, index);
      assert Crosses(h, k, index);
    }
    if Hot(h, index) {
      var k: nat :| k < |h| && Crosses(h, k, index);
      assert k < n ==> Crosses(history, k, index);
    }
    assert Crosses(h, n, index) <==> InClass(size, index) && HighFreqReached(size, Requests(h, index));
  }

  /** Once a class is frequent it stays so. */
  lemma {:induction false} HotStays(history: seq<nat>, more: seq<nat>, index: nat)
    requires Hot(history, index)
    ensures Hot(history + more, index)
  {
    if more == [] {
      assert history + more == history;
    } else {
      var rest, last := more[..|more| - 1], more[|more| - 1];
      HotStays(history, rest, index);
      assert history + more == history + rest + [last];
      HotStep(history + rest, last, index);
    }
  }

  function Repeated(size: nat, n: nat): seq<nat> {
    seq(n, _ => size)
  }

  lemma {:induction false} RepeatedRequests(size: nat, n: nat, index: nat)
    requires InClass(size, index)
    ensures Requests(Repeated(size, n), index) == n
    ensures Hot(Repeated(size, n), index) <==> size * n > PAGE_SIZE
  {
    if n > 0 {
      RepeatedRequests(size, n - 1, index);
      assert Repeated(size, n) == Repeated(size, n - 1) + [size];
      HotStep(Repeated(size, n - 1), size, index);
      ReachedStays(size, n - 1);
    } else {
      assert size * 0 == 0;
    }
  }

  lemma ReachedStays(size: nat, n: nat)
    ensures HighFreqReached(size, n) ==> HighFreqReached(size, n + 1)
  {
    assert size * (n + 1) == size * n + size;
  }

  class FrequencyHeap {
    const frequent: array<bool>
    const counts: array<nat>
    // the sizes of all requests so far
    ghost var history: seq<nat>

    /** The class is marked exactly if it is hot; until then every request of it is counted. */
    ghost predicate Tracked(i: nat)
      requires i < frequent.Length && i < counts.Length
      reads this, frequent, counts
    {
      && (frequent[i] <==> Hot(history, i))
      && (!Hot(history, i) ==> counts[i] == Requests(history, i))
    }

    ghost predicate Valid()
      reads this, frequent, counts
    {
      && frequent.Length == counts.Length == SizeIndex(MAX_FREQ_SIZE) + 1
      && frequent as object != counts as object
      && forall i: nat {:trigger Tracked(i)} :: i < frequent.Length ==> Tracked(i)
    }

    constructor ()
      ensures Valid() && history == [] && fresh(frequent) && fresh(counts)
    {
      frequent := new bool[SizeIndex(MAX_FREQ_SIZE) + 1](_ => false);
      counts := new nat[SizeIndex(MAX_FREQ_SIZE) + 1](_ => 0);
      history := [];
    }

    /** Whether the request is one for the reaps: exactly if its class is hot, counting this request. */
    method Decide(size: nat) returns (frequently: bool)
      requires Valid() && 0 < size
      modifies this, frequent, counts
      ensures Valid() && history == old(history) + [size]
      ensures frequently == (size <= MAX_FREQ_SIZE && Hot(history, SizeIndex(size)))
    {
      frequently := false;
      var index := SizeIndex(size);
      ghost var before := history;
      forall i: nat | i < frequent.Length
        ensures frequent[i] <==> Hot(before, i)
        ensures !Hot(before, i) ==> counts[i] == Requests(before, i)
      {
        assert Tracked(i);
      }
      hide Hot, Requests, HighFreqReached;
      forall i: nat | i < frequent.Length
        ensures Requests(before + [size], i) == Requests(before, i) + (if InClass(size, i) then 1 else 0)
        ensures Hot(before + [size], i) <==>
          Hot(before, i) || (InClass(size, i) && HighFreqReached(size, Requests(before, i) + 1))
      {
        HotStep(before, size, i);
      }
      history := history + [size];
      if size <= MAX_FREQ_SIZE {
        if frequent[index] {
          frequently := true;
        } else {
          counts[index] := counts[index] + 1;
          if HighFreqReached(size, counts[index]) {
            frequent[index] := true;
            frequently := true;
          }
        }
      }
    }

    /**
     * `high` and `low` are what the two heaps would return. The reaps are tried exactly for the hot classes, and the
     * other heap serves the rest, and the hot ones too when the reaps fail.
     */
    method Malloc(size: nat, high: int, low: int) returns (ptr: int, fromHigh: bool)
      requires Valid() && 0 < size
      modifies this, frequent, counts
      ensures Valid() && history == old(history) + [size]
      ensures var hot := size <= MAX_FREQ_SIZE && Hot(history, SizeIndex(size));
        fromHigh == (hot && high != NULL) && ptr == if fromHigh then high else low
    {
      var frequently := Decide(size);
      ptr := if frequently then high else NULL;
      fromHigh := ptr != NULL;
      if ptr == NULL {
        ptr := low;
      }
    }
  }
}
