/** What every reap does with its slots, whatever it recycles them by: the simple allocator the reaps refine. */
module ReapSlots {
  import opened Sequences

  /** `bumped` slots were handed out at least once; those in `freed` have come back since. */
  datatype Slots = Slots(total: nat, bumped: nat, freed: set<nat>)

  ghost predicate Proper(s: Slots) {
    s.bumped <= s.total && forall i :: i in s.freed ==> i < s.bumped
  }

  ghost function Live(s: Slots): set<nat> {
    set i: nat | i < s.bumped && i !in s.freed
  }

  function NumFree(s: Slots): int {
    s.total - s.bumped + |s.freed|
  }

  /** The next slot: a fresh one as long as there is one, then `recycled`. */
  function Taken(s: Slots, recycled: nat): Slots {
    if s.bumped < s.total then s.(bumped := s.bumped + 1) else s.(freed := s.freed - {recycled})
  }

  function Given(s: Slots, slot: nat): Slots {
    s.(freed := s.freed + {slot})
  }

  ghost predicate IsMin(s: set<nat>, m: nat) {
    m in s && forall i :: i in s ==> m <= i
  }

  lemma {:induction false} MinExists(s: set<nat>)
    requires s != {}
    ensures exists m :: IsMin(s, m)
  {
    var x :| x in s;
    if s == {x} {
      assert IsMin(s, x);
    } else {
      MinExists(s - {x});
      var m :| IsMin(s - {x}, m);
      assert forall i :: i in s ==> i == x || i in s - {x};
      assert IsMin(s, if x < m then x else m);
    }
  }

  ghost function Lowest(s: set<nat>): (m: nat)
    requires s != {}
    ensures IsMin(s, m)
  {
    MinExists(s);
    var m :| IsMin(s, m);
    m
  }

  predicate HasFree(s: Slots) {
    s.bumped < s.total || s.freed != {}
  }

  /** The slot an address-ordered reap hands out next. */
  ghost function NextLowest(s: Slots): nat
    requires HasFree(s)
  {
    if s.bumped < s.total then s.bumped else Lowest(s.freed)
  }

  lemma FreshSlots(total: nat)
    ensures var s := Slots(total, 0, {}); Proper(s) && NumFree(s) == total
  {}

  /** The free count is the number of slots that are not live. */
  lemma FreeCount(s: Slots)
    requires Proper(s)
    ensures NumFree(s) == s.total - |Live(s)|
    ensures NumFree(s) == 0 <==> s.bumped == s.total && s.freed == {}
  {
    assert s.freed <= UpTo(s.bumped);
    assert Live(s) == UpTo(s.bumped) - s.freed;
    assert |Live(s)| == s.bumped - |s.freed|;
  }

  /** Taking a slot hands out one that is not live, a fresh one if there is any, and nothing else changes hands. */
  lemma TakenSlot(s: Slots, recycled: nat)
    requires Proper(s) && (s.bumped < s.total || recycled in s.freed)
    ensures var slot, t := if s.bumped < s.total then s.bumped else recycled, Taken(s, recycled);
      && Proper(t) && slot < s.total && slot !in Live(s) && Live(t) == Live(s) + {slot}
      && NumFree(t) == NumFree(s) - 1 && t.total == s.total
      && (if s.bumped < s.total then t.bumped == s.bumped + 1 && t.freed == s.freed else t.bumped == s.total)
  {
    if s.bumped == s.total {
      assert s.freed == (s.freed - {recycled}) + {recycled};
    }
  }

  /** A slot that comes back is no longer live, and fresh slots stay fresh. */
  lemma GivenSlot(s: Slots, slot: nat)
    requires Proper(s) && slot in Live(s)
    ensures var t := Given(s, slot);
      && Proper(t) && Live(t) == Live(s) - {slot} && NumFree(t) == NumFree(s) + 1 && slot in t.freed
      && t.total == s.total && t.bumped == s.bumped
  {}
}

/** Allocation by bumping a pointer (reapbase.h). */
module ReapBases {
  import opened IntrusiveLists

  function Address(base: int, size: nat, slot: nat): int {
    base + size * slot
  }

  lemma MulDistributes(a: int, b: int, c: int)
    ensures a * (b + c) == a * b + a * c
  {}

  lemma MulAtLeast(a: int, d: int)
    requires 1 <= a && 0 <= d
    ensures d <= a * d
  {}

  lemma DivUnique(x: int, d: int, q: int, r: int)
    requires 0 < d && x == d * q + r && 0 <= r < d
    ensures x / d == q && x % d == r
  {
    var k := x / d;
    assert x == d * k + x % d;
    if k < q {
      MulDistributes(d, k, q - k);
      MulAtLeast(q - k, d);
    } else if q < k {
      MulDistributes(d, q, k - q);
      MulAtLeast(k - q, d);
    }
  }

  lemma SlotOfAddress(base: int, size: nat, slot: nat)
    requires 0 < size
    ensures (Address(base, size, slot) - base) / size == slot && (Address(base, size, slot) - base) % size == 0
  {
    DivUnique(size * slot, size, slot, 0);
  }

  lemma AddressStep(base: int, size: nat, slot: nat)
    ensures Address(base, size, slot + 1) == Address(base, size, slot) + size
  {
    MulDistributes(size, slot, 1);
  }

  lemma AddressOrder(base: int, size: nat, i: nat, j: nat)
    requires i < j
    ensures Address(base, size, i) + size <= Address(base, size, j)
  {
    MulDistributes(size, i, j - i);
    MulAtLeast(j - i, size);
  }

  class ReapBase {
    const objectSize: nat
    const numTotal: nat
    const basePtr: int
    var numFree: int
    var numBumped: nat
    var bumpPtr: int

    ghost predicate Valid()
      reads this
    {
      0 < objectSize && 0 < basePtr && numBumped <= numTotal && bumpPtr == Address(basePtr, objectSize, numBumped)
    }

    /** `initReapBase`. */
    constructor (objectSize: nat, numTotal: nat, numFree: int, basePtr: int)
      requires 0 < objectSize && 0 < basePtr
      ensures Valid() && this.objectSize == objectSize && this.numTotal == numTotal && this.basePtr == basePtr
      ensures this.numFree == numFree && numBumped == 0
    {
      this.objectSize, this.numTotal, this.numFree, this.basePtr := objectSize, numTotal, numFree, basePtr;
      numBumped, bumpPtr := 0, basePtr;
    }

    method Malloc() returns (ptr: int)
      requires Valid()
      modifies this
      ensures Valid()
      ensures if old(numBumped) < numTotal then
          && ptr == Address(basePtr, objectSize, old(numBumped)) && 0 < ptr
          && numBumped == old(numBumped) + 1 && numFree == old(numFree) - 1
        else ptr == NULL && numBumped == old(numBumped) && numFree == old(numFree)
    {
      ptr := NULL;
      if numBumped < numTotal {
        AddressStep(basePtr, objectSize, numBumped);
        ptr := bumpPtr;
        bumpPtr := bumpPtr + objectSize;
        numBumped := numBumped + 1;
        numFree := numFree - 1;
      }
    }
  }
}
