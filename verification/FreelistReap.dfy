/** freelistreap.h: freed slots are chained through their own memory, and the one freed last is reused first. */
module FreelistReaps {
  import opened IntrusiveLists
  import opened Sequences
  import opened ReapSlots
  import opened ReapBases
  import opened ReapLayouts

  /** Starting at `head`, the pointers in freed objects run through `chain` and end with NULL. */
  ghost predicate Chained(base: int, size: nat, next: map<int, int>, head: int, chain: seq<nat>)
    decreases |chain|
  {
    if chain == [] then head == NULL
    else
      && head == Address(base, size, chain[0]) && head in next
      && Chained(base, size, next, next[head], chain[1..])
  }

  lemma ChainedFrame(base: int, size: nat, next: map<int, int>, head: int, chain: seq<nat>, slot: nat, p: int)
    requires Chained(base, size, next, head, chain) && 0 < size && slot !in chain
    ensures Chained(base, size, next[Address(base, size, slot) := p], head, chain)
    decreases |chain|
  {
    if chain != [] {
      if chain[0] < slot {
        AddressOrder(base, size, chain[0], slot);
      } else {
        AddressOrder(base, size, slot, chain[0]);
      }
      ChainedFrame(base, size, next, next[head], chain[1..], slot, p);
    }
  }

  class FreelistReap {
    const base: ReapBase
    var freelist: int
    // the `next` pointer in the memory of each freed object
    var next: map<int, int>
    ghost var chain: seq<nat>

    ghost function State(): Slots
      reads this, base
    {
      Slots(base.numTotal, base.numBumped, Elements(chain))
    }

    ghost predicate Valid()
      reads this, base
    {
      && base.Valid() && Proper(State()) && base.numFree == NumFree(State())
      && NoDuplicates(chain) && Chained(base.basePtr, base.objectSize, next, freelist, chain)
    }

    constructor (at: nat, size: nat, objectSize: nat)
      requires IsRegion(at, size) && 0 < objectSize
      ensures var l := FreelistLayout(at, size, objectSize);
        && (objectSize % 8 == 0 ==> LaidOut(l, at, size, objectSize))
        && base.basePtr == l.base && base.objectSize == objectSize && State() == Slots(l.total, 0, {})
      ensures at + FREELIST_REAP <= base.basePtr < at + FREELIST_REAP + 8
      ensures Most(base.numTotal, size - FREELIST_REAP, base.objectSize)
      ensures Valid() && fresh(base)
    {
      hide Most, FreelistLayout, LaidOut, IsRegion;
      RegionFreelist(at, size, objectSize);
      var l := FreelistLayout(at, size, objectSize);
      base := new ReapBase(objectSize, l.total, l.total, l.base);
      freelist, next, chain := NULL, map[], [];
    }

    method Malloc() returns (ptr: int)
      requires Valid()
      modifies this, base
      ensures Valid()
      ensures var s := old(State());
        if HasFree(s) then
          var slot := if s.bumped < s.total then s.bumped else old(chain)[0];
          && ptr == Address(base.basePtr, base.objectSize, slot) && 0 < ptr && State() == Taken(s, slot)
          && chain == if s.bumped < s.total then old(chain) else old(chain)[1..]
        else ptr == NULL && State() == s && chain == old(chain)
    {
      FreeCount(State());
      ptr := base.Malloc();
      if ptr == NULL && base.numFree > 0 {
        assert chain != [] by {
          assert chain == [] ==> Elements(chain) == {};
        }
        ElementsCount(chain);
        ElementsCount(chain[1..]);
        assert Elements(chain[1..]) == Elements(chain) - {chain[0]};
        ptr := freelist;
        freelist := next[freelist];
        chain := chain[1..];
        base.numFree := base.numFree - 1;
        assert base.objectSize * old(chain)[0] >= 0;
      }
    }

    method Free(ptr: int, ghost slot: nat)
      requires Valid() && slot in Live(State()) && ptr == Address(base.basePtr, base.objectSize, slot)
      modifies this, base
      ensures Valid() && State() == Given(old(State()), slot) && chain == [slot] + old(chain)
    {
      hide Elements, Chained, Proper, Live, NumFree, Address, NoDuplicates;
      NotInChain(State(), chain, slot);
      PushChain(base.basePtr, base.objectSize, next, freelist, chain, slot);
      GivenSlot(State(), slot);
      next := next[ptr := freelist];
      freelist := ptr;
      chain := [slot] + chain;
      base.numFree := base.numFree + 1;
    }
  }

  lemma NotInChain(s: Slots, chain: seq<nat>, slot: nat)
    requires s.freed == Elements(chain) && slot in Live(s)
    ensures slot !in Elements(chain)
  {}

  lemma PushChain(base: int, size: nat, next: map<int, int>, head: int, chain: seq<nat>, slot: nat)
    requires Chained(base, size, next, head, chain) && 0 < size && NoDuplicates(chain) && slot !in Elements(chain)
    ensures var ptr := Address(base, size, slot); Chained(base, size, next[ptr := head], ptr, [slot] + chain)
    ensures NoDuplicates([slot] + chain) && Elements([slot] + chain) == Elements(chain) + {slot}
  {
    ChainedFrame(base, size, next, head, chain, slot, head);
    assert ([slot] + chain)[1..] == chain;
  }

  /** Once bumping is exhausted, an allocation gives back the object freed last. */
  method FreeThenMalloc(reap: FreelistReap, ptr: int, ghost slot: nat) returns (again: int)
    requires reap.Valid() && slot in Live(reap.State()) && ptr == Address(reap.base.basePtr, reap.base.objectSize, slot)
    requires reap.base.numBumped == reap.base.numTotal
    modifies reap, reap.base
    ensures again == ptr && reap.Valid() && reap.State() == old(reap.State()) && reap.chain == old(reap.chain)
  {
    reap.Free(ptr, slot);
    again := reap.Malloc();
    assert old(reap.State()).freed + {slot} - {slot} == old(reap.State()).freed;
  }
}
