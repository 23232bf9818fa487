/** Lists by their contents. */
module Sequences {
  ghost predicate NoDuplicates(s: seq<int>) {
    forall i, j :: 0 <= i < j < |s| ==> s[i] != s[j]
  }

  /** The numbers below `n`. */
  ghost function UpTo(n: nat): (r: set<nat>)
    ensures |r| == n && forall i: nat :: i in r <==> i < n
  {
    if n == 0 then {} else UpTo(n - 1) + {n - 1}
  }

  function Without(s: seq<nat>, x: nat): seq<nat> {
    if s == [] then []
    else (if s[0] == x then [] else [s[0]]) + Without(s[1..], x)
  }

  lemma WithoutConcat(a: seq<nat>, b: seq<nat>, x: nat)
    ensures Without(a + b, x) == Without(a, x) + Without(b, x)
  {
    if a == [] {
      assert a + b == b;
    } else {
      assert (a + b)[1..] == a[1..] + b;
      WithoutConcat(a[1..], b, x);
    }
  }

  lemma WithoutOne(y: nat, x: nat)
    ensures Without([y], x) == if y == x then [] else [y]
  {
    assert [y][1..] == [];
  }

  /** Dropping an element that occurs once, between `a` and `b`. */
  lemma WithoutAround(a: seq<nat>, x: nat, b: seq<nat>)
    requires x !in a && x !in b
    ensures Without(a + [x] + b, x) == a + b
  {
    WithoutConcat(a + [x], b, x);
    WithoutConcat(a, [x], x);
    WithoutOne(x, x);
    WithoutAbsent(a, x);
    WithoutAbsent(b, x);
    assert a + [] == a;
  }

  lemma WithoutAbsent(s: seq<nat>, x: nat)
    requires x !in s
    ensures Without(s, x) == s
  {}

  /** Removing a member of a list without duplicates. */
  lemma {:induction false} WithoutMember(s: seq<nat>, x: nat)
    requires NoDuplicates(s)
    ensures NoDuplicates(Without(s, x)) && |Without(s, x)| == |s| - if x in s then 1 else 0
    ensures forall y: nat :: y in Without(s, x) <==> y in s && y != x
  {
    if s != [] {
      WithoutMember(s[1..], x);
      assert s == [s[0]] + s[1..];
      assert s[0] !in s[1..];
      assert s[0] == x ==> x !in s[1..];
    }
  }

  ghost function Elements(list: seq<nat>): set<nat> {
    set i | i in list
  }

  lemma ElementsCount(list: seq<nat>)
    requires NoDuplicates(list)
    ensures |Elements(list)| == |list|
  {
    if list != [] {
      ElementsCount(list[1..]);
      assert Elements(list) == {list[0]} + Elements(list[1..]);
    }
  }

  /** A list without duplicates of numbers below `n` has at most `n` of them. */
  lemma AtMost(list: seq<nat>, n: nat)
    requires NoDuplicates(list) && forall i :: i in list ==> i < n
    ensures |list| <= n
  {
    ElementsCount(list);
    SubsetSizes(Elements(list), UpTo(n));
  }

  lemma {:induction false} SubsetSizes(a: set<nat>, b: set<nat>)
    requires a <= b
    ensures |a| <= |b|
  {
    if a != {} {
      var x :| x in a;
      SubsetSizes(a - {x}, b - {x});
    }
  }

  lemma WithoutHead(list: seq<nat>)
    requires list != [] && NoDuplicates(list)
    ensures Without(list, list[0]) == list[1..]
  {
    assert list[0] !in list[1..];
    WithoutAbsent(list[1..], list[0]);
  }

  /** `list_del`, then `list_add` to the front if the element goes on this list. */
  function Moved(list: seq<nat>, q: nat, here: bool): seq<nat> {
    (if here then [q] else []) + Without(list, q)
  }

  lemma MovedMembers(list: seq<nat>, q: nat, here: bool)
    requires NoDuplicates(list)
    ensures NoDuplicates(Moved(list, q, here))
    ensures forall r: nat :: r in Moved(list, q, here) <==> if r == q then here else r in list
  {
    WithoutMember(list, q);
  }

  /** The element goes to the front of the list, or away; the others keep their order. */
  lemma MovedOrder(a: seq<nat>, q: nat, b: seq<nat>)
    requires q !in a && q !in b
    ensures Moved(a + [q] + b, q, true) == [q] + a + b && Moved(a + b, q, true) == [q] + a + b
    ensures Moved(a + [q] + b, q, false) == a + b && Moved(a + b, q, false) == a + b
  {
    WithoutAround(a, q, b);
    WithoutAbsent(a + b, q);
    assert [q] + (a + b) == [q] + a + b;
    assert [] + (a + b) == a + b;
  }
}
