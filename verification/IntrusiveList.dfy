/**
 * The intrusive doubly linked list of vamcommon.h. A node is an address; the list heads are nodes too.
 * `links` is the memory of all `list_head` structures.
 */
module IntrusiveLists {
  import opened Sequences

  // NULL
  const NULL := 0

  datatype Node = Node(next: int, prev: int)

  type Links = map<int, Node>

  /** Position `i` of the circle head, s[0], ..., s[|s|-1], head. */
  ghost function At(head: int, s: seq<int>, i: nat): int
    requires i <= |s| + 1
  {
    if i == 0 || i == |s| + 1 then head else s[i - 1]
  }

  ghost function Nodes(head: int, s: seq<int>): set<int> {
    {head} + set x | x in s
  }

  /** Following `next` from `head` visits exactly the nodes of `s` in order, and `prev` leads back. */
  ghost predicate Ring(links: Links, head: int, s: seq<int>) {
    && NoDuplicates(s) && head !in s && Nodes(head, s) <= links.Keys
    && (forall i :: 0 <= i <= |s| ==> Linked(links, At(head, s, i), At(head, s, i + 1)))
  }

  ghost predicate Linked(links: Links, x: int, y: int) {
    x in links && y in links && links[x].next == y && links[y].prev == x
  }

  /** `__list_add`. */
  function Insert(links: Links, node: int, prev: int, next: int): Links
    requires prev in links && next in links
  {
    var l1 := links[next := links[next].(prev := node)];
    var l2 := l1[node := Node(next, prev)];
    l2[prev := l2[prev].(next := node)]
  }

  /** `__list_del`. */
  function Unlink(links: Links, prev: int, next: int): Links
    requires prev in links && next in links
  {
    var l1 := links[next := links[next].(prev := prev)];
    l1[prev := l1[prev].(next := next)]
  }

  lemma RingEmpty(links: Links, head: int, s: seq<int>)
    requires Ring(links, head, s)
    ensures head in links && links[head].next in links
    ensures links[head].next == head <==> s == []
    ensures s != [] ==> links[head].next == s[0]
  {
    assert Linked(links, At(head, s, 0), At(head, s, 1));
  }

  lemma RingFrame(links: Links, links': Links, head: int, s: seq<int>)
    requires Ring(links, head, s)
    requires Nodes(head, s) <= links'.Keys && forall x :: x in Nodes(head, s) ==> links'[x] == links[x]
    ensures Ring(links', head, s)
  {
    forall i | 0 <= i <= |s|
      ensures Linked(links', At(head, s, i), At(head, s, i + 1))
    {
      assert Linked(links, At(head, s, i), At(head, s, i + 1));
      assert At(head, s, i) in Nodes(head, s) && At(head, s, i + 1) in Nodes(head, s);
    }
  }

  /** `list_add` puts a node at the front. */
  lemma AddFront(links: Links, head: int, s: seq<int>, node: int)
    requires Ring(links, head, s) && node != head && node !in s
    ensures head in links && links[head].next in links
    ensures Ring(Insert(links, node, head, links[head].next), head, [node] + s)
  {
    RingEmpty(links, head, s);
    var first, t := links[head].next, [node] + s;
    var l := Insert(links, node, head, first);
    forall i | 0 <= i <= |t|
      ensures Linked(l, At(head, t, i), At(head, t, i + 1))
    {
      if 2 <= i {
        assert Linked(links, At(head, s, i - 1), At(head, s, i));
      }
    }
  }

  /** `list_del` takes a node out, wherever it is. */
  lemma Remove(links: Links, head: int, s: seq<int>, p: nat)
    requires Ring(links, head, s) && p < |s|
    ensures s[p] in links && links[s[p]].next == At(head, s, p + 2) && links[s[p]].prev == At(head, s, p)
    ensures links[s[p]].next in links && links[s[p]].prev in links
    ensures Ring(Unlink(links, links[s[p]].prev, links[s[p]].next), head, s[..p] + s[p + 1..])
  {
    var t := s[..p] + s[p + 1..];
    var prev, next := At(head, s, p), At(head, s, p + 2);
    assert Linked(links, prev, At(head, s, p + 1)) && Linked(links, At(head, s, p + 1), next);
    var l := Unlink(links, prev, next);
    forall i | 0 <= i <= |t|
      ensures Linked(l, At(head, t, i), At(head, t, i + 1))
    {
      var k := if i <= p then i else i + 1;
      assert At(head, t, i) == At(head, s, k);
      assert Linked(links, At(head, s, k), At(head, s, k + 1));
      if i != p {
        assert At(head, t, i + 1) == At(head, s, k + 1);
      }
    }
  }

  /** `list_del`: the node's own pointers are cleared too. */
  function Delete(links: Links, node: int): Links
    requires node in links && links[node].next in links && links[node].prev in links
  {
    Unlink(links, links[node].prev, links[node].next)[node := Node(NULL, NULL)]
  }

  lemma DeleteNode(links: Links, head: int, s: seq<int>, p: nat)
    requires Ring(links, head, s) && p < |s|
    ensures s[p] in links && links[s[p]].next in links && links[s[p]].prev in links
    ensures Ring(Delete(links, s[p]), head, s[..p] + s[p + 1..])
  {
    Remove(links, head, s, p);
    var l := Unlink(links, links[s[p]].prev, links[s[p]].next);
    assert s[p] !in Nodes(head, s[..p] + s[p + 1..]);
    RingFrame(l, Delete(links, s[p]), head, s[..p] + s[p + 1..]);
  }

  /** A node list that does not meet the changed cells stays as it is. */
  lemma OtherRing(links: Links, head: int, s: seq<int>, other: int, t: seq<int>, p: nat)
    requires Ring(links, head, s) && Ring(links, other, t) && p < |s|
    requires Nodes(head, s) !! Nodes(other, t)
    ensures s[p] in links && links[s[p]].next in links && links[s[p]].prev in links
    ensures Ring(Delete(links, s[p]), other, t)
  {
    Remove(links, head, s, p);
    assert s[p] in Nodes(head, s) && At(head, s, p) in Nodes(head, s) && At(head, s, p + 2) in Nodes(head, s);
    RingFrame(links, Delete(links, s[p]), other, t);
  }

  lemma OtherRingAdd(links: Links, head: int, s: seq<int>, other: int, t: seq<int>, node: int)
    requires Ring(links, head, s) && Ring(links, other, t)
    requires Nodes(head, s) !! Nodes(other, t) && node !in Nodes(other, t)
    ensures head in links && links[head].next in links
    ensures Ring(Insert(links, node, head, links[head].next), other, t)
  {
    RingEmpty(links, head, s);
    assert head in Nodes(head, s) && links[head].next in Nodes(head, s);
    RingFrame(links, Insert(links, node, head, links[head].next), other, t);
  }

  class LinkStore {
    var links: Links

    constructor ()
      ensures links == map[]
    {
      links := map[];
    }

    /** `INIT_LIST_HEAD`. */
    method InitListHead(head: int)
      modifies this
      ensures links == old(links)[head := Node(head, head)]
    {
      links := links[head := Node(head, head)];
    }

    method ListAdd(node: int, head: int)
      requires head in links && links[head].next in links
      modifies this
      ensures links == Insert(old(links), node, head, old(links)[head].next)
    {
      var next := links[head].next;
      links := links[next := links[next].(prev := node)];
      links := links[node := Node(next, head)];
      links := links[head := links[head].(next := node)];
    }

    method ListDel(node: int)
      requires node in links && links[node].next in links && links[node].prev in links
      modifies this
      ensures links == Delete(old(links), node)
    {
      var next, prev := links[node].next, links[node].prev;
      links := links[next := links[next].(prev := prev)];
      links := links[prev := links[prev].(next := next)];
      links := links[node := Node(NULL, NULL)];
    }
  }
}
