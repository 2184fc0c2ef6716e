/** The circular lists threaded through EntryGroup: a sentinel node and prev/next pointers. The operations act on the
    sequence of linked nodes as MemCache assumes. */
module IntrusiveList {
  class Node {
    var prev: Node?
    var next: Node?

    constructor ()
      ensures prev == null && next == null
    {
      prev, next := null, null;
    }
  }

  /** nodes[0] is the sentinel; each node points to its neighbours and the ends meet. */
  ghost predicate Linked(nodes: seq<Node>)
    reads nodes
  {
    && |nodes| > 0
    && Distinct(nodes)
    && (forall i :: 0 <= i < |nodes| ==> nodes[i].next == nodes[Up(i, |nodes|)])
    && (forall i :: 0 <= i < |nodes| ==> nodes[i].prev == nodes[Down(i, |nodes|)])
  }

  /** Neighbours on the circle. */
  function Up(i: int, n: int): int { if i + 1 == n then 0 else i + 1 }
  function Down(i: int, n: int): int { if i == 0 then n - 1 else i - 1 }

  class List {
    const head: Node
    ghost var nodes: seq<Node>   // the sentinel followed by the linked nodes

    ghost predicate Valid()
      reads this, nodes
    {
      Linked(nodes) && nodes[0] == head
    }

    constructor ()
      ensures Valid() && nodes == [head] && fresh(head)
    {
      var h := new Node();
      head, nodes := h, [h];
      new;
      h.prev, h.next := h, h;
    }

    /** lru_push_back of an unlinked node. */
    method PushBack(g: Node)
      requires Valid() && g !in nodes
      modifies this, g, nodes
      ensures Valid() && nodes == old(nodes) + [g]
    {
      var last := head.prev;
      assert last == nodes[|nodes| - 1];
      g.prev := last;
      g.next := head;
      last.next := g;
      head.prev := g;
      nodes := nodes + [g];
    }

    /** lru_remove: unlinks g; a node that is not linked has null pointers and nothing happens. */
    method Remove(g: Node, ghost i: int)
      requires Valid() && g != head
      requires if g in nodes then 0 < i < |nodes| && nodes[i] == g else g.prev == null && g.next == null
      modifies this, g, nodes
      ensures Valid() && g.prev == null && g.next == null
      ensures nodes == if g in old(nodes) then old(nodes)[..i] + old(nodes)[i + 1..] else old(nodes)
    {
      if g.prev != null && g.next != null {
        Unlink(g, i);
      }
    }

    method Unlink(g: Node, ghost i: int)
      requires Valid() && 0 < i < |nodes| && nodes[i] == g
      modifies this, g, nodes
      ensures Valid() && g.prev == null && g.next == null && nodes == old(nodes)[..i] + old(nodes)[i + 1..]
    {
      Bypass(g, nodes, i);
      BypassLinks(nodes, i);
      nodes := nodes[..i] + nodes[i + 1..];
    }
  }

  /** The pointer assignments of lru_remove. */
  method Bypass(g: Node, ghost nodes: seq<Node>, ghost i: int)
    requires Linked(nodes) && 0 < i < |nodes| && nodes[i] == g
    modifies nodes
    ensures Bypassed(nodes, i) && g.prev == null && g.next == null
  {
    ghost var n := |nodes|;
    var p, q := g.prev, g.next;
    assert p == nodes[Down(i, n)] && q == nodes[Up(i, n)];
    p.next := q;
    q.prev := p;
    g.prev, g.next := null, null;
    forall j | 0 <= j < n && j != i ensures nodes[j].next == nodes[Skip(Up(j, n), i, Up(i, n))] {
      Differ(nodes, j, i);
      if j != Down(i, n) { Differ(nodes, j, Down(i, n)); }
    }
    forall j | 0 <= j < n && j != i ensures nodes[j].prev == nodes[Skip(Down(j, n), i, Down(i, n))] {
      Differ(nodes, j, i);
      if j != Up(i, n) { Differ(nodes, j, Up(i, n)); }
    }
  }

  ghost predicate Distinct(nodes: seq<Node>) { forall i, j :: 0 <= i < j < |nodes| ==> nodes[i] != nodes[j] }

  lemma Differ(nodes: seq<Node>, j: int, k: int)
    requires Distinct(nodes) && 0 <= j < |nodes| && 0 <= k < |nodes| && j != k
    ensures nodes[j] != nodes[k]
  {
  }

  /** All links are as in a linked list, except that those around node i pass it by. */
  ghost predicate Bypassed(nodes: seq<Node>, i: int)
    reads nodes
    requires 0 < i < |nodes|
  {
    && (forall j :: 0 <= j < |nodes| && j != i ==> nodes[j].next == nodes[Skip(Up(j, |nodes|), i, Up(i, |nodes|))])
    && (forall j :: 0 <= j < |nodes| && j != i ==> nodes[j].prev == nodes[Skip(Down(j, |nodes|), i, Down(i, |nodes|))])
  }

  function Skip(k: int, i: int, other: int): int { if k == i then other else k }

  lemma BypassLinks(nodes: seq<Node>, i: int)
    requires 0 < i < |nodes| && Distinct(nodes) && Bypassed(nodes, i)
    ensures Linked(nodes[..i] + nodes[i + 1..])
  {
    var n, rest := |nodes|, nodes[..i] + nodes[i + 1..];
    assert Distinct(rest);
    forall j | 0 <= j < |rest| ensures rest[j].next == rest[Up(j, |rest|)] { BypassNext(nodes, i, j); }
    forall j | 0 <= j < |rest| ensures rest[j].prev == rest[Down(j, |rest|)] { BypassPrev(nodes, i, j); }
  }

  /** The old index of a node. */
  function Was(j: int, i: int): int { if j < i then j else j + 1 }

  lemma BypassNext(nodes: seq<Node>, i: int, j: int)
    requires 0 < i < |nodes| && Bypassed(nodes, i) && 0 <= j < |nodes| - 1
    ensures var rest := nodes[..i] + nodes[i + 1..];
            rest[j].next == rest[Up(j, |rest|)]
  {
    var n, k := |nodes|, Was(j, i);
    assert Skip(Up(k, n), i, Up(i, n)) == Was(Up(j, n - 1), i);
    assert nodes[k].next == nodes[Was(Up(j, n - 1), i)];
  }

  lemma BypassPrev(nodes: seq<Node>, i: int, j: int)
    requires 0 < i < |nodes| && Bypassed(nodes, i) && 0 <= j < |nodes| - 1
    ensures var rest := nodes[..i] + nodes[i + 1..];
            rest[j].prev == rest[Down(j, |rest|)]
  {
    var n, k := |nodes|, Was(j, i);
    assert Skip(Down(k, n), i, Down(i, n)) == Was(Down(j, n - 1), i);
    assert nodes[k].prev == nodes[Was(Down(j, n - 1), i)];
  }
}
