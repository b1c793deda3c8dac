/** The ring of circular_list.c: count nodes in one block, each with its own slice of one pool. */
module CircularLists {
  import opened Bits
  import opened Strides

  /** A node; its links are positions in the node block and data is an offset into the pool. */
  datatype Node = Node(data: nat, prev: nat, next: nat, index: nat)

  /** The node after i. */
  function After(i: nat, n: nat): nat {
    if i + 1 == n then 0 else i + 1
  }

  /** The node before i. */
  function Before(i: nat, n: nat): int {
    if i == 0 then n - 1 else i - 1
  }

  /** The node reached by following next k times. */
  function Walk(nodes: seq<Node>, from: nat, k: nat): nat {
    if k == 0 then from
    else
      var i := Walk(nodes, from, k - 1);
      if i < |nodes| then nodes[i].next else i
  }

  /** The links form a ring, and the data pointers cut the pool into one slice a node. */
  ghost predicate Ring(nodes: seq<Node>, size: nat) {
    forall i :: 0 <= i < |nodes| ==> nodes[i] == Node(At(0, size, i), Before(i, |nodes|), After(i, |nodes|), i)
  }

  lemma LinksInverse(nodes: seq<Node>, size: nat, i: nat)
    requires Ring(nodes, size) && i < |nodes|
    ensures nodes[i].next < |nodes| && nodes[nodes[i].next].prev == i
    ensures nodes[i].prev < |nodes| && nodes[nodes[i].prev].next == i
  {
    var n, p := nodes[i].next, nodes[i].prev;
    assert n == After(i, |nodes|) && p == Before(i, |nodes|);
    assert nodes[n].prev == Before(n, |nodes|) && nodes[p].next == After(p, |nodes|);
    hide At;
  }

  lemma {:induction false} WalkTo(nodes: seq<Node>, size: nat, from: nat, k: nat)
    requires Ring(nodes, size) && from < |nodes| && k <= |nodes|
    ensures Walk(nodes, from, k) == if from + k < |nodes| then from + k else from + k - |nodes|
  {
    if k > 0 {
      WalkTo(nodes, size, from, k - 1);
    }
    hide At;
  }

  /** Following next from any node meets every node exactly once before it returns. */
  lemma OneCycle(nodes: seq<Node>, size: nat, from: nat, to: nat)
    requires Ring(nodes, size) && from < |nodes| && to < |nodes|
    ensures exists k: nat :: k < |nodes| && Walk(nodes, from, k) == to
    ensures forall j: nat, k: nat :: j < k < |nodes| ==> Walk(nodes, from, j) != Walk(nodes, from, k)
    ensures Walk(nodes, from, |nodes|) == from
  {
    hide Ring, Walk;
    WalkTo(nodes, size, from, |nodes|);
    var k: nat := if from <= to then to - from else to + |nodes| - from;
    WalkTo(nodes, size, from, k);
    forall j: nat, k: nat | j < k < |nodes|
      ensures Walk(nodes, from, j) != Walk(nodes, from, k)
    {
      WalkTo(nodes, size, from, j);
      WalkTo(nodes, size, from, k);
    }
  }

  /** No two nodes share a byte of the pool, and every slice lies inside it. */
  lemma SlicesDisjoint(nodes: seq<Node>, size: nat, i: nat, j: nat)
    requires Ring(nodes, size) && i < |nodes| && j < |nodes|
    ensures nodes[i].data + size <= At(0, size, |nodes|)
    ensures i != j ==> nodes[i].data + size <= nodes[j].data || nodes[j].data + size <= nodes[i].data
  {
    AtApart(0, size, i, |nodes|);
    if i < j {
      AtApart(0, size, i, j);
    } else if j < i {
      AtApart(0, size, j, i);
    }
    hide At;
  }

  class CircularList {
    const nodes: array<Node>
    const pool: array<byte>
    const elementSize: nat

    ghost predicate Valid()
      reads nodes
    {
      Ring(nodes[..], elementSize) && pool.Length == At(0, elementSize, nodes.Length)
    }

    constructor (count: nat, elementSize: nat)
      ensures Valid() && fresh(nodes) && fresh(pool)
      ensures nodes.Length == count && this.elementSize == elementSize
      ensures forall k :: 0 <= k < pool.Length ==> pool[k] == 0
    {
      this.elementSize := elementSize;
      nodes := new Node[count](_ => Node(0, 0, 0, 0));
      pool := new byte[At(0, elementSize, count)](_ => 0);
      new;
      Link();
    }

    /** Writes every node's links and slice. */
    method Link()
      modifies nodes
      ensures Ring(nodes[..], elementSize)
    {
      var count := nodes.Length;
      var i, pointer := 0, 0;
      AtNext(0, elementSize, 0);
      hide At;
      while i < count
        invariant 0 <= i <= count && pointer == At(0, elementSize, i)
        invariant forall k :: 0 <= k < i ==>
          nodes[k] == Node(At(0, elementSize, k), Before(k, count), After(k, count), k)
      {
        AtNext(0, elementSize, i);
        var next := i + 1;
        if next == count {
          next := 0;
        }
        var prev := i - 1;
        if prev < 0 {
          prev := count - 1;
        }
        nodes[i] := Node(pointer, prev, next, i);
        i, pointer := i + 1, pointer + elementSize;
      }
    }

    /** Clears every slice and leaves the links alone. */
    method Reset()
      requires Valid()
      modifies pool
      ensures Valid()
      ensures forall k :: 0 <= k < pool.Length ==> pool[k] == 0
    {
      forall k | 0 <= k < pool.Length {
        pool[k] := 0;
      }
    }
  }
}
