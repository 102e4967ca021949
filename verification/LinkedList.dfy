/** Doubly linked nodes in a ring, and the pointer operations on them. */
module LinkedLists {
  class Node<T> {
    var prev: Node?<T>
    var next: Node?<T>
    var value: T

    constructor (value: T)
      ensures next == this == prev && this.value == value
    {
      this.value := value;
      next, prev := this, this;
    }
  }

  function After<T>(c: seq<T>, i: nat): (j: nat)
    requires i < |c|
    ensures j < |c|
  {
    if i + 1 < |c| then i + 1 else 0
  }

  function Before<T>(c: seq<T>, i: nat): (j: nat)
    requires i < |c|
    ensures j < |c|
  {
    if i > 0 then i - 1 else |c| - 1
  }

  /** The nodes of `c`, in this order, form one ring. */
  ghost predicate Ring<T>(c: seq<Node<T>>)
    reads (set n | n in c)`next, (set n | n in c)`prev
  {
    && c != []
    && (forall i, j | 0 <= i < j < |c| :: c[i] != c[j])
    && (forall i | 0 <= i < |c| :: c[i].next == c[After(c, i)])
    && (forall i | 0 <= i < |c| :: c[i].prev == c[Before(c, i)])
  }

  function Without<T>(c: seq<T>, i: nat): (d: seq<T>)
    requires i < |c|
    ensures |d| == |c| - 1
    ensures forall k | 0 <= k < |d| :: d[k] == if k < i then c[k] else c[k + 1]
  {
    c[..i] + c[i + 1..]
  }

  /** Node `i` is bypassed on both sides, all other links are those of the ring `c`. */
  ghost predicate Bypassed<T>(c: seq<Node<T>>, i: nat)
    requires 1 <= i < |c|
    reads c
  {
    && (forall j, k | 0 <= j < k < |c| :: c[j] != c[k])
    && (forall k | 0 <= k < |c| && k != i :: c[k].next == if k == i - 1 then c[After(c, i)] else c[After(c, k)])
    && (forall k | 0 <= k < |c| && k != i :: c[k].prev == if k == After(c, i) then c[i - 1] else c[Before(c, k)])
  }

  lemma BypassedRing<T>(c: seq<Node<T>>, i: nat)
    requires 1 <= i < |c| && Bypassed(c, i)
    ensures Ring(Without(c, i))
  {
    var d := Without(c, i);
    forall k | 0 <= k < |d| ensures d[k].next == d[After(d, k)] {
      assert c[if k < i then k else k + 1].next == d[After(d, k)];
    }
    forall k | 0 <= k < |d| ensures d[k].prev == d[Before(d, k)] {
      assert c[if k < i then k else k + 1].prev == d[Before(d, k)];
    }
  }

  /** Takes a node out of its ring of at least two. */
  method UnlinkSelfUnchecked<T>(node: Node<T>, ghost c: seq<Node<T>>, ghost i: nat)
    requires Ring(c) && 1 <= i < |c| && c[i] == node
    modifies (set n | n in c)`next, (set n | n in c)`prev
    ensures Ring(Without(c, i))
  {
    var prevNode := node.prev;
    var nextNode := node.next;
    prevNode.next := nextNode;
    nextNode.prev := prevNode;
    BypassedRing(c, i);
  }

  function InsertedSecond<T>(c: seq<T>, x: T): (d: seq<T>)
    requires c != []
    ensures |d| == |c| + 1 && d[0] == c[0] && d[1] == x
    ensures forall k | 2 <= k < |d| :: d[k] == c[k - 1]
  {
    [c[0], x] + c[1..]
  }

  /** The links of the ring `c` with `x` between its first two nodes. */
  ghost predicate Spliced<T>(c: seq<Node<T>>, x: Node<T>)
    requires c != []
    reads c, x
  {
    && x !in c && (forall j, k | 0 <= j < k < |c| :: c[j] != c[k])
    && x.next == c[After(c, 0)] && x.prev == c[0]
    && (forall k | 0 <= k < |c| :: c[k].next == if k == 0 then x else c[After(c, k)])
    && (forall k | 0 <= k < |c| :: c[k].prev == if k == After(c, 0) then x else c[Before(c, k)])
  }

  lemma SplicedRing<T>(c: seq<Node<T>>, x: Node<T>)
    requires c != [] && Spliced(c, x)
    ensures Ring(InsertedSecond(c, x))
  {
    var d := InsertedSecond(c, x);
    forall k | 0 <= k < |d| ensures d[k].next == d[After(d, k)] {
      if k >= 2 {
        assert c[k - 1].next == c[After(c, k - 1)];
      }
    }
    forall k | 0 <= k < |d| ensures d[k].prev == d[Before(d, k)] {
      if k >= 2 {
        assert c[k - 1].prev == d[Before(d, k)];
      }
    }
  }

  /** Puts a node that is in no ring behind the first of a ring. */
  method LinkAfter<T>(linkedNode: Node<T>, linkingNode: Node<T>, ghost c: seq<Node<T>>)
    requires Ring(c) && c[0] == linkedNode && linkingNode !in c
    modifies (set n | n in c)`next, (set n | n in c)`prev, linkingNode`next, linkingNode`prev
    ensures Ring(InsertedSecond(c, linkingNode))
  {
    linkingNode.next := linkedNode.next;
    linkingNode.prev := linkedNode;
    linkedNode.next.prev := linkingNode;
    linkedNode.next := linkingNode;
    SplicedRing(c, linkingNode);
  }

  /** Puts a node that is in no ring in front of the first of a ring, that is, at its end. */
  method LinkBefore<T>(linkedNode: Node<T>, linkingNode: Node<T>, ghost c: seq<Node<T>>)
    requires Ring(c) && c[0] == linkedNode && linkingNode !in c
    modifies (set n | n in c)`next, (set n | n in c)`prev, linkingNode`next, linkingNode`prev
    ensures Ring(c + [linkingNode])
  {
    linkingNode.prev := linkedNode.prev;
    linkingNode.next := linkedNode;
    linkedNode.prev.next := linkingNode;
    linkedNode.prev := linkingNode;
    AppendedRing(c, linkingNode);
  }

  /** The links of the ring `c` with `x` between its last node and its first. */
  ghost predicate Appended<T>(c: seq<Node<T>>, x: Node<T>)
    requires c != []
    reads c, x
  {
    && x !in c && (forall j, k | 0 <= j < k < |c| :: c[j] != c[k])
    && x.next == c[0] && x.prev == c[|c| - 1]
    && (forall k | 0 <= k < |c| :: c[k].next == if k == |c| - 1 then x else c[After(c, k)])
    && (forall k | 0 <= k < |c| :: c[k].prev == if k == 0 then x else c[Before(c, k)])
  }

  lemma AppendedRing<T>(c: seq<Node<T>>, x: Node<T>)
    requires c != [] && Appended(c, x)
    ensures Ring(c + [x])
  {
    var d := c + [x];
    forall k | 0 <= k < |d| ensures d[k].next == d[After(d, k)] {
      if k < |c| {
        assert c[k].next == d[After(d, k)];
      }
    }
    forall k | 0 <= k < |d| ensures d[k].prev == d[Before(d, k)] {
      if k < |c| {
        assert c[k].prev == d[Before(d, k)];
      }
    }
  }

  /** Takes the last node off a ring; null when the ring has only its first. */
  method UnlinkBefore<T>(node: Node<T>, ghost c: seq<Node<T>>) returns (r: Node?<T>)
    requires Ring(c) && c[0] == node
    modifies (set n | n in c)`next, (set n | n in c)`prev
    ensures |c| == 1 ==> r == null && Ring(c)
    ensures |c| > 1 ==> r == c[|c| - 1] && Ring(c[..|c| - 1])
  {
    if node.prev == null || node == node.prev {
      return null;
    }
    ghost var last := |c| - 1;
    var prevNode := node.prev;
    prevNode.prev.next := node;
    node.prev := prevNode.prev;
    r := prevNode;
    BypassedRing(c, last);
    assert Without(c, last) == c[..last];
  }

  // ------------------------------------------------------------------ a header and its nodes

  method BringFront<T>(header: Node<T>, node: Node<T>, ghost nodes: seq<Node<T>>, ghost i: nat)
    requires Ring([header] + nodes) && i < |nodes| && nodes[i] == node
    modifies header`next, header`prev, (set n | n in nodes)`next, (set n | n in nodes)`prev
    ensures Ring([header] + ToFront(nodes, i, node))
  {
    ghost var c := [header] + nodes;
    ghost var d := Without(c, i + 1);
    UnlinkSelfUnchecked(node, c, i + 1);
    WithoutIsRest(c, i + 1);
    LinkAfter(header, node, d);
    MovedToFront(header, nodes, i);
  }

  method PushFront<T>(header: Node<T>, node: Node<T>, ghost nodes: seq<Node<T>>)
    requires Ring([header] + nodes) && node != header && node !in nodes
    modifies header`next, header`prev, (set n | n in nodes)`next, (set n | n in nodes)`prev, node`next, node`prev
    ensures Ring([header] + ([node] + nodes))
  {
    ghost var c := [header] + nodes;
    LinkAfter(header, node, c);
    assert InsertedSecond(c, node) == [header] + ([node] + nodes);
  }

  method PushBack<T>(header: Node<T>, node: Node<T>, ghost nodes: seq<Node<T>>)
    requires Ring([header] + nodes) && node != header && node !in nodes
    modifies header`next, header`prev, (set n | n in nodes)`next, (set n | n in nodes)`prev, node`next, node`prev
    ensures Ring([header] + (nodes + [node]))
  {
    ghost var c := [header] + nodes;
    LinkBefore(header, node, c);
    assert c + [node] == [header] + (nodes + [node]);
  }

  method PopBack<T>(header: Node<T>, ghost nodes: seq<Node<T>>) returns (node: Node<T>)
    requires Ring([header] + nodes) && nodes != []
    modifies header`next, header`prev, (set n | n in nodes)`next, (set n | n in nodes)`prev
    ensures node == nodes[|nodes| - 1] && Ring([header] + nodes[..|nodes| - 1])
  {
    ghost var c := [header] + nodes;
    node := UnlinkBefore(header, c);
    assert c[..|c| - 1] == [header] + nodes[..|nodes| - 1];
  }

  /** Moves the element at `i` to the front, where it is `e`. */
  function ToFront<T>(s: seq<T>, i: nat, e: T): (r: seq<T>)
    requires i < |s|
    ensures |r| == |s| && r[0] == e
    ensures forall k | 1 <= k < |r| :: r[k] == if k <= i then s[k - 1] else s[k]
  {
    [e] + s[..i] + s[i + 1..]
  }

  lemma WithoutIsRest<T>(c: seq<T>, i: nat)
    requires 1 <= i < |c| && forall j, k | 0 <= j < k < |c| :: c[j] != c[k]
    ensures c[i] !in Without(c, i) && Without(c, i)[0] == c[0]
    ensures forall x | x in Without(c, i) :: x in c
  {
  }

  lemma MovedToFront<T>(h: T, nodes: seq<T>, i: nat)
    requires i < |nodes|
    ensures InsertedSecond(Without([h] + nodes, i + 1), nodes[i]) == [h] + ToFront(nodes, i, nodes[i])
  {
  }

  lemma RingDistinct<T>(h: Node<T>, nodes: seq<Node<T>>)
    requires Ring([h] + nodes)
    ensures h !in nodes && forall i, j | 0 <= i < j < |nodes| :: nodes[i] != nodes[j]
  {
    var c := [h] + nodes;
    forall i, j | 0 <= i < j < |nodes| ensures nodes[i] != nodes[j] {
      assert c[i + 1] != c[j + 1];
    }
    forall i | 0 <= i < |nodes| ensures nodes[i] != h {
      assert c[0] != c[i + 1];
    }
  }
}
