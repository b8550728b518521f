/** Circular doubly linked lists through a head node, with the links inside the nodes. */
module IntrusiveList {
  import opened Sequences

  class Node {
    const id: nat
    var prev: Node?
    var next: Node?

    constructor (id: nat)
      ensures this.id == id && prev == null && next == null
    {
      this.id := id;
      prev, next := null, null;
    }
  }

  /** The circle of `head` and `s`: the node at position `i`, counted from the head, and the
      node that follows it. */
  ghost function Here(head: Node, s: seq<Node>, i: nat): Node {
    if 0 < i <= |s| then s[i - 1] else head
  }

  ghost function After(head: Node, s: seq<Node>, i: nat): Node {
    if i < |s| then s[i] else head
  }

  /** `head` heads a circular list of exactly the nodes `s`, in this order, linked both ways. */
  ghost predicate List(head: Node, s: seq<Node>)
    reads head, s
  {
    && head !in s && NoDup(s)
    && (forall i | 0 <= i <= |s| :: Here(head, s, i).next == After(head, s, i))
    && (forall i | 0 <= i <= |s| :: After(head, s, i).prev == Here(head, s, i))
  }

  method Init(head: Node)
    modifies head
    ensures List(head, [])
  {
    head.prev := head;
    head.next := head;
  }

  method Insert(head: Node, node: Node, ghost s: seq<Node>)
    requires List(head, s) && node != head && node !in s
    modifies head, node, head.next
    ensures List(head, [node] + s)
  {
    assert Here(head, s, 0).next == After(head, s, 0);
    node.prev := head;
    node.next := head.next;
    head.next.prev := node;
    head.next := node;
    ghost var t := [node] + s;
    forall i | 0 <= i <= |t|
      ensures Here(head, t, i).next == After(head, t, i) && After(head, t, i).prev == Here(head, t, i)
    {
      if i > 1 {
        assert Here(head, t, i) == Here(head, s, i - 1) && After(head, t, i) == After(head, s, i - 1);
        assert old(Here(head, s, i - 1).next) == After(head, s, i - 1);
      }
    }
  }

  /** Unlinks `node`, wherever it is linked; `s` and `k` say where. */
  method Remove(node: Node, ghost head: Node, ghost s: seq<Node>, ghost k: nat)
    requires List(head, s) && k < |s| && s[k] == node
    modifies node.prev, node.next
    ensures List(head, s[..k] + s[k + 1..])
  {
    assert After(head, s, k).prev == Here(head, s, k) && Here(head, s, k + 1).next == After(head, s, k + 1);
    node.prev.next := node.next;
    node.next.prev := node.prev;
    ghost var t := s[..k] + s[k + 1..];
    forall i | 0 <= i <= |t|
      ensures Here(head, t, i).next == After(head, t, i) && After(head, t, i).prev == Here(head, t, i)
    {
      assert Here(head, t, i) == Here(head, s, if i <= k then i else i + 1);
      assert After(head, t, i) == After(head, s, if i < k then i else i + 1);
    }
  }

  method IsEmpty(head: Node, ghost s: seq<Node>) returns (empty: bool)
    requires List(head, s)
    ensures empty == (s == [])
  {
    assert Here(head, s, 0).next == After(head, s, 0);
    empty := head.next == head;
  }

  method Front(head: Node, ghost s: seq<Node>) returns (front: Node?)
    requires List(head, s)
    ensures front == if s == [] then null else s[0]
  {
    assert Here(head, s, 0).next == After(head, s, 0);
    var empty := IsEmpty(head, s);
    front := if empty then null else head.next;
  }

  method GetAllNodes(head: Node, ghost s: seq<Node>) returns (result: seq<Node>)
    requires List(head, s)
    ensures result == s
  {
    result := [];
    assert Here(head, s, 0).next == After(head, s, 0);
    var cur := head.next;
    while cur != head
      invariant |result| <= |s| && result == s[..|result|]
      invariant cur == After(head, s, |result|)
      decreases |s| - |result|
    {
      assert Here(head, s, |result| + 1).next == After(head, s, |result| + 1);
      result := result + [cur];
      cur := cur.next;
    }
  }
}
