/** Several circular lists with no node in common: an operation on one leaves the others alone. */
module Rings {
  import opened IntrusiveList

  datatype Ring = Ring(head: Node, nodes: seq<Node>) {
    ghost function All(): set<Node> {
      {head} + set n | n in nodes
    }
  }

  ghost predicate Good(r: Ring)
    reads r.All()
  {
    List(r.head, r.nodes)
  }

  /** Each of the lists is well linked and uses only nodes of `all`, and no two share a node. */
  ghost predicate Linked(rs: seq<Ring>, all: set<Node>)
    reads all
  {
    && (forall i | 0 <= i < |rs| :: rs[i].All() <= all && Good(rs[i]))
    && (forall i, j | 0 <= i < j < |rs| :: rs[i].All() !! rs[j].All())
  }

  ghost predicate Nowhere(node: Node, rs: seq<Ring>) {
    forall i | 0 <= i < |rs| :: node !in rs[i].All()
  }

  method RemoveFrom(node: Node, ghost rs: seq<Ring>, ghost all: set<Node>, ghost i: nat, ghost k: nat)
    requires Linked(rs, all) && i < |rs| && k < |rs[i].nodes| && rs[i].nodes[k] == node
    modifies all
    ensures var t := rs[i := Ring(rs[i].head, rs[i].nodes[..k] + rs[i].nodes[k + 1..])];
      Linked(t, all) && Nowhere(node, t)
  {
    ghost var h, s := rs[i].head, rs[i].nodes;
    assert rs[i].All() <= all && Good(rs[i]);
    assert After(h, s, k).prev == Here(h, s, k) && Here(h, s, k + 1).next == After(h, s, k + 1);
    Remove(node, h, s, k);
    ghost var t := rs[i := Ring(h, s[..k] + s[k + 1..])];
    assert t[i].All() == rs[i].All() - {node};
    forall j | 0 <= j < |rs| ensures node !in t[j].All() && t[j].All() <= all && Good(t[j]) {
      if j != i { assert rs[i].All() !! rs[j].All(); }
    }
  }

  method InsertInto(head: Node, node: Node, ghost rs: seq<Ring>, ghost all: set<Node>, ghost i: nat)
    requires Linked(rs, all) && i < |rs| && rs[i].head == head && Nowhere(node, rs) && node in all
    modifies all
    ensures Linked(rs[i := Ring(head, [node] + rs[i].nodes)], all)
  {
    ghost var s := rs[i].nodes;
    assert rs[i].All() <= all && Good(rs[i]) && node !in rs[i].All();
    assert Here(head, s, 0).next == After(head, s, 0);
    Insert(head, node, s);
    ghost var t := rs[i := Ring(head, [node] + s)];
    assert t[i].All() == rs[i].All() + {node};
    forall j | 0 <= j < |rs| && j != i ensures node !in rs[j].All() && Good(t[j]) {
      assert rs[i].All() !! rs[j].All();
    }
  }
}
