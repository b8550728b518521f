/** `AsyncerPoller`: a linked list of events in the order of their last update, with a map from the
    id of an event to its place in the list. */
module AsyncerPollers {
  import opened Sequences
  import opened IntrusiveList

  ghost function Ids(s: seq<Node>): seq<int> {
    seq(|s|, i requires 0 <= i < |s| => s[i].id)
  }

  /** `push_back` on the list. */
  method PushBack(head: Node, node: Node, ghost s: seq<Node>)
    requires List(head, s) && node != head && node !in s
    modifies head, node, head.prev
    ensures List(head, s + [node])
  {
    assert After(head, s, |s|).prev == Here(head, s, |s|);
    node.prev := head.prev;
    node.next := head;
    head.prev.next := node;
    head.prev := node;
    ghost var t := s + [node];
    forall i | 0 <= i <= |t|
      ensures Here(head, t, i).next == After(head, t, i) && After(head, t, i).prev == Here(head, t, i)
    {
      if i < |s| {
        assert Here(head, t, i) == Here(head, s, i) && After(head, t, i) == After(head, s, i);
        assert old(Here(head, s, i).next) == After(head, s, i) && old(After(head, s, i).prev) == Here(head, s, i);
      }
    }
  }

  class AsyncerPoller {
    const events: Node
    var eventMap: map<int, Node>
    ghost var nodes: seq<Node>

    /** The map leads each id to the one node of the list that has it, and knows no other id. */
    ghost predicate Valid()
      reads this, events, nodes
    {
      && List(events, nodes)
      && (forall n | n in nodes :: n.id in eventMap && eventMap[n.id] == n)
      && (forall id | id in eventMap :: eventMap[id] in nodes && eventMap[id].id == id)
    }

    ghost function Repr(): set<Node>
      reads this
    {
      {events} + set n | n in nodes
    }

    /** The ids in the order of their last update. */
    ghost function Order(): seq<int>
      reads this
    {
      Ids(nodes)
    }

    constructor ()
      ensures Valid() && Order() == [] && fresh(events)
    {
      events := new Node(0);
      eventMap, nodes := map[], [];
      new;
      Init(events);
    }

    method UpdateEvent(id: nat)
      requires Valid()
      modifies this, Repr()
      ensures Valid() && Order() == Without(old(Order()), id) + [id] && eventMap.Keys == old(eventMap.Keys) + {id}
      ensures forall other | other in old(eventMap) && other != id :: other in eventMap && eventMap[other] == old(eventMap[other])
      ensures fresh(Repr() - old(Repr()))
      decreases id in eventMap
    {
      if id !in eventMap {
        ghost var before := nodes;
        var node := new Node(id);
        assert After(events, nodes, |nodes|).prev == Here(events, nodes, |nodes|);
        PushBack(events, node, nodes);
        nodes := nodes + [node];
        eventMap := eventMap[id := node];
        assert Ids(nodes) == Ids(before) + [id];
        NotThere(before, id);
        return;
      }
      RemoveEvent(id);
      NotThere(nodes, id);
      WithoutAbsent(Order(), id);
      UpdateEvent(id);
    }

    method RemoveEvent(id: int)
      requires Valid()
      modifies this, Repr()
      ensures Valid() && Order() == Without(old(Order()), id) && eventMap.Keys == old(eventMap.Keys) - {id}
      ensures forall other | other in old(eventMap) && other != id :: other in eventMap && eventMap[other] == old(eventMap[other])
      ensures Repr() <= old(Repr())
    {
      if id !in eventMap {
        NotThere(nodes, id);
        WithoutAbsent(Order(), id);
        return;
      }
      var node := eventMap[id];
      ghost var k :| 0 <= k < |nodes| && nodes[k] == node;
      assert After(events, nodes, k).prev == Here(events, nodes, k) && Here(events, nodes, k + 1).next == After(events, nodes, k + 1);
      Remove(node, events, nodes, k);
      RemovedId(nodes, k);
      nodes := nodes[..k] + nodes[k + 1..];
      eventMap := eventMap - {id};
    }

    /** The events that still exist, in the order of their last update. */
    method Poll(alive: set<int>) returns (due: seq<int>)
      requires Valid()
      ensures due == Kept(Order(), alive)
      ensures (forall id :: id in due <==> id in eventMap && id in alive) && NoDup(due) && InOrderOf(due, Order())
    {
      var tmp := GetAllNodes(events, nodes);
      due := [];
      for i := 0 to |tmp|
        invariant due == Kept(Order()[..i], alive)
      {
        assert Order()[..i + 1][..i] == Order()[..i];
        if tmp[i].id in alive {
          due := due + [tmp[i].id];
        }
      }
      assert Order()[..|tmp|] == Order();
      KeptElems(Order(), alive);
      OrderHasNoDuplicates();
    }

    lemma OrderHasNoDuplicates()
      requires Valid()
      ensures NoDup(Order()) && forall id :: id in eventMap <==> id in Order()
    {
      forall i, j | 0 <= i < j < |nodes| ensures nodes[i].id != nodes[j].id {
        assert nodes[i] in nodes && nodes[j] in nodes && nodes[i] != nodes[j];
      }
      forall id ensures id in eventMap <==> id in Order() {
        if id in eventMap {
          var k :| 0 <= k < |nodes| && nodes[k] == eventMap[id];
          assert Order()[k] == id;
        }
      }
    }

    lemma NotThere(s: seq<Node>, id: int)
      requires forall n | n in s :: n.id != id
      ensures id !in Ids(s) && Without(Ids(s), id) == Ids(s)
    {
      WithoutAbsent(Ids(s), id);
    }

    lemma RemovedId(s: seq<Node>, k: nat)
      requires k < |s| && forall i | 0 <= i < |s| && i != k :: s[i].id != s[k].id
      ensures Ids(s[..k] + s[k + 1..]) == Without(Ids(s), s[k].id)
    {
      var a, b := Ids(s[..k]), Ids(s[k + 1..]);
      assert Ids(s) == a + [s[k].id] + b;
      assert Ids(s[..k] + s[k + 1..]) == a + b;
      WithoutMiddle(a, s[k].id, b);
    }
  }

  ghost function Kept(ids: seq<int>, alive: set<int>): seq<int> {
    if ids == [] then []
    else Kept(ids[..|ids| - 1], alive) + if ids[|ids| - 1] in alive then [ids[|ids| - 1]] else []
  }

  lemma {:induction false} KeptElems(ids: seq<int>, alive: set<int>)
    ensures forall id :: id in Kept(ids, alive) <==> id in ids && id in alive
    ensures NoDup(ids) ==> NoDup(Kept(ids, alive))
    ensures InOrderOf(Kept(ids, alive), ids)
  {
    if ids != [] {
      var before, last := ids[..|ids| - 1], ids[|ids| - 1];
      assert ids == before + [last];
      KeptElems(before, alive);
      PrecedesOn(before, last);
      var k, t := Kept(before, alive), Kept(ids, alive);
      forall i, j | 0 <= i < j < |t| ensures Precedes(ids, t[i], t[j]) {
        assert t[i] == k[i] && k[i] in k;
        assert j < |k| ==> t[j] == k[j];
      }
    }
  }
}
