/** The coroutine scheduler on its four intrusive lists. */
module Scheduler {
  import opened Sequences
  import opened CoroLists
  import opened IntrusiveList
  import opened Rings
  import opened SchedulerPass

  class CoroutineScheduler {
    const coros: seq<Node>
    const freeHead: Node
    const suspendHead: Node
    const resumeHead: Node
    const yieldHead: Node
    ghost const nodes: set<Node>
    var resumeQueue: seq<Node>
    var sleepQueue: seq<Sleeper<Node>>
    ghost var lists: Lists<Node>

    function Head(p: Place): Node {
      match p
      case Free => freeHead
      case Yielding => yieldHead
      case Suspended => suspendHead
      case Resumed => resumeHead
    }

    ghost function Lists4(l: Lists<Node>): seq<Ring> {
      [Ring(freeHead, l.free), Ring(yieldHead, l.yielding), Ring(suspendHead, l.suspended), Ring(resumeHead, l.resumed)]
    }

    ghost function Index(p: Place): (i: nat)
      ensures i < 4
    {
      match p
      case Free => 0
      case Yielding => 1
      case Suspended => 2
      case Resumed => 3
    }

    /** Every list is well linked, no two lists have a node in common, and together they hold
        exactly the coroutines; the sleepers are in the order of the heap. */
    ghost predicate Valid()
      reads this, nodes
    {
      && nodes == {freeHead, suspendHead, resumeHead, yieldHead} + (set n | n in coros)
      && Linked(Lists4(lists), nodes)
      && lists.Partition(coros)
      && Numbered(coros)
      && Ordered(sleepQueue)
      && (forall n | n in resumeQueue :: n in coros)
      && (forall i | 0 <= i < |sleepQueue| :: sleepQueue[i].coro in coros)
    }

    ghost function State(): SchedulerPass.State<Node>
      reads this
    {
      SchedulerPass.State(lists, resumeQueue, sleepQueue)
    }

    constructor (coroNum: nat)
      ensures Valid() && |coros| == coroNum && fresh(nodes)
      ensures forall i | 0 <= i < coroNum :: coros[i].id == i
      ensures State() == SchedulerPass.State(Lists(Reverse(coros), [], [], []), [], [])
    {
      var all, f, y, s, r := MakeLists(coroNum);
      coros := all;
      freeHead, suspendHead, resumeHead, yieldHead := f, s, r, y;
      resumeQueue, sleepQueue := [], [];
      lists := Lists(Reverse(all), [], [], []);
      nodes := {f, s, r, y} + set n | n in all;
    }

    /** The four lists without `node`. */
    ghost function Dropped(l: Lists<Node>, node: Node): Lists<Node> {
      Lists(Without(l.free, node), Without(l.yielding, node), Without(l.suspended, node), Without(l.resumed, node))
    }

    lemma RingsWithout(l: Lists<Node>, node: Node, q: Place, k: nat)
      requires l.Valid() && k < |l.At(q)| && l.At(q)[k] == node
      ensures Lists4(l)[Index(q) := Ring(Head(q), l.At(q)[..k] + l.At(q)[k + 1..])] == Lists4(Dropped(l, node))
    {
      assert NoDup(l.At(q));
      WithoutAt(l.At(q), k);
      OnlyAt(l, node, q);
      assert l.free == l.At(Free) && l.yielding == l.At(Yielding) && l.suspended == l.At(Suspended) && l.resumed == l.At(Resumed);
    }

    lemma RingsWith(l: Lists<Node>, node: Node, p: Place)
      ensures var w := Lists4(Dropped(l, node));
        Lists4(l.Move(node, p)) == w[Index(p) := Ring(Head(p), [node] + w[Index(p)].nodes)]
    {
    }

    /** Unlinks `node` from the list it is in and inserts it at the front of list `p`. */
    method Relink(node: Node, p: Place, ghost l: Lists<Node>)
      requires Linked(Lists4(l), nodes) && l.Valid() && l.Has(node) && node in nodes
      modifies nodes
      ensures Linked(Lists4(l.Move(node, p)), nodes)
    {
      ghost var q :| node in l.At(q);
      ghost var k :| 0 <= k < |l.At(q)| && l.At(q)[k] == node;
      RemoveFrom(node, Lists4(l), nodes, Index(q), k);
      RingsWithout(l, node, q, k);
      InsertInto(Head(p), node, Lists4(Dropped(l, node)), nodes, Index(p));
      RingsWith(l, node, p);
    }

    /** `moveToSuspend`, `moveToResume`, `moveToYield` and the end of a coroutine. */
    method MoveTo(node: Node, p: Place)
      requires Valid() && node in coros
      modifies `lists, nodes
      ensures Valid() && lists == old(lists).Move(node, p)
    {
      Relink(node, p, lists);
      lists.MoveKeepsPartition(node, p, coros);
      lists := lists.Move(node, p);
    }

    /** Fails exactly when no coroutine is free. */
    method AddCoroutine() returns (ok: bool)
      requires Valid()
      modifies `lists, nodes
      ensures Valid() && ok == (old(lists.free) != [])
      ensures State() == DoOp(old(State()), AddOp)
    {
      assert Good(Lists4(lists)[0]);
      var info := Front(freeHead, lists.free);
      if info == null {
        return false;
      }
      assert info in lists.At(Free);
      MoveTo(info, Yielding);
      ok := true;
    }

    method Resume(coro: Node)
      requires Valid() && coro in coros
      modifies `resumeQueue
      ensures Valid() && State() == DoOp(old(State()), PostOp(coro))
    {
      resumeQueue := resumeQueue + [coro];
    }

    /** A coroutine that was not asleep is woken exactly by a wake-up at `until` or later. */
    method Sleep(cur: Node, until: int)
      requires Valid() && cur in coros
      modifies `lists, `sleepQueue, nodes
      ensures Valid() && State() == DoFate(old(State()), cur, Sleeps(until), Slot)
      ensures cur in lists.At(Suspended)
      ensures exists x :: x in sleepQueue && x.coro == cur && x.at == until && x.slot == cur.id
      ensures (forall x | x in old(sleepQueue) :: x.coro != cur) ==>
        forall now :: cur in Expired(sleepQueue, now) <==> until <= now
    {
      hide Linked, Lists.Partition, Numbered, Ordered, Expired;
      PushKeepsOrdered(sleepQueue, Sleeper(until, cur.id, cur));
      Pushed(sleepQueue, Sleeper(until, cur.id, cur));
      if forall x | x in sleepQueue :: x.coro != cur {
        forall now { AsleepUntil(State(), cur, until, Slot, now); }
      }
      sleepQueue := PushSleeper(sleepQueue, Sleeper(until, cur.id, cur));
      MoveTo(cur, Suspended);
    }

    /** With what is asked for before each of the resumes it posts, and after the last one. */
    method WakeUpSleep(now: int, posting: nat -> seq<Op<Node>>)
      requires Valid() && forall i :: OpsOk(posting(i))
      modifies this, nodes
      ensures Valid() && State() == SchedulerPass.WakeUp(old(State()), now, posting)
    {
      hide Linked, Lists.Partition, Numbered, Ordered, DoOps, OpsOk;
      var sleepList := PopExpired(now);
      ghost var st := State();
      for i := 0 to |sleepList|
        invariant Valid() && PostAll(State(), sleepList[i..], posting, i) == PostAll(st, sleepList, posting, 0)
      {
        assert sleepList[i] in sleepList && sleepList[i..][1..] == sleepList[i + 1..];
        Perform(posting(i));
        Resume(sleepList[i]);
      }
      Perform(posting(|sleepList|));
    }

    /** Takes exactly the sleepers that are due, earliest first, and leaves exactly the others. */
    method PopExpired(now: int) returns (sleepList: seq<Node>)
      requires Valid()
      modifies `sleepQueue
      ensures Valid() && sleepList == Expired(old(sleepQueue), now) && sleepQueue == Unexpired(old(sleepQueue), now)
      ensures |sleepList| <= |old(sleepQueue)| && sleepQueue == old(sleepQueue)[|sleepList|..]
      ensures forall i | 0 <= i < |sleepList| :: old(sleepQueue)[i].at <= now && sleepList[i] == old(sleepQueue)[i].coro
      ensures forall x | x in sleepQueue :: x.at > now
      ensures forall n | n in sleepList :: n in coros
    {
      hide Linked, Lists.Partition, Numbered, Ordered;
      WakesExactlyTheDue(sleepQueue, now);
      ghost var due, rest := Expired(sleepQueue, now), Unexpired(sleepQueue, now);
      sleepList := [];
      while sleepQueue != [] && sleepQueue[0].at <= now
        invariant sleepList + Expired(sleepQueue, now) == due && Unexpired(sleepQueue, now) == rest
        invariant Valid()
        invariant forall n | n in sleepList :: n in coros
        decreases |sleepQueue|
      {
        assert sleepList + Expired(sleepQueue, now) ==
          (sleepList + [sleepQueue[0].coro]) + Expired(sleepQueue[1..], now);
        OrderedTail(sleepQueue);
        sleepList := sleepList + [sleepQueue[0].coro];
        sleepQueue := sleepQueue[1..];
      }
      assert Expired(sleepQueue, now) == [];
    }

    method DrainQueue()
      requires Valid()
      modifies `lists, `resumeQueue, nodes
      ensures Valid() && State() == Drain(old(State()))
    {
      while resumeQueue != []
        invariant Valid() && Drain(State()) == Drain(old(State()))
        decreases |resumeQueue|
      {
        var coro := resumeQueue[0];
        resumeQueue := resumeQueue[1..];
        MoveTo(coro, Resumed);
      }
    }

    /** The operations name only coroutines of this scheduler. */
    ghost predicate OpsOk(ops: seq<Op<Node>>) {
      forall i | 0 <= i < |ops| && ops[i].PostOp? :: ops[i].coro in coros
    }

    ghost predicate TurnsOk(turns: nat -> Turn<Node>) {
      forall i: nat :: OpsOk(turns(i).ops)
    }

    ghost predicate RoundOk(r: Round<Node>) {
      OpsOk(r.top) && (forall i :: OpsOk(r.posting(i))) && OpsOk(r.drained) && OpsOk(r.resumed) && TurnsOk(r.turns)
    }

    method Perform(ops: seq<Op<Node>>)
      requires Valid() && OpsOk(ops)
      modifies this, nodes
      ensures Valid() && State() == DoOps(old(State()), ops)
    {
      ghost var st := State();
      for i := 0 to |ops|
        invariant Valid() && State() == DoOps(st, ops[..i])
      {
        DoOpsSnoc(st, ops, i);
        match ops[i] {
          case AddOp => var ok := AddCoroutine();
          case PostOp(coro) => Resume(coro);
          case EnlistOp =>
          case ElsewhereOp(_) =>
        }
      }
      assert ops[..|ops|] == ops;
    }

    /** `switchTo`, with everything that happens until the coroutine switches back. */
    method SwitchTo(node: Node, turn: Turn<Node>)
      requires Valid() && node in coros && OpsOk(turn.ops)
      modifies this, nodes
      ensures Valid() && State() == DoTurn(old(State()), node, turn, Slot)
    {
      hide Valid;
      Perform(turn.ops);
      match turn.fate {
        case Yields => MoveTo(node, Yielding);
        case Suspends => MoveTo(node, Suspended);
        case Sleeps(until) => Sleep(node, until);
        case Ends => MoveTo(node, Free);
      }
    }

    method SwitchToAll(todo: seq<Node>, turns: nat -> Turn<Node>, first: nat)
      requires Valid() && TurnsOk(turns) && forall n | n in todo :: n in coros
      modifies this, nodes
      ensures Valid() && State() == RunAll(old(State()), todo, turns, Slot, first)
    {
      ghost var st := State();
      for i := 0 to |todo|
        invariant Valid() && State() == RunAll(st, todo[..i], turns, Slot, first)
      {
        RunAllSnoc(st, todo, turns, Slot, first, i);
        assert OpsOk(turns(first + i).ops);
        SwitchTo(todo[i], turns(first + i));
      }
      assert todo[..|todo|] == todo;
    }

    /** One pass of `run`. */
    method RunPass(r: Round<Node>) returns (switched: seq<Node>)
      requires Valid() && RoundOk(r)
      modifies this, nodes
      ensures Valid() && State() == Pass(old(State()), r, Slot)
      ensures switched == Switched(old(State()), r, Slot)
      ensures lists.resumed == []
    {
      hide Linked, Drain, DoOps, SchedulerPass.WakeUp, RunAll;
      PassServesEverybody(State(), r, Slot);
      Perform(r.top);
      WakeUpSleep(r.now, r.posting);
      DrainQueue();
      Perform(r.drained);
      var resumeList := ResumeSnapshot();
      SwitchToAll(resumeList, r.turns, 0);
      Perform(r.resumed);
      var yieldList := RunYielding(r.turns, |resumeList|);
      switched := resumeList + yieldList;
    }

    /** `run`, which is stopped after as many passes as there are rounds. */
    method Run(rounds: seq<Round<Node>>)
      requires Valid() && forall i | 0 <= i < |rounds| :: RoundOk(rounds[i])
      modifies this, nodes
      ensures Valid() && State() == RunLoop(old(State()), rounds, Slot)
    {
      hide Linked, RoundOk, Pass;
      for i := 0 to |rounds|
        invariant Valid() && RunLoop(State(), rounds[i..], Slot) == RunLoop(old(State()), rounds, Slot)
      {
        assert rounds[i..][1..] == rounds[i + 1..];
        var switched := RunPass(rounds[i]);
      }
    }

    method ResumeSnapshot() returns (resumeList: seq<Node>)
      requires Valid()
      ensures resumeList == lists.resumed && forall n | n in resumeList :: n in coros
    {
      assert Good(Lists4(lists)[3]);
      resumeList := GetAllNodes(resumeHead, lists.resumed);
      assert resumeList == lists.At(Resumed);
    }

    method RunYielding(turns: nat -> Turn<Node>, first: nat) returns (yieldList: seq<Node>)
      requires Valid() && TurnsOk(turns)
      modifies this, nodes
      ensures Valid() && State() == RunAll(old(State()), old(lists.yielding), turns, Slot, first)
      ensures yieldList == old(lists.yielding)
    {
      assert Good(Lists4(lists)[1]);
      yieldList := GetAllNodes(yieldHead, lists.yielding);
      assert yieldList == lists.At(Yielding);
      SwitchToAll(yieldList, turns, first);
    }
  }

  /** The coroutines are an array, in which the index is the order of the addresses. */
  ghost predicate Numbered(coros: seq<Node>) {
    forall i | 0 <= i < |coros| :: coros[i].id == i
  }

  function Slot(n: Node): nat {
    n.id
  }

  method MakeNodes(n: nat) returns (nodes: seq<Node>)
    ensures |nodes| == n && NoDup(nodes) && fresh(nodes)
    ensures forall i | 0 <= i < n :: nodes[i].id == i
  {
    nodes := [];
    for i := 0 to n
      invariant |nodes| == i && NoDup(nodes) && fresh(nodes)
      invariant forall j | 0 <= j < i :: nodes[j].id == j
    {
      var node := new Node(i);
      nodes := nodes + [node];
    }
  }

  method NewHead() returns (head: Node)
    ensures fresh(head) && List(head, [])
  {
    head := new Node(0);
    Init(head);
  }

  /** Inserts the nodes one after the other, each in front of those before it. */
  method InsertAll(head: Node, nodes: seq<Node>)
    requires List(head, []) && NoDup(nodes) && head !in nodes
    modifies head, nodes
    ensures List(head, Reverse(nodes))
  {
    ghost var s: seq<Node> := [];
    for i := 0 to |nodes|
      invariant List(head, s) && s == Reverse(nodes[..i])
      invariant forall n | n in s :: n in nodes[..i]
    {
      assert Here(head, s, 0).next == After(head, s, 0);
      assert s != [] ==> s[0] in nodes[..i] && s[0] in nodes;
      Insert(head, nodes[i], s);
      ReverseAppend(nodes[..i], nodes[i]);
      assert nodes[..i] + [nodes[i]] == nodes[..i + 1];
      s := [nodes[i]] + s;
    }
    assert nodes[..|nodes|] == nodes;
  }

  lemma {:induction false} ReverseElems(s: seq<Node>)
    requires NoDup(s)
    ensures forall n :: n in Reverse(s) <==> n in s
    ensures NoDup(Reverse(s))
  {
    if s != [] {
      ReverseElems(s[1..]);
      assert s == [s[0]] + s[1..];
      assert s[0] !in s[1..];
    }
  }

  lemma FourLinked(f: Node, y: Node, s: Node, r: Node, free: seq<Node>, all: set<Node>)
    requires List(f, free) && List(y, []) && List(s, []) && List(r, [])
    requires f != y && f != s && f != r && y != s && y != r && s != r
    requires y !in free && s !in free && r !in free
    requires {f, y, s, r} <= all && forall n | n in free :: n in all
    ensures Linked([Ring(f, free), Ring(y, []), Ring(s, []), Ring(r, [])], all)
  {
    var rs := [Ring(f, free), Ring(y, []), Ring(s, []), Ring(r, [])];
    forall i | 0 <= i < 4 ensures rs[i].All() <= all && Good(rs[i]) { }
  }

  lemma ReversedCoros(all: seq<Node>, owned: set<Node>)
    requires NoDup(all) && forall n | n in all :: n in owned
    ensures Lists(Reverse(all), [], [], []).Partition(all)
    ensures forall n | n in Reverse(all) :: n in all && n in owned
  {
    ReverseElems(all);
    InitialLists(all, Reverse(all));
  }

  lemma InitialLists(all: seq<Node>, s: seq<Node>)
    requires NoDup(s) && forall n :: n in s <==> n in all
    ensures Lists(s, [], [], []).Partition(all)
  {
    var l := Lists(s, [], [], []);
    forall n | n in all ensures l.Has(n) { assert n in l.At(Free); }
  }

  /** The nodes of a scheduler: all coroutines in the free list, the last one first. */
  method MakeLists(n: nat) returns (all: seq<Node>, f: Node, y: Node, s: Node, r: Node)
    ensures |all| == n && fresh(all) && fresh({f, y, s, r})
    ensures forall i | 0 <= i < n :: all[i].id == i
    ensures Lists(Reverse(all), [], [], []).Partition(all)
    ensures Linked([Ring(f, Reverse(all)), Ring(y, []), Ring(s, []), Ring(r, [])], {f, s, r, y} + set n | n in all)
  {
    all := MakeNodes(n);
    f := NewHead();
    y := NewHead();
    s := NewHead();
    r := NewHead();
    ghost var owned := {f, s, r, y} + set n | n in all;
    ReversedCoros(all, owned);
    InsertAll(f, all);
    FourLinked(f, y, s, r, Reverse(all), owned);
  }
}
