/**
 A pass does not depend on what the coroutines are: renaming them, each to a name of its own, before
 a pass or after it comes to the same. Scheduler.dfy has nodes, Parking has numbered coroutines.
 */
module Relabels {
  import opened Sequences
  import opened CoroLists
  import opened SchedulerPass

  function Map<T, U>(f: T -> U, s: seq<T>): seq<U> {
    if s == [] then [] else [f(s[0])] + Map(f, s[1..])
  }

  /** No two elements of `dom` have the same name. */
  ghost predicate OneToOne<T, U>(f: T -> U, dom: set<T>) {
    forall x, y | x in dom && y in dom && f(x) == f(y) :: x == y
  }

  ghost predicate Within<T>(s: seq<T>, dom: set<T>) {
    forall i | 0 <= i < |s| :: s[i] in dom
  }

  lemma {:induction false} MapAppend<T, U>(f: T -> U, a: seq<T>, b: seq<T>)
    ensures Map(f, a + b) == Map(f, a) + Map(f, b)
  {
    if a == [] {
      assert a + b == b;
    } else {
      assert (a + b)[1..] == a[1..] + b;
      MapAppend(f, a[1..], b);
    }
  }

  lemma {:induction false} MapWithout<T, U>(f: T -> U, dom: set<T>, s: seq<T>, x: T)
    requires OneToOne(f, dom) && Within(s, dom) && x in dom
    ensures Map(f, Without(s, x)) == Without(Map(f, s), f(x)) && Within(Without(s, x), dom)
  {
    if s != [] && s[0] != x {
      assert Within(s[1..], dom) && f(s[0]) != f(x);
      MapWithout(f, dom, s[1..], x);
    }
  }

  lemma {:induction false} MapElems<T, U>(f: T -> U, dom: set<T>, s: seq<T>)
    requires OneToOne(f, dom) && Within(s, dom)
    ensures forall x | x in dom :: f(x) in Map(f, s) <==> x in s
    ensures forall y | y in Map(f, s) :: exists x | x in s :: f(x) == y
    ensures NoDup(s) ==> NoDup(Map(f, s))
  {
    if s != [] {
      assert s == [s[0]] + s[1..] && Within(s[1..], dom);
      MapElems(f, dom, s[1..]);
      forall y | y in Map(f, s) ensures exists x | x in s :: f(x) == y {
        if y == f(s[0]) { assert s[0] in s; } else { assert y in Map(f, s[1..]); }
      }
      if NoDup(s) { assert s[0] !in s[1..] && f(s[0]) !in Map(f, s[1..]); }
    }
  }

  // ----- lists and states

  function MapLists<T, U>(f: T -> U, l: Lists<T>): Lists<U> {
    Lists(Map(f, l.free), Map(f, l.yielding), Map(f, l.suspended), Map(f, l.resumed))
  }

  ghost predicate ListsWithin<T>(l: Lists<T>, dom: set<T>) {
    Within(l.free, dom) && Within(l.yielding, dom) && Within(l.suspended, dom) && Within(l.resumed, dom)
  }

  lemma MapMove<T, U>(f: T -> U, dom: set<T>, l: Lists<T>, x: T, p: Place)
    requires OneToOne(f, dom) && ListsWithin(l, dom) && x in dom
    ensures MapLists(f, l.Move(x, p)) == MapLists(f, l).Move(f(x), p) && ListsWithin(l.Move(x, p), dom)
  {
    MapWithout(f, dom, l.free, x);
    MapWithout(f, dom, l.yielding, x);
    MapWithout(f, dom, l.suspended, x);
    MapWithout(f, dom, l.resumed, x);
    hide OneToOne, Without;
  }

  function MapSleepers<T, U>(f: T -> U, s: seq<Sleeper<T>>): seq<Sleeper<U>> {
    if s == [] then [] else [Sleeper(s[0].at, s[0].slot, f(s[0].coro))] + MapSleepers(f, s[1..])
  }

  ghost predicate SleepersWithin<T>(s: seq<Sleeper<T>>, dom: set<T>) {
    forall i | 0 <= i < |s| :: s[i].coro in dom
  }

  lemma {:induction false} MapPush<T, U>(f: T -> U, dom: set<T>, s: seq<Sleeper<T>>, x: Sleeper<T>)
    requires SleepersWithin(s, dom) && x.coro in dom
    ensures MapSleepers(f, PushSleeper(s, x)) == PushSleeper(MapSleepers(f, s), Sleeper(x.at, x.slot, f(x.coro)))
    ensures SleepersWithin(PushSleeper(s, x), dom)
  {
    if s == [] || !Earlier(s[0], x) {
      assert ([x] + s)[1..] == s;
    } else {
      MapPush(f, dom, s[1..], x);
      assert ([s[0]] + PushSleeper(s[1..], x))[1..] == PushSleeper(s[1..], x);
    }
  }

  lemma {:induction false} MapExpired<T, U>(f: T -> U, dom: set<T>, s: seq<Sleeper<T>>, now: int)
    requires SleepersWithin(s, dom)
    ensures Map(f, Expired(s, now)) == Expired(MapSleepers(f, s), now) && Within(Expired(s, now), dom)
    ensures MapSleepers(f, Unexpired(s, now)) == Unexpired(MapSleepers(f, s), now) && SleepersWithin(Unexpired(s, now), dom)
  {
    if s != [] && s[0].at <= now {
      MapExpired(f, dom, s[1..], now);
      assert ([s[0].coro] + Expired(s[1..], now))[1..] == Expired(s[1..], now);
    }
  }

  function MapState<T, U>(f: T -> U, st: State<T>): State<U> {
    State(MapLists(f, st.lists), Map(f, st.queue), MapSleepers(f, st.sleepers))
  }

  ghost predicate StateWithin<T>(st: State<T>, dom: set<T>) {
    ListsWithin(st.lists, dom) && Within(st.queue, dom) && SleepersWithin(st.sleepers, dom)
  }

  // ----- turns

  function MapOp<T, U>(f: T -> U, op: Op<T>): Op<U> {
    match op
    case AddOp => AddOp
    case PostOp(c) => PostOp(f(c))
    case EnlistOp => EnlistOp
    case ElsewhereOp(act) => ElsewhereOp(act)
  }

  function MapOps<T, U>(f: T -> U, ops: seq<Op<T>>): seq<Op<U>> {
    if ops == [] then [] else [MapOp(f, ops[0])] + MapOps(f, ops[1..])
  }

  function MapTurn<T, U>(f: T -> U, turn: Turn<T>): Turn<U> {
    Turn(MapOps(f, turn.ops), turn.fate)
  }

  ghost predicate OpsWithin<T>(ops: seq<Op<T>>, dom: set<T>) {
    forall i | 0 <= i < |ops| && ops[i].PostOp? :: ops[i].coro in dom
  }

  lemma MapDoOp<T, U>(f: T -> U, dom: set<T>, st: State<T>, op: Op<T>)
    requires OneToOne(f, dom) && StateWithin(st, dom) && (op.PostOp? ==> op.coro in dom)
    ensures MapState(f, DoOp(st, op)) == DoOp(MapState(f, st), MapOp(f, op)) && StateWithin(DoOp(st, op), dom)
  {
    match op
    case AddOp =>
      if st.lists.free != [] { MapMove(f, dom, st.lists, st.lists.free[0], Yielding); }
    case PostOp(c) =>
      MapAppend(f, st.queue, [c]);
      assert [c][1..] == [];
    case EnlistOp =>
    case ElsewhereOp(_) =>
  }

  lemma {:induction false} MapDoOps<T, U>(f: T -> U, dom: set<T>, st: State<T>, ops: seq<Op<T>>)
    requires OneToOne(f, dom) && StateWithin(st, dom) && OpsWithin(ops, dom)
    ensures MapState(f, DoOps(st, ops)) == DoOps(MapState(f, st), MapOps(f, ops)) && StateWithin(DoOps(st, ops), dom)
    decreases |ops|
  {
    hide OneToOne, StateWithin, MapState, DoOp;
    if ops != [] {
      MapDoOp(f, dom, st, ops[0]);
      MapDoOps(f, dom, DoOp(st, ops[0]), ops[1..]);
    }
  }

  lemma MapDoFate<T, U>(f: T -> U, dom: set<T>, st: State<T>, c: T, fate: Fate, slot: T -> nat, slot': U -> nat)
    requires OneToOne(f, dom) && StateWithin(st, dom) && c in dom && slot'(f(c)) == slot(c)
    ensures MapState(f, DoFate(st, c, fate, slot)) == DoFate(MapState(f, st), f(c), fate, slot')
    ensures StateWithin(DoFate(st, c, fate, slot), dom)
  {
    hide OneToOne, Within, SleepersWithin;
    MapMove(f, dom, st.lists, c, Destination(fate));
    if fate.Sleeps? { MapPush(f, dom, st.sleepers, Sleeper(fate.until, slot(c), c)); }
  }

  lemma MapDoTurn<T, U>(f: T -> U, dom: set<T>, st: State<T>, c: T, turn: Turn<T>, slot: T -> nat, slot': U -> nat)
    requires OneToOne(f, dom) && StateWithin(st, dom) && c in dom && OpsWithin(turn.ops, dom) && slot'(f(c)) == slot(c)
    ensures MapState(f, DoTurn(st, c, turn, slot)) == DoTurn(MapState(f, st), f(c), MapTurn(f, turn), slot')
    ensures StateWithin(DoTurn(st, c, turn, slot), dom)
  {
    hide OneToOne, StateWithin, MapState, DoFate, DoOps, OpsWithin;
    MapDoOps(f, dom, st, turn.ops);
    MapDoFate(f, dom, DoOps(st, turn.ops), c, turn.fate, slot, slot');
  }

  /** The same turns, up to the names. */
  ghost predicate SameTurns<T, U>(f: T -> U, dom: set<T>, turns: nat -> Turn<T>, turns': nat -> Turn<U>) {
    forall i: nat :: turns'(i) == MapTurn(f, turns(i)) && OpsWithin(turns(i).ops, dom)
  }

  ghost predicate SameOps<T, U>(f: T -> U, dom: set<T>, posting: nat -> seq<Op<T>>, posting': nat -> seq<Op<U>>) {
    forall i: nat :: posting'(i) == MapOps(f, posting(i)) && OpsWithin(posting(i), dom)
  }

  ghost predicate SameSlots<T, U>(f: T -> U, dom: set<T>, slot: T -> nat, slot': U -> nat) {
    forall c | c in dom :: slot'(f(c)) == slot(c)
  }

  function MapRound<T, U>(f: T -> U, r: Round<T>): Round<U> {
    Round(r.now, MapOps(f, r.top), (i: nat) => MapOps(f, r.posting(i)), MapOps(f, r.drained), MapOps(f, r.resumed),
          (i: nat) => MapTurn(f, r.turns(i)))
  }

  ghost predicate RoundWithin<T>(r: Round<T>, dom: set<T>) {
    && OpsWithin(r.top, dom) && (forall i: nat :: OpsWithin(r.posting(i), dom)) && OpsWithin(r.drained, dom)
    && OpsWithin(r.resumed, dom) && (forall i: nat :: OpsWithin(r.turns(i).ops, dom))
  }

  lemma {:induction false} MapRunAll<T, U>(f: T -> U, dom: set<T>, st: State<T>, todo: seq<T>,
    turns: nat -> Turn<T>, turns': nat -> Turn<U>, slot: T -> nat, slot': U -> nat, i: nat)
    requires OneToOne(f, dom) && StateWithin(st, dom) && Within(todo, dom) && SameTurns(f, dom, turns, turns')
    requires SameSlots(f, dom, slot, slot')
    ensures MapState(f, RunAll(st, todo, turns, slot, i)) == RunAll(MapState(f, st), Map(f, todo), turns', slot', i)
    ensures StateWithin(RunAll(st, todo, turns, slot, i), dom)
    decreases |todo|
  {
    hide OneToOne, StateWithin, MapState, DoTurn, OpsWithin, MapTurn;
    if todo != [] {
      assert turns'(i) == MapTurn(f, turns(i)) && OpsWithin(turns(i).ops, dom) && todo[0] in dom;
      MapDoTurn(f, dom, st, todo[0], turns(i), slot, slot');
      MapRunAll(f, dom, DoTurn(st, todo[0], turns(i), slot), todo[1..], turns, turns', slot, slot', i + 1);
    }
  }

  lemma {:induction false} MapResumeAll<T, U>(f: T -> U, dom: set<T>, l: Lists<T>, q: seq<T>)
    requires OneToOne(f, dom) && ListsWithin(l, dom) && Within(q, dom)
    ensures MapLists(f, ResumeAll(l, q)) == ResumeAll(MapLists(f, l), Map(f, q)) && ListsWithin(ResumeAll(l, q), dom)
    decreases |q|
  {
    hide OneToOne, ListsWithin, MapLists, Lists.Move;
    if q != [] {
      MapMove(f, dom, l, q[0], Resumed);
      MapResumeAll(f, dom, l.Move(q[0], Resumed), q[1..]);
    }
  }

  lemma {:induction false} MapPostAll<T, U>(f: T -> U, dom: set<T>, st: State<T>, due: seq<T>,
    posting: nat -> seq<Op<T>>, posting': nat -> seq<Op<U>>, i: nat)
    requires OneToOne(f, dom) && StateWithin(st, dom) && Within(due, dom) && SameOps(f, dom, posting, posting')
    ensures MapState(f, PostAll(st, due, posting, i)) == PostAll(MapState(f, st), Map(f, due), posting', i)
    ensures StateWithin(PostAll(st, due, posting, i), dom)
    decreases |due|
  {
    hide OneToOne, ListsWithin, SleepersWithin, MapLists, MapSleepers, DoOps, OpsWithin, MapOps;
    assert posting'(i) == MapOps(f, posting(i)) && OpsWithin(posting(i), dom);
    MapDoOps(f, dom, st, posting(i));
    if due != [] {
      var t := DoOps(st, posting(i));
      MapAppend(f, t.queue, [due[0]]);
      assert Map(f, [due[0]]) == [f(due[0])] by { assert [due[0]][1..] == []; }
      MapPostAll(f, dom, t.(queue := t.queue + [due[0]]), due[1..], posting, posting', i + 1);
    }
  }

  lemma MapWakeUp<T, U>(f: T -> U, dom: set<T>, st: State<T>, now: int, posting: nat -> seq<Op<T>>, posting': nat -> seq<Op<U>>)
    requires OneToOne(f, dom) && StateWithin(st, dom) && SameOps(f, dom, posting, posting')
    ensures MapState(f, WakeUp(st, now, posting)) == WakeUp(MapState(f, st), now, posting')
    ensures StateWithin(WakeUp(st, now, posting), dom)
  {
    hide OneToOne, ListsWithin, SleepersWithin, MapLists, SameOps, PostAll;
    MapExpired(f, dom, st.sleepers, now);
    MapPostAll(f, dom, st.(sleepers := Unexpired(st.sleepers, now)), Expired(st.sleepers, now), posting, posting', 0);
  }

  lemma MapDrain<T, U>(f: T -> U, dom: set<T>, st: State<T>)
    requires OneToOne(f, dom) && StateWithin(st, dom)
    ensures MapState(f, Drain(st)) == Drain(MapState(f, st)) && StateWithin(Drain(st), dom)
  {
    hide OneToOne, ListsWithin, SleepersWithin, MapLists;
    MapResumeAll(f, dom, st.lists, st.queue);
  }

  lemma {:induction false} MapLength<T, U>(f: T -> U, s: seq<T>)
    ensures |Map(f, s)| == |s|
  {
    if s != [] { MapLength(f, s[1..]); }
  }

  lemma MapReady<T, U>(f: T -> U, dom: set<T>, st: State<T>, r: Round<T>)
    requires OneToOne(f, dom) && StateWithin(st, dom) && RoundWithin(r, dom)
    ensures MapState(f, Awake(st, r)) == Awake(MapState(f, st), MapRound(f, r))
    ensures MapState(f, Ready(st, r)) == Ready(MapState(f, st), MapRound(f, r)) && StateWithin(Ready(st, r), dom)
  {
    var m := MapRound(f, r);
    assert SameOps(f, dom, r.posting, m.posting);
    hide OneToOne, StateWithin, MapState, SameOps, OpsWithin, DoOps, WakeUp, Drain, MapOps;
    MapDoOps(f, dom, st, r.top);
    MapWakeUp(f, dom, DoOps(st, r.top), r.now, r.posting, m.posting);
    MapDrain(f, dom, Awake(st, r));
    MapDoOps(f, dom, Drain(Awake(st, r)), r.drained);
  }

  /** Renaming commutes with a pass, and keeps its drain. */
  lemma MapPass<T, U>(f: T -> U, dom: set<T>, st: State<T>, r: Round<T>, slot: T -> nat, slot': U -> nat)
    requires OneToOne(f, dom) && StateWithin(st, dom) && RoundWithin(r, dom) && SameSlots(f, dom, slot, slot')
    ensures MapState(f, Pass(st, r, slot)) == Pass(MapState(f, st), MapRound(f, r), slot')
    ensures StateWithin(Pass(st, r, slot), dom)
    ensures MapState(f, Awake(st, r)) == Awake(MapState(f, st), MapRound(f, r))
  {
    var m := MapRound(f, r);
    assert SameTurns(f, dom, r.turns, m.turns);
    hide OneToOne, SameSlots, SameTurns, Ready, Awake, RunAll, DoOps, Within, SleepersWithin, MapSleepers, OpsWithin, MapOps;
    var d := Ready(st, r);
    MapReady(f, dom, st, r);
    MapRunAll(f, dom, d, d.lists.resumed, r.turns, m.turns, slot, slot', 0);
    MapDoOps(f, dom, RunAll(d, d.lists.resumed, r.turns, slot, 0), r.resumed);
    var a := AfterResumed(st, r, slot);
    MapLength(f, d.lists.resumed);
    MapRunAll(f, dom, a, a.lists.yielding, r.turns, m.turns, slot, slot', |d.lists.resumed|);
  }
}
