/**
 A whole pass of the scheduler on its lists is a run of Parking: from lists that show the coroutines
 of scheduler `k`, the pass ends with lists that show them in a world that the run leads to. So
 what Parking keeps in every run holds of the lists.
 */
module SchedulerRuns {
  import opened Options
  import opened Systems
  import opened Sequences
  import opened CoroLists
  import opened SchedulerPass
  import opened SchedulerOrder
  import opened SchedulerSteps
  import P = Parking

  lemma ReachesByAct(w: P.World, act: P.Act)
    requires P.Can(w, act)
    ensures Reaches(P.Next, w, P.Done(w, act))
  {
    hide P.Can, P.Done;
    ReachesBy(P.Next, w, act);
  }

  /** An act, where it is possible. */
  function Try(w: P.World, act: P.Act): P.World {
    if P.Can(w, act) then P.Done(w, act) else w
  }

  // ----- operations

  /** It is scheduler `j`, or a coroutine of it, that takes the act. */
  predicate ActOf(act: P.Act, j: nat) {
    match act
    case EnlistBy(c) => c.sched == j
    case ParkBy(c) => c.sched == j
    case WakeOf(c) => c.sched == j
    case Take(step) => match step
      case Drain(k) => k == j
      case SleepersPopped(k) => k == j
      case NextPhase(k) => k == j
      case _ => step.c.sched == j
  }

  /** What an operation is in the world, asked for while `c` runs, or nobody; adding finds no coroutine if
      none is free. */
  function OpWorld(st: State<Co>, w: P.World, c: Co, op: Op<Co>): P.World {
    match op
    case AddOp => if st.lists.free == [] then w else Try(w, P.Take(P.Add(st.lists.free[0])))
    case PostOp(d) => Try(w, P.WakeOf(d))
    case EnlistOp => Try(w, P.EnlistBy(c))
    case ElsewhereOp(act) => Try(w, act)
  }

  /** A resume is posted only for an entry of a wait queue, and a coroutine enters one at a time. */
  predicate OpFits(w: P.World, k: nat, c: Co, op: Op<Co>) {
    match op
    case AddOp => true
    case PostOp(d) => Mine(w, k, d) && P.Can(w, P.WakeOf(d))
    case EnlistOp => P.Can(w, P.EnlistBy(c))
    case ElsewhereOp(act) => P.Can(w, act) && !ActOf(act, k)
  }

  function OpsWorld(st: State<Co>, w: P.World, c: Co, ops: seq<Op<Co>>): P.World
    decreases |ops|
  {
    if ops == [] then w else OpsWorld(DoOp(st, ops[0]), OpWorld(st, w, c, ops[0]), c, ops[1..])
  }

  predicate OpsFit(st: State<Co>, w: P.World, k: nat, c: Co, ops: seq<Op<Co>>)
    decreases |ops|
  {
    ops == [] || (OpFits(w, k, c, ops[0]) && OpsFit(DoOp(st, ops[0]), OpWorld(st, w, c, ops[0]), k, c, ops[1..]))
  }

  /** Scheduler `k` is where it was, and no coroutine is lost. */
  ghost predicate SameLoop(w: P.World, u: P.World, k: nat) {
    u.cos.Keys == w.cos.Keys && (k in w.loops ==> k in u.loops && u.loops[k] == w.loops[k])
  }

  lemma OpIsARun(st: State<Co>, due: seq<Co>, w: P.World, k: nat, c: Co, op: Op<Co>)
    requires Shows(st, due, w, k) && P.Inv(w) && OpFits(w, k, c, op)
    ensures var u := OpWorld(st, w, c, op);
      Reaches(P.Next, w, u) && Shows(DoOp(st, op), due, u, k) && P.Inv(u) && SameLoop(w, u, k)
  {
    hide Shows, P.Inv;
    match op
    case AddOp =>
      AddIsAStep(st, due, w, k);
      if st.lists.free == [] {
        ReachesItself(P.Next, w);
      } else {
        ReachesByAct(w, P.Take(P.Add(st.lists.free[0])));
        P.ActKeepsInv(w, P.Take(P.Add(st.lists.free[0])));
      }
    case PostOp(d) =>
      PostIsAStep(st, due, w, k, d);
      ReachesByAct(w, P.WakeOf(d));
      P.ActKeepsInv(w, P.WakeOf(d));
    case EnlistOp =>
      EnlistShows(st, due, w, k, c);
      ReachesByAct(w, P.EnlistBy(c));
      P.ActKeepsInv(w, P.EnlistBy(c));
    case ElsewhereOp(act) =>
      ElsewhereShows(st, due, w, k, act);
      ReachesByAct(w, act);
      P.ActKeepsInv(w, act);
  }

  /** The lists do not show entries in wait queues. */
  lemma EnlistShows(st: State<Co>, due: seq<Co>, w: P.World, k: nat, c: Co)
    requires Shows(st, due, w, k) && c in w.cos
    ensures Shows(st, due, P.Enlist(w, c), k)
  {
    hide Lists.Valid, Coros;
    var u := P.Enlist(w, c);
    forall d | Mine(u, k, d) ensures ShowsCo(st, due, d, u.cos[d]) {
      assert Mine(w, k, d) && ShowsCo(st, due, d, w.cos[d]);
    }
    forall d | Mine(w, k, d) ensures Mine(u, k, d) { }
  }

  /** What another scheduler does leaves the lists of this one alone. */
  lemma ElsewhereShows(st: State<Co>, due: seq<Co>, w: P.World, k: nat, act: P.Act)
    requires Shows(st, due, w, k) && P.Can(w, act) && !ActOf(act, k)
    ensures Shows(st, due, P.Done(w, act), k) && SameLoop(w, P.Done(w, act), k)
  {
    Elsewhere(w, k, act);
    hide P.Done, P.Can, Lists.Valid, Coros, ActOf;
    var u := P.Done(w, act);
    forall d | Mine(u, k, d) ensures ShowsCo(st, due, d, u.cos[d]) {
      assert Mine(w, k, d) && ShowsCo(st, due, d, w.cos[d]);
    }
    forall d | Mine(w, k, d) ensures Mine(u, k, d) { }
  }

  lemma Elsewhere(w: P.World, k: nat, act: P.Act)
    requires P.Can(w, act) && !ActOf(act, k)
    ensures SameLoop(w, P.Done(w, act), k) && forall c | Mine(w, k, c) :: P.Done(w, act).cos[c] == w.cos[c]
  {
  }

  lemma {:induction false} OpsAreARun(st: State<Co>, due: seq<Co>, w: P.World, k: nat, c: Co, ops: seq<Op<Co>>)
    requires Shows(st, due, w, k) && P.Inv(w) && OpsFit(st, w, k, c, ops)
    ensures var u := OpsWorld(st, w, c, ops);
      Reaches(P.Next, w, u) && Shows(DoOps(st, ops), due, u, k) && P.Inv(u) && SameLoop(w, u, k)
    decreases |ops|
  {
    hide Shows, P.Inv, OpWorld, OpFits, DoOp, Reaches;
    if ops == [] {
      ReachesItself(P.Next, w);
    } else {
      var u := OpWorld(st, w, c, ops[0]);
      OpIsARun(st, due, w, k, c, ops[0]);
      OpsAreARun(DoOp(st, ops[0]), due, u, k, c, ops[1..]);
      ReachesOn(P.Next, w, u, OpsWorld(st, w, c, ops));
    }
  }

  // ----- a turn

  function FateAct(c: Co, fate: Fate): P.Act {
    match fate
    case Yields => P.Take(P.Yield(c))
    case Ends => P.Take(P.End(c))
    case Sleeps(_) => P.Take(P.Sleep(c))
    case Suspends => P.ParkBy(c)
  }

  /** From the switch to `c` until it returns. */
  function TurnWorld(st: State<Co>, w: P.World, c: Co, turn: Turn<Co>): P.World {
    Try(OpsWorld(st, Try(w, P.Take(P.Dispatch(c))), c, turn.ops), FateAct(c, turn.fate))
  }

  /** A coroutine suspends itself exactly if it has entered a wait queue. */
  predicate TurnFits(st: State<Co>, w: P.World, k: nat, c: Co, turn: Turn<Co>) {
    var u := Try(w, P.Take(P.Dispatch(c)));
    var v := OpsWorld(st, u, c, turn.ops);
    OpsFit(st, u, k, c, turn.ops) && c in v.cos && (turn.fate.Suspends? <==> v.cos[c].enlisted)
  }

  /** Scheduler `k` runs nobody at the moment and has `todo` left of its snapshot, in phase `p`. */
  ghost predicate Between(w: P.World, k: nat, p: P.Phase, todo: set<Co>) {
    k in w.loops && w.loops[k] == P.Loop(p, todo, None)
  }

  lemma DispatchIsARun(st: State<Co>, w: P.World, k: nat, p: P.Phase, todo: set<Co>, c: Co)
    requires Shows(st, [], w, k) && P.Inv(w) && Between(w, k, p, todo) && c in todo
    ensures var u := Try(w, P.Take(P.Dispatch(c)));
      && Reaches(P.Next, w, u) && Shows(st, [], u, k) && P.Inv(u) && P.Running(u, c) && c.sched == k
      && k in u.loops && u.loops[k] == P.Loop(p, todo - {c}, Some(c))
  {
    assert P.LoopInv(w, k, w.loops[k]);
    hide Shows, P.Inv, P.LoopInv;
    ReachesByAct(w, P.Take(P.Dispatch(c)));
    P.ActKeepsInv(w, P.Take(P.Dispatch(c)));
    SameCos(st, [], w, Try(w, P.Take(P.Dispatch(c))), k);
  }

  lemma FateIsARun(st: State<Co>, w: P.World, k: nat, c: Co, fate: Fate, slot: Co -> nat)
    requires Shows(st, [], w, k) && P.Inv(w) && P.Running(w, c) && c.sched == k && (fate.Suspends? <==> w.cos[c].enlisted)
    ensures var u := Try(w, FateAct(c, fate));
      && Reaches(P.Next, w, u) && Shows(DoFate(st, c, fate, slot), [], u, k) && P.Inv(u)
      && k in u.loops && u.loops[k] == w.loops[k].(current := None)
  {
    hide Shows, P.Inv, DoFate;
    FateIsAStep(st, [], w, k, c, fate, slot);
    ReachesByAct(w, FateAct(c, fate));
    P.ActKeepsInv(w, FateAct(c, fate));
  }

  lemma TurnIsARun(st: State<Co>, w: P.World, k: nat, p: P.Phase, todo: set<Co>, c: Co, turn: Turn<Co>, slot: Co -> nat)
    requires Shows(st, [], w, k) && P.Inv(w) && Between(w, k, p, todo) && c in todo && TurnFits(st, w, k, c, turn)
    ensures var u := TurnWorld(st, w, c, turn);
      Reaches(P.Next, w, u) && Shows(DoTurn(st, c, turn, slot), [], u, k) && P.Inv(u) && Between(u, k, p, todo - {c})
  {
    hide Shows, P.Inv, Try, OpsWorld, OpsFit, DoOps, DoFate, Reaches;
    DispatchIsARun(st, w, k, p, todo, c);
    var u := Try(w, P.Take(P.Dispatch(c)));
    OpsAreARun(st, [], u, k, c, turn.ops);
    var v := OpsWorld(st, u, c, turn.ops);
    FateIsARun(DoOps(st, turn.ops), v, k, c, turn.fate, slot);
    ReachesOn(P.Next, w, u, v);
    ReachesOn(P.Next, w, v, TurnWorld(st, w, c, turn));
  }

  // ----- a phase

  function AllWorld(st: State<Co>, w: P.World, todo: seq<Co>, turns: nat -> Turn<Co>, slot: Co -> nat, i: nat): P.World
    decreases |todo|
  {
    if todo == [] then w
    else AllWorld(DoTurn(st, todo[0], turns(i), slot), TurnWorld(st, w, todo[0], turns(i)), todo[1..], turns, slot, i + 1)
  }

  predicate AllFit(st: State<Co>, w: P.World, k: nat, todo: seq<Co>, turns: nat -> Turn<Co>, slot: Co -> nat, i: nat)
    decreases |todo|
  {
    todo == [] || (
      && TurnFits(st, w, k, todo[0], turns(i))
      && AllFit(DoTurn(st, todo[0], turns(i), slot), TurnWorld(st, w, todo[0], turns(i)), k, todo[1..], turns, slot, i + 1))
  }

  function Elems(s: seq<Co>): set<Co> {
    set c | c in s
  }

  lemma {:induction false} AllIsARun(
    st: State<Co>, w: P.World, k: nat, p: P.Phase, todo: seq<Co>, turns: nat -> Turn<Co>, slot: Co -> nat, i: nat)
    requires Shows(st, [], w, k) && P.Inv(w) && Between(w, k, p, Elems(todo)) && NoDup(todo)
    requires AllFit(st, w, k, todo, turns, slot, i)
    ensures var u := AllWorld(st, w, todo, turns, slot, i);
      Reaches(P.Next, w, u) && Shows(RunAll(st, todo, turns, slot, i), [], u, k) && P.Inv(u) && Between(u, k, p, {})
    decreases |todo|
  {
    hide Shows, P.Inv, TurnWorld, TurnFits, DoTurn, Reaches, Between;
    if todo == [] {
      ReachesItself(P.Next, w);
      assert Elems(todo) == {};
    } else {
      var c := todo[0];
      var u := TurnWorld(st, w, c, turns(i));
      assert todo == [c] + todo[1..] && c !in todo[1..];
      assert Elems(todo) - {c} == Elems(todo[1..]);
      TurnIsARun(st, w, k, p, Elems(todo), c, turns(i), slot);
      AllIsARun(DoTurn(st, c, turns(i), slot), u, k, p, todo[1..], turns, slot, i + 1);
      ReachesOn(P.Next, w, u, AllWorld(st, w, todo, turns, slot, i));
    }
  }

  // ----- the sleepers and the drain

  function PopWorld(w: P.World, cs: seq<Co>): P.World
    decreases |cs|
  {
    if cs == [] then w else PopWorld(Try(w, P.Take(P.PopSleeper(cs[0]))), cs[1..])
  }

  /** The coroutine that stands for nobody of scheduler `k`: while none of them runs, an operation
      comes from elsewhere. */
  function Nobody(k: nat): Co {
    P.Co(k, 0)
  }

  function PostWorld(st: State<Co>, w: P.World, k: nat, due: seq<Co>, posting: nat -> seq<Op<Co>>, i: nat): P.World
    decreases |due|
  {
    var t, u := DoOps(st, posting(i)), OpsWorld(st, w, Nobody(k), posting(i));
    if due == [] then u
    else PostWorld(t.(queue := t.queue + [due[0]]), Try(u, P.Take(P.PostExpired(due[0]))), k, due[1..], posting, i + 1)
  }

  predicate PostsFit(st: State<Co>, w: P.World, k: nat, due: seq<Co>, posting: nat -> seq<Op<Co>>, i: nat)
    decreases |due|
  {
    var t, u := DoOps(st, posting(i)), OpsWorld(st, w, Nobody(k), posting(i));
    && OpsFit(st, w, k, Nobody(k), posting(i))
    && (due == [] || PostsFit(t.(queue := t.queue + [due[0]]), Try(u, P.Take(P.PostExpired(due[0]))), k, due[1..], posting, i + 1))
  }

  lemma PopIsARun(st: State<Co>, due: seq<Co>, w: P.World, k: nat)
    requires Shows(st, due, w, k) && P.Inv(w) && P.LoopAt(w, k, P.Waking) && st.sleepers != []
    ensures var c := st.sleepers[0].coro; var u := Try(w, P.Take(P.PopSleeper(c)));
      Reaches(P.Next, w, u) && Shows(st.(sleepers := st.sleepers[1..]), due + [c], u, k) && P.Inv(u) && u.loops == w.loops
  {
    hide Shows, P.Inv;
    var c := st.sleepers[0].coro;
    PopIsAStep(st, due, w, k);
    ReachesByAct(w, P.Take(P.PopSleeper(c)));
    P.ActKeepsInv(w, P.Take(P.PopSleeper(c)));
  }

  lemma {:induction false} PopsAreARun(st: State<Co>, due: seq<Co>, w: P.World, k: nat, now: int)
    requires Shows(st, due, w, k) && P.Inv(w) && P.LoopAt(w, k, P.Waking)
    ensures var cs := Expired(st.sleepers, now); var u := PopWorld(w, cs);
      Reaches(P.Next, w, u) && Shows(st.(sleepers := Unexpired(st.sleepers, now)), due + cs, u, k) && P.Inv(u) && u.loops == w.loops
    decreases |st.sleepers|
  {
    hide Shows, P.Inv, Reaches, Try;
    if st.sleepers == [] || st.sleepers[0].at > now {
      ReachesItself(P.Next, w);
      assert due + [] == due;
    } else {
      var c, t := st.sleepers[0].coro, st.(sleepers := st.sleepers[1..]);
      var u := Try(w, P.Take(P.PopSleeper(c)));
      var cs := Expired(t.sleepers, now);
      PopIsARun(st, due, w, k);
      PopsAreARun(t, due + [c], u, k, now);
      assert due + [c] + cs == due + ([c] + cs) && ([c] + cs)[1..] == cs;
      ReachesOn(P.Next, w, u, PopWorld(u, cs));
    }
  }

  lemma PostExpiredIsARun(st: State<Co>, due: seq<Co>, w: P.World, k: nat)
    requires Shows(st, due, w, k) && P.Inv(w) && P.LoopAt(w, k, P.Posting) && due != []
    ensures var u := Try(w, P.Take(P.PostExpired(due[0])));
      Reaches(P.Next, w, u) && Shows(st.(queue := st.queue + [due[0]]), due[1..], u, k) && P.Inv(u) && SameLoop(w, u, k)
  {
    hide Shows, P.Inv;
    PostExpiredIsAStep(st, due, w, k);
    ReachesByAct(w, P.Take(P.PostExpired(due[0])));
    P.ActKeepsInv(w, P.Take(P.PostExpired(due[0])));
  }

  lemma {:induction false} PostsAreARun(st: State<Co>, due: seq<Co>, w: P.World, k: nat, posting: nat -> seq<Op<Co>>, i: nat)
    requires Shows(st, due, w, k) && P.Inv(w) && P.LoopAt(w, k, P.Posting) && PostsFit(st, w, k, due, posting, i)
    ensures var u := PostWorld(st, w, k, due, posting, i);
      Reaches(P.Next, w, u) && Shows(PostAll(st, due, posting, i), [], u, k) && P.Inv(u) && SameLoop(w, u, k)
    decreases |due|
  {
    hide Shows, P.Inv, Reaches, Try, DoOps, OpsWorld, OpsFit;
    OpsAreARun(st, due, w, k, Nobody(k), posting(i));
    if due != [] {
      var t, u := DoOps(st, posting(i)), OpsWorld(st, w, Nobody(k), posting(i));
      var v := Try(u, P.Take(P.PostExpired(due[0])));
      PostExpiredIsARun(t, due, u, k);
      PostsAreARun(t.(queue := t.queue + [due[0]]), due[1..], v, k, posting, i + 1);
      ReachesOn(P.Next, w, u, v);
      ReachesOn(P.Next, w, v, PostWorld(st, w, k, due, posting, i));
    }
  }

  lemma PoppedIsARun(st: State<Co>, due: seq<Co>, w: P.World, k: nat)
    requires Shows(st, due, w, k) && P.Inv(w) && Between(w, k, P.Waking, {})
    ensures var u := Try(w, P.Take(P.SleepersPopped(k)));
      Reaches(P.Next, w, u) && Shows(st, due, u, k) && P.Inv(u) && Between(u, k, P.Posting, {})
  {
    hide Shows, P.Inv;
    ReachesByAct(w, P.Take(P.SleepersPopped(k)));
    P.ActKeepsInv(w, P.Take(P.SleepersPopped(k)));
    SameCos(st, due, w, Try(w, P.Take(P.SleepersPopped(k))), k);
  }

  lemma DrainIsARun(st: State<Co>, w: P.World, k: nat)
    requires Shows(st, [], w, k) && P.Inv(w) && Between(w, k, P.Posting, {})
    ensures var u := Try(w, P.Take(P.Drain(k)));
      && Reaches(P.Next, w, u) && Shows(Drain(st), [], u, k) && P.Inv(u)
      && Between(u, k, P.RunningResumed, Elems(Drain(st).lists.resumed))
  {
    hide Shows, P.Inv, Drain;
    DrainIsAStep(st, w, k);
    ReachesByAct(w, P.Take(P.Drain(k)));
    P.ActKeepsInv(w, P.Take(P.Drain(k)));
  }

  /** Every coroutine of the resume queue is in the suspend list, and in the queue once. */
  ghost predicate AllSuspended(st: State<Co>) {
    forall c | c in st.queue :: c in st.lists.suspended && multiset(st.queue)[c] == 1
  }

  /** That is so whenever the queue is drained. */
  lemma QueuedAreSuspended(st: State<Co>, w: P.World, k: nat)
    requires Shows(st, [], w, k) && P.Inv(w) && P.LoopAt(w, k, P.Posting)
    ensures AllSuspended(st)
  {
    P.DrainFindsSuspended(w, k);
    forall c | c in st.queue ensures c in st.lists.suspended && multiset(st.queue)[c] == 1 {
      assert Mine(w, k, c) && ShowsCo(st, [], c, w.cos[c]) && multiset(st.queue)[c] > 0;
    }
  }

  /** The world when the resume queue is about to be drained, and when the resume list is about to be run. */
  function AwakeWorld(st: State<Co>, w: P.World, k: nat, r: Round<Co>): P.World {
    var t, u := DoOps(st, r.top), OpsWorld(st, w, Nobody(k), r.top);
    var cs := Expired(t.sleepers, r.now);
    PostWorld(t.(sleepers := Unexpired(t.sleepers, r.now)), Try(PopWorld(u, cs), P.Take(P.SleepersPopped(k))), k, cs, r.posting, 0)
  }

  function ReadyWorld(st: State<Co>, w: P.World, k: nat, r: Round<Co>): P.World {
    OpsWorld(Drain(Awake(st, r)), Try(AwakeWorld(st, w, k, r), P.Take(P.Drain(k))), Nobody(k), r.drained)
  }

  /** What others ask for up to then fits the protocol. */
  predicate AwakeFits(st: State<Co>, w: P.World, k: nat, r: Round<Co>) {
    var t, u := DoOps(st, r.top), OpsWorld(st, w, Nobody(k), r.top);
    var cs := Expired(t.sleepers, r.now);
    && OpsFit(st, w, k, Nobody(k), r.top)
    && PostsFit(t.(sleepers := Unexpired(t.sleepers, r.now)), Try(PopWorld(u, cs), P.Take(P.SleepersPopped(k))), k, cs, r.posting, 0)
  }

  predicate ReadyFits(st: State<Co>, w: P.World, k: nat, r: Round<Co>) {
    && AwakeFits(st, w, k, r)
    && OpsFit(Drain(Awake(st, r)), Try(AwakeWorld(st, w, k, r), P.Take(P.Drain(k))), k, Nobody(k), r.drained)
  }

  lemma AwakeIsARun(st: State<Co>, w: P.World, k: nat, r: Round<Co>)
    requires Shows(st, [], w, k) && P.Inv(w) && Between(w, k, P.Waking, {}) && AwakeFits(st, w, k, r)
    ensures var u := AwakeWorld(st, w, k, r); var a := Awake(st, r);
      Reaches(P.Next, w, u) && Shows(a, [], u, k) && P.Inv(u) && Between(u, k, P.Posting, {}) && AllSuspended(a)
  {
    hide Shows, P.Inv, Reaches, Try, Expired, Unexpired, PopWorld, PostWorld, PostAll, OpsWorld, DoOps, OpsFit, PostsFit, AllSuspended;
    var t, u := DoOps(st, r.top), OpsWorld(st, w, Nobody(k), r.top);
    OpsAreARun(st, [], w, k, Nobody(k), r.top);
    var cs := Expired(t.sleepers, r.now);
    var s := t.(sleepers := Unexpired(t.sleepers, r.now));
    var w1 := PopWorld(u, cs);
    var w2 := Try(w1, P.Take(P.SleepersPopped(k)));
    var w3 := PostWorld(s, w2, k, cs, r.posting, 0);
    PopsAreARun(t, [], u, k, r.now);
    assert [] + cs == cs;
    PoppedIsARun(s, cs, w1, k);
    PostsAreARun(s, cs, w2, k, r.posting, 0);
    QueuedAreSuspended(Awake(st, r), w3, k);
    ReachesOn(P.Next, w, u, w1);
    ReachesOn(P.Next, w, w1, w2);
    ReachesOn(P.Next, w, w2, w3);
  }

  lemma WakingIsARun(st: State<Co>, w: P.World, k: nat, r: Round<Co>)
    requires Shows(st, [], w, k) && P.Inv(w) && Between(w, k, P.Waking, {}) && ReadyFits(st, w, k, r)
    ensures var u := ReadyWorld(st, w, k, r); var d := Ready(st, r);
      Reaches(P.Next, w, u) && Shows(d, [], u, k) && P.Inv(u) && Between(u, k, P.RunningResumed, Elems(d.lists.resumed))
    ensures AllSuspended(Awake(st, r))
  {
    hide Shows, P.Inv, Reaches, Try, Drain, Awake, AwakeWorld, AwakeFits, OpsWorld, DoOps, OpsFit, AllSuspended, Elems;
    var v := AwakeWorld(st, w, k, r);
    var x := Try(v, P.Take(P.Drain(k)));
    AwakeIsARun(st, w, k, r);
    DrainIsARun(Awake(st, r), v, k);
    OpsAreARun(Drain(Awake(st, r)), [], x, k, Nobody(k), r.drained);
    OpsKeepResumed(Drain(Awake(st, r)), x, k, r.drained);
    ReachesOn(P.Next, w, v, x);
    ReachesOn(P.Next, w, x, ReadyWorld(st, w, k, r));
  }

  lemma OpsKeepResumed(st: State<Co>, w: P.World, k: nat, ops: seq<Op<Co>>)
    requires Shows(st, [], w, k)
    ensures DoOps(st, ops).lists.resumed == st.lists.resumed
  {
    OpsOnlyAddYielding(st, ops);
  }

  lemma ToYieldingIsARun(st: State<Co>, w: P.World, k: nat)
    requires Shows(st, [], w, k) && P.Inv(w) && Between(w, k, P.RunningResumed, {})
    ensures var u := Try(w, P.Take(P.NextPhase(k)));
      && Reaches(P.Next, w, u) && Shows(st, [], u, k) && P.Inv(u)
      && Between(u, k, P.RunningYielding, Elems(st.lists.yielding))
  {
    forall c ensures c in P.Snapshot(w, k, Yielding) <==> c in st.lists.yielding {
      assert st.lists.yielding == st.lists.At(Yielding);
      if c in st.lists.At(Yielding) { assert Mine(w, k, c); }
      if Mine(w, k, c) { assert ShowsCo(st, [], c, w.cos[c]); }
    }
    hide Shows, P.Inv;
    ReachesByAct(w, P.Take(P.NextPhase(k)));
    P.ActKeepsInv(w, P.Take(P.NextPhase(k)));
    SameCos(st, [], w, Try(w, P.Take(P.NextPhase(k))), k);
  }

  lemma ToWakingIsARun(st: State<Co>, w: P.World, k: nat)
    requires Shows(st, [], w, k) && P.Inv(w) && Between(w, k, P.RunningYielding, {})
    ensures var u := Try(w, P.Take(P.NextPhase(k)));
      Reaches(P.Next, w, u) && Shows(st, [], u, k) && P.Inv(u) && Between(u, k, P.Waking, {})
  {
    hide Shows, P.Inv;
    ReachesByAct(w, P.Take(P.NextPhase(k)));
    P.ActKeepsInv(w, P.Take(P.NextPhase(k)));
    SameCos(st, [], w, Try(w, P.Take(P.NextPhase(k))), k);
  }

  // ----- a pass

  /** The world when all coroutines of the resume list have had their turn, when the yield list is about to
      be run, and at the end of the pass. */
  function TurnsWorld(st: State<Co>, w: P.World, k: nat, r: Round<Co>, slot: Co -> nat): P.World {
    var d := Ready(st, r);
    AllWorld(d, ReadyWorld(st, w, k, r), d.lists.resumed, r.turns, slot, 0)
  }

  function ResumedWorld(st: State<Co>, w: P.World, k: nat, r: Round<Co>, slot: Co -> nat): P.World {
    var d := Ready(st, r);
    Try(OpsWorld(RunAll(d, d.lists.resumed, r.turns, slot, 0), TurnsWorld(st, w, k, r, slot), Nobody(k), r.resumed), P.Take(P.NextPhase(k)))
  }

  function PassWorld(st: State<Co>, w: P.World, k: nat, r: Round<Co>, slot: Co -> nat): P.World {
    var a := AfterResumed(st, r, slot);
    Try(AllWorld(a, ResumedWorld(st, w, k, r, slot), a.lists.yielding, r.turns, slot, |Ready(st, r).lists.resumed|), P.Take(P.NextPhase(k)))
  }

  predicate ResumedFits(st: State<Co>, w: P.World, k: nat, r: Round<Co>, slot: Co -> nat) {
    var d := Ready(st, r);
    && ReadyFits(st, w, k, r)
    && AllFit(d, ReadyWorld(st, w, k, r), k, d.lists.resumed, r.turns, slot, 0)
    && OpsFit(RunAll(d, d.lists.resumed, r.turns, slot, 0), TurnsWorld(st, w, k, r, slot), k, Nobody(k), r.resumed)
  }

  /** All that happens in the pass fits the protocol: resumes are posted only for entries, coroutines
      suspend only after entering a wait queue, and the acts elsewhere are possible when they come. */
  predicate PassFits(st: State<Co>, w: P.World, k: nat, r: Round<Co>, slot: Co -> nat) {
    var a := AfterResumed(st, r, slot);
    && ResumedFits(st, w, k, r, slot)
    && AllFit(a, ResumedWorld(st, w, k, r, slot), k, a.lists.yielding, r.turns, slot, |Ready(st, r).lists.resumed|)
  }

  lemma ShownListsAreValid(st: State<Co>, w: P.World, k: nat)
    requires Shows(st, [], w, k)
    ensures st.lists.Valid() && NoDup(st.lists.resumed) && NoDup(st.lists.yielding)
  {
    assert NoDup(st.lists.At(Resumed)) && NoDup(st.lists.At(Yielding));
  }

  lemma TurnsAreARun(st: State<Co>, w: P.World, k: nat, r: Round<Co>, slot: Co -> nat)
    requires Shows(st, [], w, k) && P.Inv(w) && Between(w, k, P.Waking, {}) && ResumedFits(st, w, k, r, slot)
    ensures var u := TurnsWorld(st, w, k, r, slot); var d := Ready(st, r);
      Reaches(P.Next, w, u) && Shows(RunAll(d, d.lists.resumed, r.turns, slot, 0), [], u, k) && P.Inv(u) && Between(u, k, P.RunningResumed, {})
    ensures AllSuspended(Awake(st, r))
  {
    hide Shows, P.Inv, Reaches, Ready, ReadyWorld, ReadyFits, AllWorld, AllFit, OpsFit, RunAll, Between, Elems, Awake, AllSuspended;
    var d, v := Ready(st, r), ReadyWorld(st, w, k, r);
    WakingIsARun(st, w, k, r);
    ShownListsAreValid(d, v, k);
    AllIsARun(d, v, k, P.RunningResumed, d.lists.resumed, r.turns, slot, 0);
    ReachesOn(P.Next, w, v, TurnsWorld(st, w, k, r, slot));
  }

  lemma SameLoopBetween(w: P.World, u: P.World, k: nat, p: P.Phase, todo: set<Co>)
    requires Between(w, k, p, todo) && SameLoop(w, u, k)
    ensures Between(u, k, p, todo)
  {
  }

  lemma ResumedPhaseIsARun(st: State<Co>, w: P.World, k: nat, r: Round<Co>, slot: Co -> nat)
    requires Shows(st, [], w, k) && P.Inv(w) && Between(w, k, P.Waking, {}) && ResumedFits(st, w, k, r, slot)
    ensures var u := ResumedWorld(st, w, k, r, slot); var a := AfterResumed(st, r, slot);
      Reaches(P.Next, w, u) && Shows(a, [], u, k) && P.Inv(u) && Between(u, k, P.RunningYielding, Elems(a.lists.yielding))
    ensures AllSuspended(Awake(st, r))
  {
    hide Shows, P.Inv, Reaches, Try, Ready, ReadyFits, AllFit, OpsWorld, OpsFit, DoOps, TurnsWorld, RunAll, Between, SameLoop, Elems, Awake, AllSuspended;
    TurnsAreARun(st, w, k, r, slot);
    var t, v := RunAll(Ready(st, r), Ready(st, r).lists.resumed, r.turns, slot, 0), TurnsWorld(st, w, k, r, slot);
    var x := OpsWorld(t, v, Nobody(k), r.resumed);
    OpsAreARun(t, [], v, k, Nobody(k), r.resumed);
    SameLoopBetween(v, x, k, P.RunningResumed, {});
    ToYieldingIsARun(AfterResumed(st, r, slot), x, k);
    ReachesOn(P.Next, w, v, x);
    ReachesOn(P.Next, w, x, ResumedWorld(st, w, k, r, slot));
  }

  /** A pass of the scheduler on its lists is a run of Parking, from the top of the loop to the top of
      the loop, and the lists show what the run does, whatever other threads and schedulers do
      meanwhile; at its drain everybody in the queue is suspended. */
  lemma PassIsARun(st: State<Co>, w: P.World, k: nat, r: Round<Co>, slot: Co -> nat)
    requires Shows(st, [], w, k) && P.Inv(w) && P.LoopAt(w, k, P.Waking) && PassFits(st, w, k, r, slot)
    ensures var u := PassWorld(st, w, k, r, slot);
      Reaches(P.Next, w, u) && Shows(Pass(st, r, slot), [], u, k) && P.Inv(u) && P.LoopAt(u, k, P.Waking)
    ensures AllSuspended(Awake(st, r))
  {
    TopOfLoop(w, k);
    hide Shows, P.Inv, Reaches, Try, Ready, ResumedWorld, ResumedFits, AllWorld, AllFit, RunAll, Between, Elems, AfterResumed, Awake, AllSuspended;
    ResumedPhaseIsARun(st, w, k, r, slot);
    var a, v := AfterResumed(st, r, slot), ResumedWorld(st, w, k, r, slot);
    var n := |Ready(st, r).lists.resumed|;
    ShownListsAreValid(a, v, k);
    AllIsARun(a, v, k, P.RunningYielding, a.lists.yielding, r.turns, slot, n);
    var x := AllWorld(a, v, a.lists.yielding, r.turns, slot, n);
    ToWakingIsARun(Pass(st, r, slot), x, k);
    ReachesOn(P.Next, w, v, x);
    ReachesOn(P.Next, w, x, PassWorld(st, w, k, r, slot));
    AtTopOfLoop(PassWorld(st, w, k, r, slot), k);
  }

  lemma TopOfLoop(w: P.World, k: nat)
    requires P.Inv(w) && P.LoopAt(w, k, P.Waking)
    ensures Between(w, k, P.Waking, {})
  {
    assert P.LoopInv(w, k, w.loops[k]);
  }

  lemma AtTopOfLoop(w: P.World, k: nat)
    requires Between(w, k, P.Waking, {})
    ensures P.LoopAt(w, k, P.Waking)
  {
  }

  // ----- any number of passes

  function LoopWorld(st: State<Co>, w: P.World, k: nat, rounds: seq<Round<Co>>, slot: Co -> nat): P.World
    decreases |rounds|
  {
    if rounds == [] then w else LoopWorld(Pass(st, rounds[0], slot), PassWorld(st, w, k, rounds[0], slot), k, rounds[1..], slot)
  }

  predicate LoopFits(st: State<Co>, w: P.World, k: nat, rounds: seq<Round<Co>>, slot: Co -> nat)
    decreases |rounds|
  {
    rounds == [] || (
      && PassFits(st, w, k, rounds[0], slot)
      && LoopFits(Pass(st, rounds[0], slot), PassWorld(st, w, k, rounds[0], slot), k, rounds[1..], slot))
  }

  /** The loop is a run of Parking, after however many passes it is stopped. */
  lemma {:induction false} LoopIsARun(st: State<Co>, w: P.World, k: nat, rounds: seq<Round<Co>>, slot: Co -> nat)
    requires Shows(st, [], w, k) && P.Inv(w) && P.LoopAt(w, k, P.Waking) && LoopFits(st, w, k, rounds, slot)
    ensures var u := LoopWorld(st, w, k, rounds, slot);
      Reaches(P.Next, w, u) && Shows(RunLoop(st, rounds, slot), [], u, k) && P.Inv(u) && P.LoopAt(u, k, P.Waking)
    decreases |rounds|
  {
    hide Shows, P.Inv, P.LoopAt, Reaches, Pass, PassWorld, PassFits, AllSuspended;
    if rounds == [] {
      ReachesItself(P.Next, w);
    } else {
      var u := PassWorld(st, w, k, rounds[0], slot);
      PassIsARun(st, w, k, rounds[0], slot);
      LoopIsARun(Pass(st, rounds[0], slot), u, k, rounds[1..], slot);
      ReachesOn(P.Next, w, u, LoopWorld(st, w, k, rounds, slot));
    }
  }

  // ----- the order of a pass

  lemma OnceIsNoDup(q: seq<Co>)
    requires forall c | c in q :: multiset(q)[c] == 1
    ensures NoDup(q)
  {
    forall i, j | 0 <= i < j < |q| ensures q[i] != q[j] {
      assert q == q[..j] + q[j..];
      assert q[i] in q[..j] && q[j] in q[j..];
      assert multiset(q)[q[i]] == multiset(q[..j])[q[i]] + multiset(q[j..])[q[i]];
    }
  }

  lemma ShownPlace(st: State<Co>, w: P.World, k: nat, c: Co, p: Place)
    requires Shows(st, [], w, k) && c in st.lists.At(p)
    ensures Mine(w, k, c) && w.cos[c].place == p
  {
    assert ShowsCo(st, [], c, w.cos[c]);
  }

  lemma NobodyResumed(st: State<Co>, w: P.World, k: nat)
    requires Shows(st, [], w, k) && P.Inv(w) && P.LoopAt(w, k, P.Waking)
    ensures st.lists.Valid() && st.lists.resumed == []
  {
    forall c | Mine(w, k, c) ensures w.cos[c].place != Resumed { assert P.CoInv(w, c, w.cos[c]); }
    assert st.lists.At(Resumed) == st.lists.resumed;
    if st.lists.resumed != [] { ShownPlace(st, w, k, st.lists.resumed[0], Resumed); }
  }

  /** In every pass that fits the protocol, the coroutines whose resumes were posted run first, the last
      posted before the others. */
  lemma ResumedInOrder(st: State<Co>, w: P.World, k: nat, r: Round<Co>, slot: Co -> nat)
    requires Shows(st, [], w, k) && P.Inv(w) && P.LoopAt(w, k, P.Waking) && PassFits(st, w, k, r, slot)
    ensures var posted := st.queue + Posts(r.top) + Woven(Expired(st.sleepers, r.now), r.posting, 0);
      |posted| <= |Switched(st, r, slot)| && Switched(st, r, slot)[..|posted|] == Reverse(posted)
  {
    hide Shows, PassFits, Pass, PassWorld, Awake, Switched, Posts, Woven, P.Inv, P.LoopAt, Reaches;
    PassIsARun(st, w, k, r, slot);
    NobodyResumed(st, w, k);
    OnceIsNoDup(Awake(st, r).queue);
    AwakeOnlyAddsYielding(st, r);
    LastPostedRunsFirst(st, r, slot);
  }
}
