/**
 `wait`, `getValue` and the sets of a shared state end: an agent that has the processor, with `mtx_` free or
 its own, is never stuck, and what it comes to when nobody else moves is what the call is for.
 */
module SharedStateProgress {
  import opened Options
  import opened Systems
  import opened CoroLists
  import opened Parking
  import opened Monitor
  import opened P = SharedStateProtocol

  /** The agent runs, and nobody else holds `mtx_`. A thread runs unless it is blocked. */
  ghost predicate CanGo(s: Sys, a: Agent) {
    a in s.pc && CanRun(s.m, a) && !At(s.m, a, Blocked) && s.m.mtx in {None, Some(a)}
  }

  predicate Own(mv: Move, a: Agent) {
    !mv.Around? && mv.a == a
  }

  /** What the agent does next. */
  function MyMove(s: Sys, a: Agent): (mv: Move)
    requires a in s.pc && a in s.m.stage
    ensures Own(mv, a)
  {
    match s.pc[a]
    case Idle => CallWait(a)
    case WWant => EnterWait(a)
    case WTest => Test(a)
    case WWait => CondWait(a)
    case Waiting =>
      if s.m.stage[a] == Enlisted then ReleaseMtx(a) else if s.m.stage[a] == Leaving then SuspendSelf(a) else RetakeMtx(a)
    case WDone => ExitWait(a)
    case GWant => EnterGet(a)
    case GIn => Get(a)
    case GOut(_) => ExitGet(a)
    case Done(_) => Return(a)
    case SWant(_) => EnterSet(a)
    case SIn(_) => Set(a)
    case SNotify => if s.m.queue != [] then NotifyNext(a) else NotifyThreads(a)
    case SOut => ExitSet(a)
  }

  lemma Standing(s: Sys, a: Agent)
    requires P.Inv(s) && a in s.pc
    ensures a in s.m.stage && PcAgrees(s.pc[a], s.m.stage[a]) && (s.m.mtx == Some(a) <==> s.m.stage[a] in {Inside, Enlisted})
    ensures if a.Cor? then a.co in s.m.w.cos && s.m.stage[a] !in {Blocked, Signaled} else s.m.stage[a] !in {Enlisted, Leaving, Parked}
    ensures s.pc[a].WWait? ==> !s.isReady
    ensures s.pc[a].WDone? || s.pc[a].GWant? || s.pc[a].GIn? || s.pc[a].GOut? ==> s.isReady
  {
    hide Parking.Inv, Released, Stored;
    assert PcInv(s, a, s.pc[a]) && AgentInv(s.m, a, s.m.stage[a]);
    if a.Cor? { assert CorInv(s.m, a.co, s.m.w.cos[a.co], s.m.stage[a]); }
  }

  lemma QueueStands(s: Sys)
    requires P.Inv(s)
    ensures s.m.queue != [] ==> s.m.queue[0] in s.m.w.cos && s.m.w.cos[s.m.queue[0]].entries > 0
  {
    hide Parking.Inv, Released, Stored;
    if s.m.queue != [] { assert CorInv(s.m, s.m.queue[0], s.m.w.cos[s.m.queue[0]], s.m.stage[Cor(s.m.queue[0])]); }
  }

  lemma MyMoveIsEnabled(s: Sys, a: Agent)
    requires P.Inv(s) && CanGo(s, a)
    ensures a in s.m.stage && Own(MyMove(s, a), a) && P.Enabled(s, MyMove(s, a))
  {
    hide P.Inv;
    Standing(s, a);
    QueueStands(s);
  }

  /** An agent that has the processor, with `mtx_` free or its own, has a move. */
  lemma NeverStuck(s: Sys, run: seq<Move>, a: Agent)
    requires Initial(s) && Runs(P.Next, s, run)
    requires var e := Exec(P.Next, s, run);
      && a in e.pc && CanRun(e.m, a) && !At(e.m, a, Blocked) && e.m.mtx in {None, Some(a)}
    ensures exists mv :: Own(mv, a) && P.Enabled(Exec(P.Next, s, run), mv)
  {
    hide P.Inv, P.Enabled, MyMove;
    InitialInv(s);
    P.RunKeepsInv(s, run);
    MyMoveIsEnabled(Exec(P.Next, s, run), a);
  }

  /** A blocked thread may wake without being notified, and then it has a move as soon as `mtx_` is free. */
  lemma MayWakeSpuriously(s: Sys, run: seq<Move>, t: nat)
    requires Initial(s) && Runs(P.Next, s, run) && At(Exec(P.Next, s, run).m, Thr(t), Blocked)
    ensures var e := Exec(P.Next, s, run);
      && P.Enabled(e, SpuriousWake(Thr(t)))
      && (e.m.mtx == None ==> CanGo(P.Apply(e, SpuriousWake(Thr(t))), Thr(t)))
  {
    hide P.Inv, P.Enabled, P.Apply;
    InitialInv(s);
    P.RunKeepsInv(s, run);
    BlockedWaits(Exec(P.Next, s, run), t);
  }

  lemma BlockedWaits(s: Sys, t: nat)
    requires P.Inv(s) && At(s.m, Thr(t), Blocked)
    ensures P.Enabled(s, SpuriousWake(Thr(t)))
    ensures s.m.mtx == None ==> CanGo(P.Apply(s, SpuriousWake(Thr(t))), Thr(t))
  {
    Standing(s, Thr(t));
    hide P.Inv;
  }

  /** Outside of a call the agent may begin one, and a coroutine may leave the processor as it likes. */
  lemma MayCall(s: Sys, run: seq<Move>, a: Agent, o: Result)
    requires Initial(s) && Runs(P.Next, s, run)
    requires var e := Exec(P.Next, s, run); a in e.pc && CanRun(e.m, a) && e.pc[a] == Idle
    ensures var e := Exec(P.Next, s, run);
      && P.Enabled(e, CallWait(a)) && P.Enabled(e, CallSet(a, o))
      && (a.Cor? ==> P.Enabled(e, Around(Yield(a.co))) && P.Enabled(e, Around(Parking.Sleep(a.co))) && P.Enabled(e, Around(End(a.co))))
  {
    hide P.Inv, P.Enabled, P.Apply;
    InitialInv(s);
    P.RunKeepsInv(s, run);
    MayCallNow(Exec(P.Next, s, run), a, o);
  }

  lemma MayCallNow(s: Sys, a: Agent, o: Result)
    requires P.Inv(s) && a in s.pc && CanRun(s.m, a) && s.pc[a] == Idle
    ensures var e := s;
      && P.Enabled(e, CallWait(a)) && P.Enabled(e, CallSet(a, o))
      && (a.Cor? ==> P.Enabled(e, Around(Yield(a.co))) && P.Enabled(e, Around(Parking.Sleep(a.co))) && P.Enabled(e, Around(End(a.co))))
  {
    hide P.Inv, PcAgrees;
    OutsideOf(s, a);
  }

  lemma OutsideOf(s: Sys, a: Agent)
    requires P.Inv(s) && a in s.pc
    ensures a in s.m.stage && (a.Cor? ==> a.co in s.m.w.cos)
    ensures s.pc[a] == Idle ==> s.m.stage[a] == Out && (a.Cor? ==> !s.m.w.cos[a.co].enlisted)
  {
    Standing(s, a);
    if a.Cor? { assert CorInv(s.m, a.co, s.m.w.cos[a.co], s.m.stage[a]); }
  }

  // ----- one move

  function Moved(s: Sys, a: Agent): Sys
    requires a in s.pc && a in s.m.stage && P.Enabled(s, MyMove(s, a))
  {
    P.Apply(s, MyMove(s, a))
  }

  /** The coroutine has released `mtx_` and is about to suspend itself. */
  predicate IsLeaving(s: Sys, a: Agent) {
    a in s.pc && s.pc[a] == Waiting && At(s.m, a, Leaving)
  }

  /** A move of its own. */
  ghost predicate Steps(s: Sys, a: Agent, t: Sys) {
    exists mv :: Own(mv, a) && P.Enabled(s, mv) && P.Apply(s, mv) == t
  }

  lemma MyState(s: Sys, a: Agent)
    requires a in s.pc && a in s.m.stage && P.Enabled(s, MyMove(s, a))
    ensures var t := Moved(s, a);
      && t.pc == s.pc[a := To(s, MyMove(s, a))]
      && t.isReady == (s.isReady || s.pc[a].SIn?)
      && t.sets == if s.pc[a].SIn? then s.sets + [s.pc[a].o] else s.sets
  {
    hide Running, Enlist, Park, Wake, Monitor.Apply;
  }

  lemma MyQueue(s: Sys, a: Agent)
    requires a in s.pc && a in s.m.stage && P.Enabled(s, MyMove(s, a))
    ensures var t := Moved(s, a);
      t.m.queue == if s.pc[a].WWait? && a.Cor? then s.m.queue + [a.co]
                   else if s.pc[a].SNotify? && s.m.queue != [] then s.m.queue[1..]
                   else s.m.queue
  {
    hide Running, Enlist, Park, Wake;
  }

  /** A move other than to suspend or block leaves the processor where it is. */
  ghost predicate Leaves(s: Sys, a: Agent, t: Sys)
    requires a in s.pc
  {
    && (!IsLeaving(s, a) && !(s.pc[a].WWait? && a.Thr?) ==> CanGo(t, a) && t.m.w.loops == s.m.w.loops)
    && (s.pc[a].WDone? || s.pc[a].GOut? || s.pc[a].SOut? || (s.pc[a].WWait? && a.Thr?) ==> t.m.mtx == None && t.m.w.loops == s.m.w.loops)
    && (s.pc[a].WWait? ==> At(t.m, a, if a.Cor? then Enlisted else Blocked))
    && (s.pc[a].Waiting? && At(s.m, a, Enlisted) ==> IsLeaving(t, a) && t.m.mtx == None)
  }

  predicate Intricate(p: Pc) {
    p.WWait? || p.Waiting? || p.SNotify? || p.WDone? || p.GOut? || p.SOut?
  }

  lemma MyMonitor(s: Sys, a: Agent)
    requires CanGo(s, a) && a in s.m.stage && P.Enabled(s, MyMove(s, a))
    requires PcAgrees(s.pc[a], s.m.stage[a]) && (s.m.mtx == Some(a) <==> s.m.stage[a] in {Inside, Enlisted})
    ensures Leaves(s, a, Moved(s, a))
  {
    hide P.Enabled, P.Apply, MyMove, PcAgrees;
    if s.pc[a].SNotify? {
      MyNotify(s, a);
    } else if s.pc[a].WWait? || s.pc[a].Waiting? {
      MyWait(s, a);
    } else if s.pc[a].WDone? || s.pc[a].GOut? || s.pc[a].SOut? {
      MyExit(s, a);
    } else {
      MyPlain(s, a);
    }
  }

  lemma MyPlain(s: Sys, a: Agent)
    requires CanGo(s, a) && a in s.m.stage && P.Enabled(s, MyMove(s, a)) && !Intricate(s.pc[a])
    requires PcAgrees(s.pc[a], s.m.stage[a]) && (s.m.mtx == Some(a) <==> s.m.stage[a] in {Inside, Enlisted})
    ensures Leaves(s, a, Moved(s, a))
  {
  }

  lemma MyExit(s: Sys, a: Agent)
    requires CanGo(s, a) && a in s.m.stage && P.Enabled(s, MyMove(s, a)) && (s.pc[a].WDone? || s.pc[a].GOut? || s.pc[a].SOut?)
    requires PcAgrees(s.pc[a], s.m.stage[a]) && (s.m.mtx == Some(a) <==> s.m.stage[a] in {Inside, Enlisted})
    ensures Leaves(s, a, Moved(s, a))
  {
  }

  lemma MyWait(s: Sys, a: Agent)
    requires CanGo(s, a) && a in s.m.stage && P.Enabled(s, MyMove(s, a)) && (s.pc[a].WWait? || s.pc[a].Waiting?)
    requires PcAgrees(s.pc[a], s.m.stage[a]) && (s.m.mtx == Some(a) <==> s.m.stage[a] in {Inside, Enlisted})
    ensures Leaves(s, a, Moved(s, a))
  {
  }

  lemma MyNotify(s: Sys, a: Agent)
    requires CanGo(s, a) && s.pc[a].SNotify? && a in s.m.stage && P.Enabled(s, MyMove(s, a))
    ensures CanGo(Moved(s, a), a) && Moved(s, a).m.w.loops == s.m.w.loops
  {
    hide Guard, To;
    if s.m.queue != [] { NotifyNextLeaves(s, a); } else { NotifyThreadsLeaves(s, a); }
  }

  lemma NotifyNextLeaves(s: Sys, a: Agent)
    requires CanGo(s, a) && P.Enabled(s, NotifyNext(a))
    ensures CanGo(P.Apply(s, NotifyNext(a)), a) && P.Apply(s, NotifyNext(a)).m.w.loops == s.m.w.loops
  {
  }

  lemma NotifyThreadsLeaves(s: Sys, a: Agent)
    requires CanGo(s, a) && P.Enabled(s, NotifyThreads(a))
    ensures CanGo(P.Apply(s, NotifyThreads(a)), a) && P.Apply(s, NotifyThreads(a)).m.w.loops == s.m.w.loops
  {
  }

  lemma MoveDoes(s: Sys, a: Agent) returns (t: Sys)
    requires P.Inv(s) && CanGo(s, a)
    ensures a in s.m.stage && P.Enabled(s, MyMove(s, a)) && t == Moved(s, a)
    ensures Steps(s, a, t) && P.Inv(t) && t.pc == s.pc[a := To(s, MyMove(s, a))]
    ensures Leaves(s, a, t)
  {
    hide P.Inv, P.Enabled, MyMove, P.Apply, Running, IsLeaving, PcAgrees, To;
    Standing(s, a);
    MyMoveIsEnabled(s, a);
    t := Moved(s, a);
    MoveKeepsInv(s, MyMove(s, a));
    MyState(s, a);
    MyMonitor(s, a);
  }

  lemma SuspendDoes(s: Sys, a: Agent) returns (t: Sys)
    requires P.Inv(s) && CanGo(s, a) && IsLeaving(s, a)
    ensures a.Cor? && Steps(s, a, t) && P.Inv(t) && t.pc == s.pc && SameState(s, t) && t.m.queue == s.m.queue && t.m.mtx == s.m.mtx
    ensures a.co in t.m.w.cos && t.m.w.cos[a.co].place == Suspended && OffProcessor(s, a.co, t)
  {
    hide P.Inv;
    Standing(s, a);
    CanSuspend(s, a);
    t := P.Apply(s, SuspendSelf(a));
    assert s.pc[a := Waiting] == s.pc;
    MoveKeepsInv(s, SuspendSelf(a));
  }

  lemma CanSuspend(s: Sys, a: Agent)
    requires IsLeaving(s, a) && CanRun(s.m, a) && a.Cor?
    ensures P.Enabled(s, SuspendSelf(a)) && Own(SuspendSelf(a), a)
  {
  }

  predicate SameState(s: Sys, t: Sys) {
    t.isReady == s.isReady && t.sets == s.sets
  }

  /** The coroutine has left the processor, and the schedulers are where they were otherwise. */
  ghost predicate OffProcessor(s: Sys, c: Co, t: Sys) {
    c.sched in s.m.w.loops && t.m.w.loops == s.m.w.loops[c.sched := s.m.w.loops[c.sched].(current := None)]
  }

  // ----- moves of its own

  /** Nobody but `a` moves, and `t` is where that leads. */
  ghost predicate Alone(s: Sys, a: Agent, t: Sys) {
    exists run :: (forall mv | mv in run :: Own(mv, a)) && Runs(P.Next, s, run) && Exec(P.Next, s, run) == t
  }

  lemma AloneItself(s: Sys, a: Agent)
    ensures Alone(s, a, s)
  {
    assert Runs(P.Next, s, []) && Exec(P.Next, s, []) == s;
  }

  lemma AloneOn(s: Sys, a: Agent, t: Sys, u: Sys)
    requires Steps(s, a, t) && Alone(t, a, u)
    ensures Alone(s, a, u)
  {
    hide P.Enabled, P.Apply;
    var mv :| Own(mv, a) && P.Enabled(s, mv) && P.Apply(s, mv) == t;
    var run :| (forall m | m in run :: Own(m, a)) && Runs(P.Next, t, run) && Exec(P.Next, t, run) == u;
    OneMove(P.Next, s, mv);
    RunsJoin(P.Next, s, [mv], run);
  }

  /** Outside of the sections of `mtx_` it is free. */
  lemma OutIsFree(s: Sys, a: Agent)
    requires P.Inv(s) && CanGo(s, a) && (s.pc[a].Idle? || s.pc[a].WWant? || s.pc[a].GWant? || s.pc[a].Done? || s.pc[a].SWant?)
    ensures s.m.mtx == None
  {
    hide P.Inv;
    Standing(s, a);
  }

  /** The agent is back on the processor from its wait, with `mtx_` still to take. */
  predicate IsBackFromWait(s: Sys, a: Agent) {
    a in s.pc && s.pc[a] == Waiting && (At(s.m, a, Parked) || At(s.m, a, Signaled))
  }

  lemma NotLeaving(s: Sys, a: Agent)
    requires IsBackFromWait(s, a) || (a in s.pc && s.pc[a] != Waiting)
    ensures !IsLeaving(s, a)
  {
  }

  lemma Twice(pc: map<Agent, Pc>, a: Agent, p: Pc, q: Pc)
    ensures pc[a := p][a := q] == pc[a := q]
  {
  }

  lemma OnLoop(s: Sys, a: Agent)
    requires CanGo(s, a)
    ensures a.Cor? ==> a.co.sched in s.m.w.loops
  {
  }

  /** What `wait` and `getValue` have still to do when the state is ready. */
  function WaitLeft(p: Pc): nat {
    match p
    case Idle => 9
    case WWant => 8
    case Waiting => 8
    case WTest => 7
    case WDone => 6
    case GWant => 5
    case GIn => 4
    case GOut(_) => 3
    case _ => 0
  }

  /** The outcome that `getValue` has still to find, or has found. */
  ghost function Coming(s: Sys, a: Agent): Outcome
    requires a in s.pc && s.sets != []
  {
    if s.pc[a].GOut? then s.pc[a].out else Got(Content(s.sets))
  }

  lemma GetFinds(s: Sys, a: Agent)
    requires P.Inv(s) && a in s.pc && s.isReady && P.Enabled(s, Get(a))
    ensures s.sets != [] && To(s, Get(a)) == GOut(Got(Content(s.sets)))
  {
    hide Monitor.Inv, Positions, Released, Monitor.Enabled;
  }

  lemma NextOfWait(s: Sys, a: Agent)
    requires a in s.pc && a in s.m.stage && P.Enabled(s, MyMove(s, a)) && (IsBackFromWait(s, a) || !s.pc[a].Waiting?)
    ensures match s.pc[a]
      case Idle => To(s, MyMove(s, a)) == WWant
      case WWant => To(s, MyMove(s, a)) == WTest
      case Waiting => To(s, MyMove(s, a)) == WTest
      case WTest => To(s, MyMove(s, a)) == if s.isReady then WDone else WWait
      case WWait => To(s, MyMove(s, a)) == Waiting
      case WDone => To(s, MyMove(s, a)) == GWant
      case GWant => To(s, MyMove(s, a)) == GIn
      case GIn => MyMove(s, a) == Get(a)
      case GOut(out) => To(s, MyMove(s, a)) == Done(out)
      case _ => true
  {
  }

  lemma ReadyIsSet(s: Sys)
    requires P.Inv(s)
    ensures s.isReady <==> s.sets != []
  {
  }

  /** `wait` on a state that is ready, at the first try or back from a wait: it yields what was set. */
  lemma Yields(s: Sys, a: Agent) returns (t: Sys)
    requires P.Inv(s) && CanGo(s, a) && s.isReady && s.sets != [] && (IsBackFromWait(s, a) || (WaitLeft(s.pc[a]) > 0 && !s.pc[a].Waiting?))
    ensures Alone(s, a, t) && P.Inv(t) && CanGo(t, a) && t.pc == s.pc[a := Done(Coming(s, a))] && t.m.mtx == None
    ensures SameState(s, t) && t.m.queue == s.m.queue && t.m.w.loops == s.m.w.loops
    decreases WaitLeft(s.pc[a])
  {
    hide P.Inv, Alone, Steps, P.Enabled, P.Apply, CanRun;
    NotLeaving(s, a);
    var u := MoveDoes(s, a);
    if s.pc[a].GIn? { GetFinds(s, a); }
    MyState(s, a);
    MyQueue(s, a);
    NextOfWait(s, a);
    if s.pc[a].GOut? {
      t := u;
      AloneItself(t, a);
    } else {
      t := Yields(u, a);
      Twice(s.pc, a, u.pc[a], Done(Coming(s, a)));
    }
    AloneOn(s, a, u, t);
  }

  function UntilWait(p: Pc): nat {
    match p case Idle => 4 case WWant => 3 case Waiting => 3 case WTest => 2 case WWait => 1 case _ => 0
  }

  /** `wait` on a state that is not ready: a coroutine is queued last and suspended, a thread is blocked. */
  lemma Waits(s: Sys, a: Agent) returns (t: Sys)
    requires P.Inv(s) && CanGo(s, a) && !s.isReady && (IsBackFromWait(s, a) || (UntilWait(s.pc[a]) > 0 && !s.pc[a].Waiting?))
    ensures Alone(s, a, t) && P.Inv(t) && t.pc == s.pc[a := Waiting] && t.m.mtx == None && SameState(s, t)
    ensures a.Thr? ==> t.m.queue == s.m.queue && At(t.m, a, Blocked) && t.m.w.loops == s.m.w.loops
    ensures a.Cor? ==> t.m.queue == s.m.queue + [a.co] && a.co in t.m.w.cos && t.m.w.cos[a.co].place == Suspended
    ensures a.Cor? ==> OffProcessor(s, a.co, t)
    decreases UntilWait(s.pc[a])
  {
    hide P.Inv, Alone, Steps, P.Enabled, P.Apply, Running;
    NotLeaving(s, a);
    OnLoop(s, a);
    var u := MoveDoes(s, a);
    MyState(s, a);
    MyQueue(s, a);
    NextOfWait(s, a);
    if !s.pc[a].WWait? {
      t := Waits(u, a);
      Twice(s.pc, a, u.pc[a], Waiting);
    } else if a.Cor? {
      t := Suspends(u, a);
    } else {
      t := u;
      AloneItself(t, a);
    }
    AloneOn(s, a, u, t);
  }

  /** The second half of a wait of a coroutine. */
  lemma Suspends(s: Sys, a: Agent) returns (t: Sys)
    requires P.Inv(s) && CanGo(s, a) && a.Cor? && s.pc[a] == Waiting && (At(s.m, a, Enlisted) || (IsLeaving(s, a) && s.m.mtx == None))
    ensures Alone(s, a, t) && P.Inv(t) && t.pc == s.pc && t.m.mtx == None
    ensures SameState(s, t) && t.m.queue == s.m.queue && a.co in t.m.w.cos && t.m.w.cos[a.co].place == Suspended
    ensures OffProcessor(s, a.co, t)
    decreases At(s.m, a, Enlisted)
  {
    hide P.Inv, Alone, Steps, P.Enabled, P.Apply, Running;
    OnLoop(s, a);
    if IsLeaving(s, a) {
      t := SuspendDoes(s, a);
      AloneItself(t, a);
      AloneOn(s, a, t, t);
    } else {
      var u := MoveDoes(s, a);
      MyState(s, a);
      MyQueue(s, a);
      assert u.pc == s.pc;
      t := Suspends(u, a);
      AloneOn(s, a, u, t);
    }
  }

  // ----- sets

  lemma NextPc(s: Sys, a: Agent)
    requires a in s.pc && a in s.m.stage && (s.pc[a].SWant? || s.pc[a].SIn? || s.pc[a].SNotify? || s.pc[a].SOut?) && P.Enabled(s, MyMove(s, a))
    ensures To(s, MyMove(s, a)) == match s.pc[a]
      case SWant(o) => SIn(o)
      case SIn(_) => SNotify
      case SNotify => if s.m.queue == [] then SOut else SNotify
      case _ => Idle
  {
  }

  lemma ThreadsAreWoken(s: Sys, a: Agent)
    requires a in s.pc && a in s.m.stage && s.pc[a].SNotify? && s.m.queue == [] && P.Enabled(s, MyMove(s, a))
    ensures forall x :: !At(Moved(s, a).m, x, Blocked)
  {
  }

  lemma ExitWakesNobody(s: Sys, a: Agent)
    requires a in s.pc && a in s.m.stage && s.pc[a].SOut? && P.Enabled(s, MyMove(s, a))
    ensures forall x | At(Moved(s, a).m, x, Blocked) :: At(s.m, x, Blocked)
  {
  }

  function SetLeft(p: Pc): nat {
    match p case SWant(_) => 4 case SIn(_) => 3 case SNotify => 2 case SOut => 1 case _ => 0
  }

  ghost predicate NobodyBlocked(m: Mon) {
    forall x :: !At(m, x, Blocked)
  }

  /** A set: the state is ready and has its outcome, and nobody is left in the queue or blocked. */
  lemma Sets(s: Sys, a: Agent) returns (t: Sys)
    requires P.Inv(s) && CanGo(s, a) && SetLeft(s.pc[a]) > 0
    requires s.pc[a].SOut? ==> s.m.queue == [] && NobodyBlocked(s.m)
    ensures Alone(s, a, t) && P.Inv(t) && CanGo(t, a) && t.pc == s.pc[a := Idle] && t.m.mtx == None && t.m.w.loops == s.m.w.loops
    ensures t.m.queue == [] && NobodyBlocked(t.m)
    ensures t.sets == s.sets + (match s.pc[a] case SWant(o) => [o] case SIn(o) => [o] case _ => [])
    ensures s.isReady || !s.pc[a].SOut? ==> t.isReady
    decreases SetLeft(s.pc[a]), |s.m.queue|
  {
    hide P.Inv, Alone, Steps, P.Enabled, P.Apply, CanRun, MyMove, At;
    SetIsReady(s, a);
    var u := MoveDoes(s, a);
    MyState(s, a);
    MyQueue(s, a);
    NextPc(s, a);
    if s.pc[a].SOut? {
      ExitWakesNobody(s, a);
      t := u;
      AloneItself(t, a);
    } else {
      if s.pc[a].SNotify? && s.m.queue == [] { ThreadsAreWoken(s, a); }
      t := Sets(u, a);
      Twice(s.pc, a, u.pc[a], Idle);
    }
    AloneOn(s, a, u, t);
  }

  lemma SetIsReady(s: Sys, a: Agent)
    requires P.Inv(s) && CanGo(s, a)
    ensures s.pc[a].SNotify? ==> s.isReady
    ensures !s.pc[a].Waiting? ==> !IsLeaving(s, a)
  {
    assert PcInv(s, a, s.pc[a]);
  }
}
