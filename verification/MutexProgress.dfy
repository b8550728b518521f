/**
 `lock` and `unlock` of `Mutex` end: an agent that has the processor, with `mtx_` free or its own, is never
 stuck, and what it comes to when nobody else moves is what the call is for.
 */
module MutexProgress {
  import opened Options
  import opened Systems
  import opened CoroLists
  import opened Parking
  import opened Monitor
  import opened P = MutexProtocol

  /** The agent runs, and nobody else holds `mtx_`. A thread runs unless it is blocked. */
  ghost predicate CanGo(s: Sys, a: Agent) {
    a in s.pc && CanRun(s.m, a) && !At(s.m, a, Blocked) && s.m.mtx in {None, Some(a)}
  }

  predicate Own(mv: Move, a: Agent) {
    !mv.Around? && mv.a == a
  }

  /** The thread that a `notify_one` wakes, when no coroutine is queued. */
  ghost function Woken(s: Sys): Option<nat> {
    if s.waitings <= 0 || s.m.queue != [] || !exists t: nat :: At(s.m, Thr(t), Blocked) then None
    else var t: nat :| At(s.m, Thr(t), Blocked); Some(t)
  }

  /** What the agent does next. */
  ghost function MyMove(s: Sys, a: Agent): (mv: Move)
    requires a in s.pc && a in s.m.stage
    ensures Own(mv, a)
  {
    match s.pc[a]
    case Idle => CallLock(a)
    case LWant => EnterLock(a)
    case LTest => Test(a)
    case LWait => CondWait(a)
    case Waiting =>
      if s.m.stage[a] == Enlisted then ReleaseMtx(a) else if s.m.stage[a] == Leaving then SuspendSelf(a) else RetakeMtx(a)
    case LDec => Uncount(a)
    case LGot => ExitLock(a)
    case Crit => CallUnlock(a)
    case UWant => EnterUnlock(a)
    case UClear => Clear(a)
    case UNotify => Notify(a, Woken(s))
    case UExit => ExitUnlock(a)
  }

  lemma Standing(s: Sys, a: Agent)
    requires P.Inv(s) && a in s.pc
    ensures a in s.m.stage && PcAgrees(s.pc[a], s.m.stage[a]) && (s.m.mtx == Some(a) <==> s.m.stage[a] in {Inside, Enlisted})
    ensures if a.Cor? then a.co in s.m.w.cos && s.m.stage[a] !in {Blocked, Signaled} else s.m.stage[a] !in {Enlisted, Leaving, Parked}
    ensures s.pc[a] == LWait ==> s.isLock
  {
    hide Parking.Inv, Exclusive, Rescued;
    assert PcInv(s, a, s.pc[a]) && AgentInv(s.m, a, s.m.stage[a]);
    if a.Cor? { assert CorInv(s.m, a.co, s.m.w.cos[a.co], s.m.stage[a]); }
  }

  lemma QueueStands(s: Sys)
    requires P.Inv(s)
    ensures s.m.queue != [] ==> s.m.queue[0] in s.m.w.cos && s.m.w.cos[s.m.queue[0]].entries > 0
  {
    hide Parking.Inv, Exclusive, Rescued;
    if s.m.queue != [] { assert CorInv(s.m, s.m.queue[0], s.m.w.cos[s.m.queue[0]], s.m.stage[Cor(s.m.queue[0])]); }
  }

  lemma MyMoveIsEnabled(s: Sys, a: Agent)
    requires P.Inv(s) && CanGo(s, a)
    ensures a in s.m.stage && Own(MyMove(s, a), a) && P.Enabled(s, MyMove(s, a))
  {
    hide P.Inv;
    Standing(s, a);
    QueueStands(s);
  }

  /** An agent that has the processor, with `mtx_` free or its own, has a move. */
  lemma NeverStuck(s: Sys, run: seq<Move>, a: Agent)
    requires Initial(s) && Runs(P.Next, s, run)
    requires var e := Exec(P.Next, s, run);
      && a in e.pc && CanRun(e.m, a) && !At(e.m, a, Blocked) && e.m.mtx in {None, Some(a)}
    ensures exists mv :: Own(mv, a) && P.Enabled(Exec(P.Next, s, run), mv)
  {
    hide P.Inv, P.Enabled, MyMove;
    InitialInv(s);
    P.RunKeepsInv(s, run);
    MyMoveIsEnabled(Exec(P.Next, s, run), a);
  }

  /** A blocked thread may wake without being notified, and then it has a move as soon as `mtx_` is free. */
  lemma MayWakeSpuriously(s: Sys, run: seq<Move>, t: nat)
    requires Initial(s) && Runs(P.Next, s, run) && At(Exec(P.Next, s, run).m, Thr(t), Blocked)
    ensures var e := Exec(P.Next, s, run);
      && P.Enabled(e, SpuriousWake(Thr(t)))
      && (e.m.mtx == None ==> CanGo(P.Apply(e, SpuriousWake(Thr(t))), Thr(t)))
  {
    hide P.Inv, P.Enabled, P.Apply;
    InitialInv(s);
    P.RunKeepsInv(s, run);
    BlockedWaits(Exec(P.Next, s, run), t);
  }

  lemma BlockedWaits(s: Sys, t: nat)
    requires P.Inv(s) && At(s.m, Thr(t), Blocked)
    ensures P.Enabled(s, SpuriousWake(Thr(t)))
    ensures s.m.mtx == None ==> CanGo(P.Apply(s, SpuriousWake(Thr(t))), Thr(t))
  {
    Standing(s, Thr(t));
    hide P.Inv;
  }

  /** Outside of a call the agent may begin one, and a coroutine may leave the processor as it likes, but not for good while it holds the lock. */
  lemma MayCall(s: Sys, run: seq<Move>, a: Agent)
    requires Initial(s) && Runs(P.Next, s, run)
    requires var e := Exec(P.Next, s, run); a in e.pc && CanRun(e.m, a)
    ensures var e := Exec(P.Next, s, run);
      && (e.pc[a] == Idle ==> P.Enabled(e, CallLock(a)) && (a.Cor? ==> P.Enabled(e, Around(End(a.co)))))
      && (e.pc[a] == Crit ==> P.Enabled(e, CallUnlock(a)))
      && (e.pc[a] in {Idle, Crit} && a.Cor? ==> P.Enabled(e, Around(Yield(a.co))) && P.Enabled(e, Around(Parking.Sleep(a.co))))
  {
    hide P.Inv, P.Enabled, P.Apply;
    InitialInv(s);
    P.RunKeepsInv(s, run);
    MayCallNow(Exec(P.Next, s, run), a);
  }

  lemma MayCallNow(s: Sys, a: Agent)
    requires P.Inv(s) && a in s.pc && CanRun(s.m, a)
    ensures var e := s;
      && (e.pc[a] == Idle ==> P.Enabled(e, CallLock(a)) && (a.Cor? ==> P.Enabled(e, Around(End(a.co)))))
      && (e.pc[a] == Crit ==> P.Enabled(e, CallUnlock(a)))
      && (e.pc[a] in {Idle, Crit} && a.Cor? ==> P.Enabled(e, Around(Yield(a.co))) && P.Enabled(e, Around(Parking.Sleep(a.co))))
  {
    hide P.Inv, PcAgrees;
    OutsideOf(s, a);
  }

  lemma OutsideOf(s: Sys, a: Agent)
    requires P.Inv(s) && a in s.pc
    ensures a in s.m.stage && (a.Cor? ==> a.co in s.m.w.cos)
    ensures s.pc[a] in {Idle, Crit} ==> s.m.stage[a] == Out && (a.Cor? ==> !s.m.w.cos[a.co].enlisted)
  {
    Standing(s, a);
    if a.Cor? { assert CorInv(s.m, a.co, s.m.w.cos[a.co], s.m.stage[a]); }
  }

  // ----- one move

  ghost function Moved(s: Sys, a: Agent): Sys
    requires a in s.pc && a in s.m.stage && P.Enabled(s, MyMove(s, a))
  {
    P.Apply(s, MyMove(s, a))
  }

  /** The coroutine has released `mtx_` and is about to suspend itself. */
  predicate IsLeaving(s: Sys, a: Agent) {
    a in s.pc && s.pc[a] == Waiting && At(s.m, a, Leaving)
  }

  /** A move of its own. */
  ghost predicate Steps(s: Sys, a: Agent, t: Sys) {
    exists mv :: Own(mv, a) && P.Enabled(s, mv) && P.Apply(s, mv) == t
  }

  lemma MyLock(s: Sys, a: Agent)
    requires a in s.pc && a in s.m.stage && P.Enabled(s, MyMove(s, a))
    ensures var t := Moved(s, a);
      && t.pc == s.pc[a := To(s, MyMove(s, a))]
      && t.isLock == (if s.pc[a] == LTest then true else if s.pc[a] == UClear then false else s.isLock)
  {
    hide Running, Enlist, Park, Wake, Monitor.Apply;
  }

  lemma MyQueue(s: Sys, a: Agent)
    requires a in s.pc && a in s.m.stage && P.Enabled(s, MyMove(s, a))
    ensures var t := Moved(s, a);
      t.m.queue == if s.pc[a] == LWait && a.Cor? then s.m.queue + [a.co]
                   else if s.pc[a] == UNotify && s.waitings > 0 && s.m.queue != [] then s.m.queue[1..]
                   else s.m.queue
  {
    hide Running, Enlist, Park, Wake;
  }

  /** A move other than to suspend or block leaves the processor where it is. */
  ghost predicate Leaves(s: Sys, a: Agent, t: Sys)
    requires a in s.pc
  {
    && (!IsLeaving(s, a) && !(s.pc[a] == LWait && a.Thr?) ==> CanGo(t, a) && t.m.w.loops == s.m.w.loops)
    && (s.pc[a] in {LGot, UExit} || (s.pc[a] == LWait && a.Thr?) ==> t.m.mtx == None && t.m.w.loops == s.m.w.loops)
    && (s.pc[a] == LWait ==> At(t.m, a, if a.Cor? then Enlisted else Blocked))
    && (s.pc[a] == Waiting && At(s.m, a, Enlisted) ==> IsLeaving(t, a) && t.m.mtx == None)
  }

  lemma MyMonitor(s: Sys, a: Agent)
    requires CanGo(s, a) && a in s.m.stage && P.Enabled(s, MyMove(s, a))
    requires PcAgrees(s.pc[a], s.m.stage[a]) && (s.m.mtx == Some(a) <==> s.m.stage[a] in {Inside, Enlisted})
    ensures Leaves(s, a, Moved(s, a))
  {
    hide P.Enabled, P.Apply, MyMove, PcAgrees;
    if s.pc[a] == UNotify {
      MyNotify(s, a);
    } else if s.pc[a] in {LWait, Waiting} {
      MyWait(s, a);
    } else if s.pc[a] in {LGot, UExit} {
      MyExit(s, a);
    } else {
      MyPlain(s, a);
    }
  }

  lemma MyPlain(s: Sys, a: Agent)
    requires CanGo(s, a) && a in s.m.stage && P.Enabled(s, MyMove(s, a)) && s.pc[a] !in {UNotify, LWait, Waiting, LGot, UExit}
    requires PcAgrees(s.pc[a], s.m.stage[a]) && (s.m.mtx == Some(a) <==> s.m.stage[a] in {Inside, Enlisted})
    ensures Leaves(s, a, Moved(s, a))
  {
  }

  lemma MyExit(s: Sys, a: Agent)
    requires CanGo(s, a) && a in s.m.stage && P.Enabled(s, MyMove(s, a)) && s.pc[a] in {LGot, UExit}
    requires PcAgrees(s.pc[a], s.m.stage[a]) && (s.m.mtx == Some(a) <==> s.m.stage[a] in {Inside, Enlisted})
    ensures Leaves(s, a, Moved(s, a))
  {
  }

  lemma MyWait(s: Sys, a: Agent)
    requires CanGo(s, a) && a in s.m.stage && P.Enabled(s, MyMove(s, a)) && s.pc[a] in {LWait, Waiting}
    requires PcAgrees(s.pc[a], s.m.stage[a]) && (s.m.mtx == Some(a) <==> s.m.stage[a] in {Inside, Enlisted})
    ensures Leaves(s, a, Moved(s, a))
  {
  }

  lemma MyNotify(s: Sys, a: Agent)
    requires CanGo(s, a) && s.pc[a] == UNotify && a in s.m.stage && P.Enabled(s, MyMove(s, a))
    ensures CanGo(Moved(s, a), a) && Moved(s, a).m.w.loops == s.m.w.loops
  {
  }

  lemma MoveDoes(s: Sys, a: Agent) returns (t: Sys)
    requires P.Inv(s) && CanGo(s, a)
    ensures a in s.m.stage && P.Enabled(s, MyMove(s, a)) && t == Moved(s, a)
    ensures Steps(s, a, t) && P.Inv(t) && t.pc == s.pc[a := To(s, MyMove(s, a))]
    ensures Leaves(s, a, t)
  {
    hide P.Inv, P.Enabled, MyMove, P.Apply, Running, IsLeaving, PcAgrees, To;
    Standing(s, a);
    MyMoveIsEnabled(s, a);
    t := Moved(s, a);
    MoveKeepsInv(s, MyMove(s, a));
    MyLock(s, a);
    MyMonitor(s, a);
  }

  lemma SuspendDoes(s: Sys, a: Agent) returns (t: Sys)
    requires P.Inv(s) && CanGo(s, a) && IsLeaving(s, a)
    ensures a.Cor? && Steps(s, a, t) && P.Inv(t) && t.pc == s.pc && t.isLock == s.isLock && t.m.queue == s.m.queue && t.m.mtx == s.m.mtx
    ensures a.co in t.m.w.cos && t.m.w.cos[a.co].place == Suspended
    ensures t.m.w.loops == s.m.w.loops[a.co.sched := s.m.w.loops[a.co.sched].(current := None)]
  {
    hide P.Inv;
    Standing(s, a);
    CanSuspend(s, a);
    t := P.Apply(s, SuspendSelf(a));
    assert s.pc[a := Waiting] == s.pc;
    MoveKeepsInv(s, SuspendSelf(a));
  }

  lemma CanSuspend(s: Sys, a: Agent)
    requires IsLeaving(s, a) && CanRun(s.m, a) && a.Cor?
    ensures P.Enabled(s, SuspendSelf(a)) && Own(SuspendSelf(a), a)
  {
  }

  // ----- moves of its own

  /** Nobody but `a` moves, and `t` is where that leads. */
  ghost predicate Alone(s: Sys, a: Agent, t: Sys) {
    exists run :: (forall mv | mv in run :: Own(mv, a)) && Runs(P.Next, s, run) && Exec(P.Next, s, run) == t
  }

  lemma AloneItself(s: Sys, a: Agent)
    ensures Alone(s, a, s)
  {
    assert Runs(P.Next, s, []) && Exec(P.Next, s, []) == s;
  }

  lemma AloneOn(s: Sys, a: Agent, t: Sys, u: Sys)
    requires Steps(s, a, t) && Alone(t, a, u)
    ensures Alone(s, a, u)
  {
    hide P.Enabled, P.Apply;
    var mv :| Own(mv, a) && P.Enabled(s, mv) && P.Apply(s, mv) == t;
    var run :| (forall m | m in run :: Own(m, a)) && Runs(P.Next, t, run) && Exec(P.Next, t, run) == u;
    OneMove(P.Next, s, mv);
    RunsJoin(P.Next, s, [mv], run);
  }

  /** Outside of the sections of `mtx_` it is free. */
  lemma OutIsFree(s: Sys, a: Agent)
    requires P.Inv(s) && CanGo(s, a) && s.pc[a] in {Idle, LWant, Crit, UWant}
    ensures s.m.mtx == None
  {
    hide P.Inv;
    Standing(s, a);
  }

  /** The agent is back on the processor from its wait, with `mtx_` still to take. */
  predicate IsBackFromWait(s: Sys, a: Agent) {
    a in s.pc && s.pc[a] == Waiting && (At(s.m, a, Parked) || At(s.m, a, Signaled))
  }

  /** How many moves of `lock` come before the end of this round of its loop. */
  function RoundsLeft(p: Pc): nat {
    match p case Idle => 5 case Waiting => 5 case LDec => 4 case LWant => 4 case LTest => 3 case LGot => 2 case LWait => 2 case _ => 0
  }

  /** `lock` on a free lock, at the first try or back from a wait: the agent holds it. */
  lemma Locks(s: Sys, a: Agent) returns (t: Sys)
    requires P.Inv(s) && CanGo(s, a) && (s.pc[a] in {Idle, LWant, LTest, LDec, LGot} || IsBackFromWait(s, a))
    requires s.pc[a] != LGot ==> !s.isLock
    ensures Alone(s, a, t) && P.Inv(t) && CanGo(t, a) && t.pc == s.pc[a := Crit] && t.m.mtx == None
    ensures t.isLock == (s.pc[a] != LGot || s.isLock) && t.m.queue == s.m.queue && t.m.w.loops == s.m.w.loops
    decreases RoundsLeft(s.pc[a])
  {
    hide P.Inv, Alone, Steps, P.Enabled, P.Apply, CanRun;
    NotLeaving(s, a);
    var u := MoveDoes(s, a);
    MyLock(s, a);
    MyQueue(s, a);
    if s.pc[a] == LGot {
      t := u;
      AloneItself(t, a);
    } else {
      t := Locks(u, a);
      Twice(s.pc, a, u.pc[a], Crit);
    }
    AloneOn(s, a, u, t);
  }

  lemma NotLeaving(s: Sys, a: Agent)
    requires IsBackFromWait(s, a) || (a in s.pc && s.pc[a] != Waiting)
    ensures !IsLeaving(s, a)
  {
  }

  lemma Twice(pc: map<Agent, Pc>, a: Agent, p: Pc, q: Pc)
    ensures pc[a := p][a := q] == pc[a := q]
  {
  }

  /** `lock` on a lock that is held, at the first try or back from a wait: a coroutine is queued last and
      suspended, a thread is blocked. */
  lemma Waits(s: Sys, a: Agent) returns (t: Sys)
    requires P.Inv(s) && CanGo(s, a) && (s.pc[a] in {Idle, LWant, LTest, LDec, LWait} || IsBackFromWait(s, a)) && s.isLock
    ensures Alone(s, a, t) && P.Inv(t) && t.pc == s.pc[a := Waiting] && t.m.mtx == None && t.isLock
    ensures a.Thr? ==> t.m.queue == s.m.queue && At(t.m, a, Blocked) && t.m.w.loops == s.m.w.loops
    ensures a.Cor? ==> t.m.queue == s.m.queue + [a.co] && a.co in t.m.w.cos && t.m.w.cos[a.co].place == Suspended
    ensures a.Cor? ==> OffProcessor(s, a.co, t)
    decreases RoundsLeft(s.pc[a])
  {
    hide P.Inv, Alone, Steps, P.Enabled, P.Apply, Running;
    NotLeaving(s, a);
    OnLoop(s, a);
    var u := MoveDoes(s, a);
    MyLock(s, a);
    MyQueue(s, a);
    if s.pc[a] != LWait {
      t := Waits(u, a);
      Twice(s.pc, a, u.pc[a], Waiting);
    } else if a.Cor? {
      t := Suspends(u, a);
    } else {
      t := u;
      AloneItself(t, a);
    }
    AloneOn(s, a, u, t);
  }

  /** The coroutine has left the processor, and the schedulers are where they were otherwise. */
  ghost predicate OffProcessor(s: Sys, c: Co, t: Sys) {
    c.sched in s.m.w.loops && t.m.w.loops == s.m.w.loops[c.sched := s.m.w.loops[c.sched].(current := None)]
  }

  lemma OnLoop(s: Sys, a: Agent)
    requires CanGo(s, a)
    ensures a.Cor? ==> a.co.sched in s.m.w.loops
  {
  }

  /** The second half of a wait of a coroutine. */
  lemma Suspends(s: Sys, a: Agent) returns (t: Sys)
    requires P.Inv(s) && CanGo(s, a) && a.Cor? && s.pc[a] == Waiting && (At(s.m, a, Enlisted) || (IsLeaving(s, a) && s.m.mtx == None))
    ensures Alone(s, a, t) && P.Inv(t) && t.pc == s.pc && t.m.mtx == None
    ensures t.isLock == s.isLock && t.m.queue == s.m.queue && a.co in t.m.w.cos && t.m.w.cos[a.co].place == Suspended
    ensures OffProcessor(s, a.co, t)
    decreases At(s.m, a, Enlisted)
  {
    hide P.Inv, Alone, Steps, P.Enabled, P.Apply, Running;
    OnLoop(s, a);
    if IsLeaving(s, a) {
      t := SuspendDoes(s, a);
      AloneItself(t, a);
      AloneOn(s, a, t, t);
    } else {
      var u := MoveDoes(s, a);
      MyLock(s, a);
      MyQueue(s, a);
      assert u.pc == s.pc;
      t := Suspends(u, a);
      AloneOn(s, a, u, t);
    }
  }

  // ----- unlock

  /** A waiter is woken, if there is one: the first coroutine of the queue, or else a blocked thread. */
  ghost predicate WakesOne(m: Mon, n: Mon) {
    if m.queue != [] then n.queue == m.queue[1..]
    else n.queue == [] && ((exists x: nat :: At(m, Thr(x), Blocked)) ==> exists x: nat :: At(m, Thr(x), Blocked) && At(n, Thr(x), Signaled))
  }

  /** The queue and the stages of the others are as they were. */
  ghost predicate OthersStay(m: Mon, a: Agent, n: Mon) {
    n.queue == m.queue && forall b | b in m.stage && b != a :: b in n.stage && n.stage[b] == m.stage[b]
  }

  lemma WakesOneStill(m: Mon, a: Agent, n: Mon, o: Mon)
    requires (WakesOne(m, n) && OthersStay(n, a, o)) || (OthersStay(m, a, n) && WakesOne(n, o))
    requires At(m, a, Inside) || At(m, a, Out)
    requires At(n, a, Inside) || At(n, a, Out)
    requires n.stage.Keys == m.stage.Keys
    ensures WakesOne(m, o)
  {
  }

  lemma MyOthers(s: Sys, a: Agent)
    requires a in s.pc && a in s.m.stage && P.Enabled(s, MyMove(s, a)) && s.pc[a] in {Crit, UWant, UClear, UExit}
    ensures OthersStay(s.m, a, Moved(s, a).m) && Moved(s, a).m.stage.Keys == s.m.stage.Keys
  {
  }

  lemma SomebodyWaits(s: Sys)
    requires P.Inv(s)
    ensures s.m.queue != [] || (exists x: nat :: At(s.m, Thr(x), Blocked)) ==> s.waitings > 0
  {
    hide Parking.Inv, Exclusive, Rescued, Waiters;
    if s.m.queue != [] {
      assert Queued(s.m, Cor(s.m.queue[0]));
      SomebodyCounted(s, Cor(s.m.queue[0]));
    } else if x: nat :| At(s.m, Thr(x), Blocked) {
      assert Queued(s.m, Thr(x));
      SomebodyCounted(s, Thr(x));
    }
  }

  lemma Notifies(s: Sys, a: Agent)
    requires P.Inv(s) && CanGo(s, a) && s.pc[a] == UNotify && a in s.m.stage && P.Enabled(s, MyMove(s, a))
    ensures WakesOne(s.m, Moved(s, a).m) && Moved(s, a).m.stage.Keys == s.m.stage.Keys
  {
    hide P.Inv, P.Enabled, P.Apply, MyMove, CanRun;
    SomebodyWaits(s);
    NotifyWakes(s, a);
  }

  lemma NotifyWakes(s: Sys, a: Agent)
    requires a in s.pc && s.pc[a] == UNotify && a in s.m.stage && P.Enabled(s, MyMove(s, a))
    requires s.m.queue != [] || (exists x: nat :: At(s.m, Thr(x), Blocked)) ==> s.waitings > 0
    ensures WakesOne(s.m, Moved(s, a).m) && Moved(s, a).m.stage.Keys == s.m.stage.Keys
  {
    hide Running, Wake;
    if Woken(s).Some? { assert At(s.m, Thr(Woken(s).value), Blocked); }
  }

  /** `unlock`: the lock is free, and one waiter is woken, if there is any. */
  lemma Unlocked(s: Sys, a: Agent) returns (t: Sys)
    requires P.Inv(s) && CanGo(s, a) && s.pc[a] in {Crit, UWant, UClear, UNotify}
    ensures Alone(s, a, t) && P.Inv(t) && CanGo(t, a) && t.pc == s.pc[a := Idle] && t.m.mtx == None && t.m.w.loops == s.m.w.loops
    ensures (s.pc[a] != UNotify ==> !t.isLock) && (s.pc[a] == UNotify ==> t.isLock == s.isLock) && WakesOne(s.m, t.m)
    decreases match s.pc[a] case Crit => 3 case UWant => 2 case UClear => 1 case _ => 0
  {
    hide P.Inv, Alone, Steps, P.Enabled, P.Apply, CanRun, WakesOne, OthersStay, MyMove;
    NotLeaving(s, a);
    var u := MoveDoes(s, a);
    MyLock(s, a);
    NextPc(s, a);
    if s.pc[a] == UNotify {
      Notifies(s, a);
      t := ReturnsFromUnlock(u, a);
    } else {
      MyOthers(s, a);
      t := Unlocked(u, a);
    }
    StagesOf(s, a);
    StagesOf(u, a);
    WakesOneStill(s.m, a, u.m, t.m);
    Twice(s.pc, a, u.pc[a], Idle);
    AloneOn(s, a, u, t);
  }

  lemma NextPc(s: Sys, a: Agent)
    requires a in s.pc && a in s.m.stage && s.pc[a] in {Crit, UWant, UClear, UNotify, UExit}
    ensures To(s, MyMove(s, a)) == match s.pc[a] case Crit => UWant case UWant => UClear case UClear => UNotify case UNotify => UExit case _ => Idle
  {
  }

  lemma StagesOf(s: Sys, a: Agent)
    requires P.Inv(s) && a in s.pc && s.pc[a] !in {Waiting}
    ensures At(s.m, a, Inside) || At(s.m, a, Out)
  {
    hide P.Inv;
    Standing(s, a);
  }

  lemma ReturnsFromUnlock(s: Sys, a: Agent) returns (t: Sys)
    requires P.Inv(s) && CanGo(s, a) && s.pc[a] == UExit
    ensures Alone(s, a, t) && P.Inv(t) && CanGo(t, a) && t.pc == s.pc[a := Idle] && t.m.mtx == None
    ensures t.isLock == s.isLock && OthersStay(s.m, a, t.m) && t.m.w.loops == s.m.w.loops && t.m.stage.Keys == s.m.stage.Keys
  {
    hide P.Inv, Steps, P.Enabled, P.Apply, CanRun, OthersStay;
    NotLeaving(s, a);
    t := MoveDoes(s, a);
    MyLock(s, a);
    MyOthers(s, a);
    AloneItself(t, a);
    AloneOn(s, a, t, t);
  }
}
