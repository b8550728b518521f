/**
 `lock` and `unlock` of `CoMutex` end: a coroutine that has the processor, with `mtx_` free or its own,
 is never stuck, and what it comes to when nobody else moves is what the call is for.
 */
module CoMutexProgress {
  import opened Options
  import opened Systems
  import opened CoroLists
  import opened Parking
  import opened Monitor
  import opened P = CoMutexProtocol

  /** The coroutine runs, and nobody else holds `mtx_`. */
  ghost predicate CanGo(s: Sys, c: Co) {
    c in s.pc && Running(s.m.w, c) && s.m.mtx in {None, Some(Cor(c))}
  }

  predicate Own(mv: Move, c: Co) {
    !mv.Around? && mv.c == c
  }

  /** What the coroutine does next. */
  function MyMove(s: Sys, c: Co): (mv: Move)
    requires c in s.pc && Cor(c) in s.m.stage
    ensures Own(mv, c)
  {
    match s.pc[c]
    case Idle => FastCas(c)
    case Slow => EnterLock(c)
    case Retry => RetryCas(c)
    case Got => ExitLock(c)
    case ToWait => PushWaiter(c)
    case Waiting =>
      if s.m.stage[Cor(c)] == Enlisted then ReleaseMtx(c) else if s.m.stage[Cor(c)] == Leaving then SuspendSelf(c) else RetakeMtx(c)
    case Back => ExitWait(c)
    case Crit => CallUnlock(c)
    case UnlWant => EnterUnlock(c)
    case UnlIn => HandOff(c)
    case UnlOut => ExitUnlock(c)
  }

  lemma Standing(s: Sys, c: Co)
    requires P.Inv(s) && c in s.pc
    ensures c in s.m.w.cos && Cor(c) in s.m.stage && PcAgrees(s.pc[c], s.m.stage[Cor(c)])
    ensures s.m.mtx == Some(Cor(c)) <==> s.m.stage[Cor(c)] in {Inside, Enlisted}
    ensures s.m.queue != [] ==> s.m.queue[0] in s.m.w.cos && s.m.w.cos[s.m.queue[0]].entries > 0
    ensures c in s.m.queue ==> s.pc[c] == Waiting
  {
    hide Parking.Inv, Exclusive;
    assert PcInv(s, c, s.pc[c]) && AgentInv(s.m, Cor(c), s.m.stage[Cor(c)]);
    if s.m.queue != [] { assert CorInv(s.m, s.m.queue[0], s.m.w.cos[s.m.queue[0]], s.m.stage[Cor(s.m.queue[0])]); }
  }

  lemma MyMoveIsEnabled(s: Sys, c: Co)
    requires P.Inv(s) && CanGo(s, c)
    ensures Cor(c) in s.m.stage && Own(MyMove(s, c), c) && P.Enabled(s, MyMove(s, c))
  {
    hide P.Inv;
    Standing(s, c);
  }

  /** A coroutine that has the processor, with `mtx_` free or its own, has a move. */
  lemma NeverStuck(s: Sys, run: seq<Move>, c: Co)
    requires Initial(s) && Runs(P.Next, s, run)
    requires var e := Exec(P.Next, s, run); c in e.pc && Running(e.m.w, c) && e.m.mtx in {None, Some(Cor(c))}
    ensures exists mv :: Own(mv, c) && P.Enabled(Exec(P.Next, s, run), mv)
  {
    hide P.Inv, P.Enabled, MyMove;
    InitialInv(s);
    P.RunKeepsInv(s, run);
    MyMoveIsEnabled(Exec(P.Next, s, run), c);
  }

  /** Outside of a call the agent may begin one, and a coroutine may leave the processor as it likes, but not for good while it holds the lock. */
  lemma MayCall(s: Sys, run: seq<Move>, c: Co)
    requires Initial(s) && Runs(P.Next, s, run)
    requires var e := Exec(P.Next, s, run); c in e.pc && Running(e.m.w, c)
    ensures var e := Exec(P.Next, s, run);
      && (e.pc[c] == Idle ==> P.Enabled(e, FastCas(c)) && P.Enabled(e, Around(End(c))))
      && (e.pc[c] == Crit ==> P.Enabled(e, CallUnlock(c)))
      && (e.pc[c] in {Idle, Crit} ==> P.Enabled(e, Around(Yield(c))) && P.Enabled(e, Around(Parking.Sleep(c))))
  {
    hide P.Inv, P.Enabled, P.Apply;
    InitialInv(s);
    P.RunKeepsInv(s, run);
    MayCallNow(Exec(P.Next, s, run), c);
  }

  lemma MayCallNow(s: Sys, c: Co)
    requires P.Inv(s) && c in s.pc && Running(s.m.w, c)
    ensures var e := s;
      && (e.pc[c] == Idle ==> P.Enabled(e, FastCas(c)) && P.Enabled(e, Around(End(c))))
      && (e.pc[c] == Crit ==> P.Enabled(e, CallUnlock(c)))
      && (e.pc[c] in {Idle, Crit} ==> P.Enabled(e, Around(Yield(c))) && P.Enabled(e, Around(Parking.Sleep(c))))
  {
    hide P.Inv, PcAgrees;
    OutsideOf(s, c);
  }

  lemma OutsideOf(s: Sys, c: Co)
    requires P.Inv(s) && c in s.pc
    ensures c in s.m.w.cos && Cor(c) in s.m.stage
    ensures s.pc[c] in {Idle, Crit} ==> s.m.stage[Cor(c)] == Out && !s.m.w.cos[c].enlisted
  {
    Standing(s, c);
    assert CorInv(s.m, c, s.m.w.cos[c], s.m.stage[Cor(c)]);
  }

  // ----- one move

  function Moved(s: Sys, c: Co): Sys
    requires c in s.pc && Cor(c) in s.m.stage && P.Enabled(s, MyMove(s, c))
  {
    P.Apply(s, MyMove(s, c))
  }

  /** The coroutine has released `mtx_` and is about to suspend itself. */
  predicate IsLeaving(s: Sys, c: Co) {
    AtPc(s, c, Waiting) && At(s.m, Cor(c), Leaving)
  }

  /** A move of its own. */
  ghost predicate Steps(s: Sys, c: Co, t: Sys) {
    exists mv :: Own(mv, c) && P.Enabled(s, mv) && P.Apply(s, mv) == t
  }

  lemma MyLock(s: Sys, c: Co)
    requires c in s.pc && Cor(c) in s.m.stage && P.Enabled(s, MyMove(s, c))
    ensures var t := Moved(s, c);
      && t.pc == s.pc[c := To(s, MyMove(s, c))]
      && t.isLock == (match s.pc[c]
         case Idle => true
         case Retry => true
         case UnlIn => s.m.queue != [] && s.isLock
         case _ => s.isLock)
      && t.m.queue == (match s.pc[c]
         case ToWait => s.m.queue + [c]
         case UnlIn => (if s.m.queue == [] then [] else s.m.queue[1..])
         case _ => s.m.queue)
  {
    hide Running, Enlist, Park, Wake;
    QueueStep(s, MyMove(s, c));
  }

  lemma MyMonitor(s: Sys, c: Co)
    requires CanGo(s, c) && Cor(c) in s.m.stage && P.Enabled(s, MyMove(s, c))
    requires PcAgrees(s.pc[c], s.m.stage[Cor(c)]) && (s.m.mtx == Some(Cor(c)) <==> s.m.stage[Cor(c)] in {Inside, Enlisted})
    ensures var t := Moved(s, c);
      && (!IsLeaving(s, c) ==> CanGo(t, c) && t.m.w.loops == s.m.w.loops)
      && (s.pc[c] in {Got, Back, UnlOut} ==> t.m.mtx == None)
      && (s.pc[c] == ToWait ==> At(t.m, Cor(c), Enlisted))
      && (s.pc[c] == Waiting && At(s.m, Cor(c), Enlisted) ==> IsLeaving(t, c) && t.m.mtx == None)
  {
  }

  /** A move other than to suspend leaves the processor where it is. */
  lemma MoveDoes(s: Sys, c: Co) returns (t: Sys)
    requires P.Inv(s) && CanGo(s, c)
    ensures Cor(c) in s.m.stage && P.Enabled(s, MyMove(s, c)) && t == Moved(s, c)
    ensures Steps(s, c, t) && P.Inv(t)
    ensures t.pc == s.pc[c := To(s, MyMove(s, c))]
    ensures !IsLeaving(s, c) ==> CanGo(t, c) && t.m.w.loops == s.m.w.loops
    ensures s.pc[c] in {Got, Back, UnlOut} ==> t.m.mtx == None
    ensures s.pc[c] == ToWait ==> At(t.m, Cor(c), Enlisted)
    ensures s.pc[c] == Waiting && At(s.m, Cor(c), Enlisted) ==> IsLeaving(t, c) && t.m.mtx == None
  {
    hide P.Inv, P.Enabled, MyMove, P.Apply, Running, IsLeaving, PcAgrees, To;
    Standing(s, c);
    MyMoveIsEnabled(s, c);
    t := Moved(s, c);
    MoveKeepsInv(s, MyMove(s, c));
    MyLock(s, c);
    MyMonitor(s, c);
  }

  lemma SuspendDoes(s: Sys, c: Co) returns (t: Sys)
    requires P.Inv(s) && CanGo(s, c) && IsLeaving(s, c)
    ensures Steps(s, c, t) && P.Inv(t) && t.pc == s.pc && t.isLock == s.isLock && t.m.queue == s.m.queue && t.m.mtx == s.m.mtx
    ensures c in t.m.w.cos && t.m.w.cos[c].place == Suspended && At(t.m, Cor(c), Parked)
    ensures t.m.w.loops == s.m.w.loops[c.sched := s.m.w.loops[c.sched].(current := None)]
  {
    hide P.Inv;
    CanSuspend(s, c);
    t := P.Apply(s, SuspendSelf(c));
    assert s.pc[c := Waiting] == s.pc;
    MoveKeepsInv(s, SuspendSelf(c));
  }

  lemma CanSuspend(s: Sys, c: Co)
    requires IsLeaving(s, c)
    ensures P.Enabled(s, SuspendSelf(c)) && Own(SuspendSelf(c), c)
  {
  }

  // ----- moves of its own

  /** Nobody but `c` moves, and `t` is where that leads. */
  ghost predicate Alone(s: Sys, c: Co, t: Sys) {
    exists run :: (forall mv | mv in run :: Own(mv, c)) && Runs(P.Next, s, run) && Exec(P.Next, s, run) == t
  }

  lemma AloneItself(s: Sys, c: Co)
    ensures Alone(s, c, s)
  {
    assert Runs(P.Next, s, []) && Exec(P.Next, s, []) == s;
  }

  lemma AloneOn(s: Sys, c: Co, t: Sys, u: Sys)
    requires Steps(s, c, t) && Alone(t, c, u)
    ensures Alone(s, c, u)
  {
    hide P.Enabled, P.Apply;
    var mv :| Own(mv, c) && P.Enabled(s, mv) && P.Apply(s, mv) == t;
    var run :| (forall m | m in run :: Own(m, c)) && Runs(P.Next, t, run) && Exec(P.Next, t, run) == u;
    OneMove(P.Next, s, mv);
    RunsJoin(P.Next, s, [mv], run);
  }

  /** At the end of a call `mtx_` is free. */
  lemma OutIsFree(s: Sys, c: Co)
    requires P.Inv(s) && CanGo(s, c) && s.pc[c] in {Idle, Slow, Crit, UnlWant}
    ensures s.m.mtx == None
  {
    hide P.Inv;
    Standing(s, c);
  }

  /** The last steps of `lock`, when the coroutine has found the lock free, or is back from its wait. */
  lemma ReturnsFromLock(s: Sys, c: Co) returns (t: Sys)
    requires P.Inv(s) && CanGo(s, c) && (s.pc[c] in {Got, Back} || (s.pc[c] == Waiting && At(s.m, Cor(c), Parked)))
    ensures Alone(s, c, t) && P.Inv(t) && CanGo(t, c) && t.pc == s.pc[c := Crit] && t.m.mtx == None
    ensures t.isLock == s.isLock && t.m.queue == s.m.queue && t.m.w.loops == s.m.w.loops
    decreases s.pc[c] == Waiting
  {
    hide P.Inv, Alone, Steps, P.Enabled, P.Apply;
    var u := MoveDoes(s, c);
    MyLock(s, c);
    if s.pc[c] == Waiting {
      t := ReturnsFromLock(u, c);
      assert s.pc[c := Back][c := Crit] == s.pc[c := Crit];
    } else {
      t := u;
      AloneItself(t, c);
    }
    AloneOn(s, c, u, t);
  }

  /** `lock` on a free lock. */
  lemma LocksFree(s: Sys, c: Co) returns (t: Sys)
    requires P.Inv(s) && CanGo(s, c) && s.pc[c] in {Idle, Slow, Retry} && !s.isLock
    ensures Alone(s, c, t) && P.Inv(t) && CanGo(t, c) && t.pc == s.pc[c := Crit] && t.m.mtx == None
    ensures t.isLock && t.m.queue == s.m.queue && t.m.w.loops == s.m.w.loops
    decreases if s.pc[c] == Slow then 1 else 0
  {
    hide P.Inv, Alone, Steps, P.Enabled, P.Apply;
    var u := MoveDoes(s, c);
    MyLock(s, c);
    match s.pc[c] {
      case Idle =>
        t := u;
        AloneItself(t, c);
        OutIsFree(t, c);
      case Slow => t := LocksFree(u, c);
      case Retry => t := ReturnsFromLock(u, c);
    }
    assert s.pc[c := Retry][c := Crit] == s.pc[c := Crit] == s.pc[c := Got][c := Crit];
    AloneOn(s, c, u, t);
  }

  function Steps2(p: Pc): nat {
    match p case Idle => 4 case Slow => 3 case Retry => 2 case ToWait => 1 case _ => 0
  }

  /** `lock` on a lock that is held: the coroutine is queued last, and suspended. */
  lemma Queues(s: Sys, c: Co) returns (t: Sys)
    requires P.Inv(s) && CanGo(s, c) && s.pc[c] in {Idle, Slow, Retry, ToWait} && s.isLock
    ensures Alone(s, c, t) && P.Inv(t) && t.pc == s.pc[c := Waiting] && t.m.mtx == None
    ensures t.isLock && t.m.queue == s.m.queue + [c] && c in t.m.w.cos && t.m.w.cos[c].place == Suspended
    ensures t.m.w.loops == s.m.w.loops[c.sched := s.m.w.loops[c.sched].(current := None)]
    decreases Steps2(s.pc[c])
  {
    hide P.Inv, Alone, Steps, P.Enabled, P.Apply;
    var u := MoveDoes(s, c);
    MyLock(s, c);
    if s.pc[c] == ToWait {
      t := Suspends(u, c);
    } else {
      t := Queues(u, c);
      assert s.pc[c := u.pc[c]][c := Waiting] == s.pc[c := Waiting];
    }
    AloneOn(s, c, u, t);
  }

  /** The second half of a wait. */
  lemma Suspends(s: Sys, c: Co) returns (t: Sys)
    requires P.Inv(s) && CanGo(s, c) && s.pc[c] == Waiting && (At(s.m, Cor(c), Enlisted) || IsLeaving(s, c))
    requires IsLeaving(s, c) ==> s.m.mtx == None
    ensures Alone(s, c, t) && P.Inv(t) && t.pc == s.pc && t.m.mtx == None
    ensures t.isLock == s.isLock && t.m.queue == s.m.queue && c in t.m.w.cos && t.m.w.cos[c].place == Suspended
    ensures t.m.w.loops == s.m.w.loops[c.sched := s.m.w.loops[c.sched].(current := None)]
    decreases At(s.m, Cor(c), Enlisted)
  {
    hide P.Inv, Alone, Steps, P.Enabled, P.Apply;
    if IsLeaving(s, c) {
      t := SuspendDoes(s, c);
      AloneItself(t, c);
      AloneOn(s, c, t, t);
    } else {
      var u := MoveDoes(s, c);
      MyLock(s, c);
      assert u.pc == s.pc;
      t := Suspends(u, c);
      AloneOn(s, c, u, t);
    }
  }

  /** `unlock`: the first of the queue owns the lock, or nobody. */
  lemma Unlocked(s: Sys, c: Co) returns (t: Sys)
    requires P.Inv(s) && CanGo(s, c) && s.pc[c] in {Crit, UnlWant, UnlIn}
    ensures Alone(s, c, t) && P.Inv(t) && CanGo(t, c) && t.pc == s.pc[c := Idle] && t.m.mtx == None && t.m.w.loops == s.m.w.loops
    ensures if s.m.queue == [] then !t.isLock && t.m.queue == [] else Owner(t, s.m.queue[0]) && t.m.queue == s.m.queue[1..]
    decreases match s.pc[c] case Crit => 2 case UnlWant => 1 case _ => 0
  {
    hide P.Inv, Alone, Steps, P.Enabled, P.Apply;
    var u := MoveDoes(s, c);
    MyLock(s, c);
    if s.pc[c] == UnlIn {
      if s.m.queue != [] { NextInLine(s, c); }
      t := ReturnsFromUnlock(u, c);
    } else {
      t := Unlocked(u, c);
    }
    assert s.pc[c := u.pc[c]][c := Idle] == s.pc[c := Idle];
    AloneOn(s, c, u, t);
  }

  lemma ReturnsFromUnlock(s: Sys, c: Co) returns (t: Sys)
    requires P.Inv(s) && CanGo(s, c) && s.pc[c] == UnlOut
    ensures Alone(s, c, t) && P.Inv(t) && CanGo(t, c) && t.pc == s.pc[c := Idle] && t.m.mtx == None
    ensures t.isLock == s.isLock && t.m.queue == s.m.queue && t.m.w.loops == s.m.w.loops
  {
    hide P.Inv, Steps, P.Enabled, P.Apply;
    t := MoveDoes(s, c);
    MyLock(s, c);
    AloneItself(t, c);
    AloneOn(s, c, t, t);
  }
}
