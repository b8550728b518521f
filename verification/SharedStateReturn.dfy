/**
 Nobody is stranded in front of a shared state that is ready: from every reachable state there is a run on
 which a coroutine that waits is back on the processor with `mtx_` free, and then its `wait` yields what was
 set.
 */
module SharedStateReturn {
  import opened Options
  import opened Systems
  import opened CoroLists
  import opened Parking
  import opened Monitor
  import opened P = SharedStateProtocol
  import opened SharedStateProgress
  import opened Returning

  ghost function MonOf(s: Sys): Mon {
    s.m
  }

  lemma AloneReaches(s: Sys, a: Agent, t: Sys)
    requires Alone(s, a, t)
    ensures Reaches(P.Next, s, t)
  {
  }

  lemma ReachedKeepsInv(s: Sys, t: Sys)
    requires P.Inv(s) && Reaches(P.Next, s, t)
    ensures P.Inv(t)
  {
    hide P.Inv, P.Enabled, P.Apply;
    var run :| Runs(P.Next, s, run) && Exec(P.Next, s, run) == t;
    P.RunKeepsInv(s, run);
  }

  // ----- somebody else's call ends

  /** The call that `d` is in ends: it runs on outside of the calls, or waits. */
  ghost predicate Settled(s: Sys, d: Agent, t: Sys) {
    && d in s.pc && d in t.pc && t.pc == s.pc[d := t.pc[d]] && t.m.mtx == None
    && (forall x | x in t.m.queue :: x in s.m.queue || Cor(x) == d)
    && (IsLeaving(s, d) ==> t.pc == s.pc && t.m.queue == s.m.queue)
    && ((t.m.w.loops == s.m.w.loops && (d.Cor? ==> t.pc[d] == Idle && Running(t.m.w, d.co)))
        || (d.Cor? && OffProcessor(s, d.co, t)))
  }

  lemma Settles(s: Sys, d: Agent) returns (t: Sys)
    requires P.Inv(s) && CanGo(s, d)
    ensures Alone(s, d, t) && P.Inv(t) && Settled(s, d, t)
  {
    hide P.Inv, Alone, IsLeaving, OffProcessor;
    match s.pc[d] {
      case Idle => t := EndsOutside(s, d);
      case Done(_) => t := EndsOutside(s, d);
      case Waiting => t := EndsWaiting(s, d);
      case SWant(_) => t := EndsSet(s, d);
      case SIn(_) => t := EndsSet(s, d);
      case SNotify => t := EndsSet(s, d);
      case SOut => t := EndsSet(s, d);
      case _ => t := EndsWait(s, d);
    }
  }

  /** The caller has what `getValue` returned, and goes on. */
  lemma EndsOutside(s: Sys, d: Agent) returns (t: Sys)
    requires P.Inv(s) && CanGo(s, d) && (s.pc[d] == Idle || s.pc[d].Done?)
    ensures Alone(s, d, t) && P.Inv(t) && Settled(s, d, t) && CanGo(t, d)
  {
    hide P.Inv, Alone, Steps, P.Enabled, P.Apply, OffProcessor;
    OutIsFree(s, d);
    NotLeaving(s, d);
    if s.pc[d] == Idle {
      t := s;
      AloneItself(s, d);
    } else {
      t := MoveDoes(s, d);
      MyQueue(s, d);
      AloneItself(t, d);
      AloneOn(s, d, t, t);
      GoesIdle(s, d, t);
      OutIsFree(t, d);
    }
  }

  lemma GoesIdle(s: Sys, d: Agent, t: Sys)
    requires d in s.pc && d in s.m.stage && s.pc[d].Done? && P.Enabled(s, MyMove(s, d)) && t == Moved(s, d)
    ensures d in t.pc && t.pc[d] == Idle
  {
  }

  lemma EndsWait(s: Sys, d: Agent) returns (t: Sys)
    requires P.Inv(s) && CanGo(s, d)
    requires IsBackFromWait(s, d) || (s.pc[d] != Waiting && s.pc[d] != Idle && (WaitLeft(s.pc[d]) > 0 || UntilWait(s.pc[d]) > 0))
    ensures Alone(s, d, t) && P.Inv(t) && Settled(s, d, t)
  {
    hide P.Inv, Alone, IsLeaving, OffProcessor, Running;
    NotLeaving(s, d);
    ReadyOrNot(s, d);
    if s.isReady {
      var u := Yields(s, d);
      NotLeaving(u, d);
      t := EndsOutside(u, d);
      AloneJoin(s, d, u, t);
      Twice(s.pc, d, u.pc[d], t.pc[d]);
      SettledThrough(s, d, u, t);
    } else {
      t := Waits(s, d);
    }
  }

  lemma SettledThrough(s: Sys, d: Agent, u: Sys, t: Sys)
    requires d in s.pc && d in u.pc && u.pc == s.pc[d := u.pc[d]] && u.m.queue == s.m.queue && u.m.w.loops == s.m.w.loops
    requires Settled(u, d, t) && !IsLeaving(s, d)
    ensures Settled(s, d, t)
  {
    Twice(s.pc, d, u.pc[d], t.pc[d]);
  }

  lemma ReadyOrNot(s: Sys, d: Agent)
    requires P.Inv(s) && CanGo(s, d)
    ensures s.pc[d].WWait? ==> !s.isReady
    ensures s.pc[d].WDone? || s.pc[d].GWant? || s.pc[d].GIn? || s.pc[d].GOut? ==> s.isReady
    ensures s.isReady <==> s.sets != []
  {
    ReadyIsSet(s);
    hide P.Inv;
    Standing(s, d);
  }

  lemma AloneJoin(s: Sys, a: Agent, t: Sys, u: Sys)
    requires Alone(s, a, t) && Alone(t, a, u)
    ensures Alone(s, a, u)
  {
    hide P.Enabled, P.Apply;
    var x :| (forall m | m in x :: Own(m, a)) && Runs(P.Next, s, x) && Exec(P.Next, s, x) == t;
    var y :| (forall m | m in y :: Own(m, a)) && Runs(P.Next, t, y) && Exec(P.Next, t, y) == u;
    RunsJoin(P.Next, s, x, y);
    assert forall m | m in x + y :: Own(m, a);
  }

  lemma EndsWaiting(s: Sys, d: Agent) returns (t: Sys)
    requires P.Inv(s) && CanGo(s, d) && s.pc[d] == Waiting
    ensures Alone(s, d, t) && P.Inv(t) && Settled(s, d, t)
  {
    hide P.Inv, Alone, OffProcessor;
    WaitsWhere(s, d);
    if IsBackFromWait(s, d) { t := EndsWait(s, d); } else { t := Suspends(s, d); }
  }

  lemma WaitsWhere(s: Sys, d: Agent)
    requires P.Inv(s) && CanGo(s, d) && s.pc[d] == Waiting
    ensures IsBackFromWait(s, d) || (d.Cor? && (At(s.m, d, Enlisted) || (IsLeaving(s, d) && s.m.mtx == None)))
  {
    hide P.Inv;
    Standing(s, d);
  }

  lemma EndsSet(s: Sys, d: Agent) returns (t: Sys)
    requires P.Inv(s) && CanGo(s, d) && SetLeft(s.pc[d]) > 0
    ensures Alone(s, d, t) && P.Inv(t) && Settled(s, d, t)
  {
    hide P.Inv, Alone, IsLeaving, Running, OffProcessor, Steps, P.Enabled, P.Apply;
    NotLeaving(s, d);
    if s.pc[d] == SOut {
      t := MoveDoes(s, d);
      MyQueue(s, d);
      NextPc(s, d);
      AloneItself(t, d);
      AloneOn(s, d, t, t);
    } else {
      t := Sets(s, d);
    }
  }

  // ----- what the protocol grants

  /** The step of a scheduler that stops nobody. */
  lemma GrantsStep(s: Sys, step: Step)
    ensures CanStep(P.Next, MonOf, P.Inv, s, step)
  {
    hide P.Inv, Parking.Enabled, Parking.Apply;
    if P.Inv(s) && Parking.Enabled(s.m.w, step) && !Stops(step) {
      var t := P.Apply(s, Around(step));
      ReachesBy(P.Next, s, Around(step));
      MoveKeepsInv(s, Around(step));
      assert P.Inv(t) && MonOf(t) == s.m.(w := Parking.Apply(s.m.w, step));
    }
  }

  lemma CanYield(s: Sys, d: Co)
    requires P.Inv(s) && Cor(d) in s.pc && s.pc[Cor(d)] == Idle && Running(s.m.w, d)
    ensures P.Enabled(s, Around(Yield(d)))
  {
    Standing(s, Cor(d));
    assert CorInv(s.m, d, s.m.w.cos[d], s.m.stage[Cor(d)]);
    hide P.Inv;
  }

  /** A coroutine outside of the calls yields. */
  lemma YieldsNow(s: Sys, d: Co) returns (t: Sys)
    requires P.Inv(s) && Cor(d) in s.pc && s.pc[Cor(d)] == Idle && Running(s.m.w, d)
    ensures Reaches(P.Next, s, t) && P.Inv(t) && t.pc == s.pc && t.m.queue == s.m.queue && t.m.mtx == s.m.mtx
    ensures OffProcessor(s, d, t)
  {
    hide P.Inv;
    CanYield(s, d);
    t := P.Apply(s, Around(Yield(d)));
    MoveKeepsInv(s, Around(Yield(d)));
    ReachesBy(P.Next, s, Around(Yield(d)));
  }

  /** The coroutines that were notified are those that wait and are not queued. */
  lemma NotifiedWaits(s: Sys, c: Co)
    requires P.Inv(s)
    ensures IsNotified(s.m, c) <==> Cor(c) in s.pc && s.pc[Cor(c)] == Waiting && c !in s.m.queue
  {
    if Cor(c) in s.pc {
      Standing(s, Cor(c));
      assert CorInv(s.m, c, s.m.w.cos[c], s.m.stage[Cor(c)]);
    }
  }

  lemma StillNotified(s: Sys, d: Agent, t: Sys)
    requires P.Inv(s) && P.Inv(t) && d in s.pc && d in t.pc && t.pc == s.pc[d := t.pc[d]]
    requires forall x | x in t.m.queue :: x in s.m.queue || Cor(x) == d
    requires IsLeaving(s, d) ==> t.pc == s.pc && t.m.queue == s.m.queue
    ensures forall c | IsNotified(s.m, c) && (Cor(c) != d || At(s.m, Cor(c), Leaving)) :: IsNotified(t.m, c)
  {
    hide P.Inv, IsNotified;
    forall c | IsNotified(s.m, c) && (Cor(c) != d || At(s.m, Cor(c), Leaving)) ensures IsNotified(t.m, c) {
      NotifiedWaits(s, c);
      NotifiedWaits(t, c);
    }
  }

  lemma GrantsClear(s: Sys, d: Co)
    ensures CanClear(P.Next, MonOf, P.Inv, s, d)
  {
    if P.Inv(s) && Running(s.m.w, d) && s.m.mtx in {None, Some(Cor(d))} {
      CoroutineGoes(s, d);
      hide P.Inv, Cleared;
      var t := ClearsNow(s, d);
      assert Reaches(P.Next, s, t) && P.Inv(t) && Cleared(MonOf(s), d, MonOf(t));
    }
  }

  lemma CoroutineGoes(s: Sys, d: Co)
    requires P.Inv(s) && Running(s.m.w, d) && s.m.mtx in {None, Some(Cor(d))}
    ensures CanGo(s, Cor(d))
  {
    assert Cor(d) in s.m.stage;
    Standing(s, Cor(d));
  }

  lemma ClearsNow(s: Sys, d: Co) returns (t: Sys)
    requires P.Inv(s) && CanGo(s, Cor(d))
    ensures Reaches(P.Next, s, t) && P.Inv(t) && Cleared(s.m, d, t.m)
  {
    hide P.Inv, Alone, IsNotified;
    var u := Settles(s, Cor(d));
    AloneReaches(s, Cor(d), u);
    if u.m.w.loops == s.m.w.loops {
      t := YieldsNow(u, d);
      ReachesOn(P.Next, s, u, t);
    } else {
      t := u;
    }
    StillNotified(s, Cor(d), t);
  }

  lemma GrantsRelease(s: Sys)
    ensures CanRelease(P.Next, MonOf, P.Inv, s)
  {
    if P.Inv(s) && s.m.mtx.Some? && s.m.mtx.value.Thr? {
      var a := s.m.mtx.value;
      assert a in s.m.stage;
      Standing(s, a);
      hide P.Inv, Alone, IsNotified;
      var t := Settles(s, a);
      AloneReaches(s, a, t);
      StillNotified(s, a, t);
      assert Reaches(P.Next, s, t) && P.Inv(t) && MutexReleased(MonOf(s), MonOf(t));
    }
  }

  lemma GrantsAll()
    ensures Obliging(P.Next, MonOf, P.Inv)
  {
    hide CanStep, CanClear, CanRelease;
    forall s | P.Inv(s) ensures Monitor.Inv(MonOf(s)) { }
    forall s, step ensures CanStep(P.Next, MonOf, P.Inv, s, step) { GrantsStep(s, step); }
    forall s, d ensures CanClear(P.Next, MonOf, P.Inv, s, d) { GrantsClear(s, d); }
    forall s ensures CanRelease(P.Next, MonOf, P.Inv, s) { GrantsRelease(s); }
  }

  lemma ReachedState(s: Sys, run: seq<Move>) returns (e: Sys)
    requires Initial(s) && Runs(P.Next, s, run)
    ensures e == Exec(P.Next, s, run) && P.Inv(e)
  {
    hide P.Inv, P.Enabled, P.Apply;
    InitialInv(s);
    P.RunKeepsInv(s, run);
    e := Exec(P.Next, s, run);
  }

  lemma ComesBackFrom(s: Sys, c: Co) returns (t: Sys)
    requires P.Inv(s) && Cor(c) in s.pc && s.pc[Cor(c)] == Waiting && c !in s.m.queue
    ensures Reaches(P.Next, s, t) && P.Inv(t) && IsBack(t.m, c)
    ensures Cor(c) in t.pc && CanGo(t, Cor(c)) && IsBackFromWait(t, Cor(c))
  {
    hide P.Inv;
    NotifiedWaits(s, c);
    GrantsAll();
    t := ComesBackRunning(P.Next, MonOf, P.Inv, s, c);
    NotifiedWaits(t, c);
  }

  /** No dead end: in every reachable state in which the state is ready, for a coroutine that was notified
      while it waited, there is a run on which it has the processor with `mtx_` free; then its `wait` yields,
      by moves of its own, the content that the state has by then. */
  lemma NotifiedCanReturn(s: Sys, run: seq<Move>, c: Co) returns (t: Sys, u: Sys)
    requires Initial(s) && Runs(P.Next, s, run)
    requires var e := Exec(P.Next, s, run); e.isReady && AtPc(e, Cor(c), Waiting) && c !in e.m.queue
    ensures Reaches(P.Next, Exec(P.Next, s, run), t) && IsBack(t.m, c) && Alone(t, Cor(c), u)
    ensures t.sets != [] && Cor(c) in u.pc && u.pc[Cor(c)] == Done(Got(Content(t.sets)))
  {
    var e := ReachedState(s, run);
    hide P.Inv, Alone, Initial, Runs, Exec;
    t := ComesBackFrom(e, c);
    StaysReady(e, t);
    u := Yields(t, Cor(c));
  }

  lemma StaysReady(s: Sys, t: Sys)
    requires s.isReady && P.Inv(t) && Reaches(P.Next, s, t)
    ensures t.isReady && t.sets != []
  {
    ReadyIsSet(t);
    hide P.Inv, Guard, P.Enabled;
    var run :| Runs(P.Next, s, run) && Exec(P.Next, s, run) == t;
    Invariant(P.Next, (x: Sys) => x.isReady, s, run);
  }
}
