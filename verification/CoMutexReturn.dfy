/**
 Nobody who was handed a `CoMutex` is stranded: from every reachable state there is a run on which it
 returns from `lock`. On it everybody else finishes the call it is in and yields, and the scheduler of
 the coroutine goes on to its next drain.
 */
module CoMutexReturn {
  import opened Options
  import opened Systems
  import opened CoroLists
  import opened Parking
  import opened Monitor
  import opened P = CoMutexProtocol
  import opened CoMutexProgress
  import opened Returning

  /** Only coroutines, each of which may use the lock. */
  ghost predicate Coroutines(s: Sys) {
    forall a | a in s.m.stage :: a.Cor? && a.co in s.pc
  }

  ghost predicate Ok(s: Sys) {
    P.Inv(s) && Coroutines(s)
  }

  ghost function MonOf(s: Sys): Mon {
    s.m
  }

  lemma AloneReaches(s: Sys, c: Co, t: Sys)
    requires Alone(s, c, t)
    ensures Reaches(P.Next, s, t)
  {
  }

  // ----- somebody else's call ends

  /** The call that `d` is in ends: it runs on outside of `lock` and `unlock`, or is suspended in its wait. */
  ghost predicate Settled(s: Sys, d: Co, t: Sys) {
    && d in s.pc && d in t.pc && t.pc == s.pc[d := t.pc[d]] && t.m.mtx == None
    && (forall x | x in t.m.queue :: x in s.m.queue || x == d)
    && d.sched in s.m.w.loops && (IsLeaving(s, d) ==> t.pc == s.pc && t.m.queue == s.m.queue)
    && ((t.m.w.loops == s.m.w.loops && Running(t.m.w, d) && t.pc[d] in {Idle, Crit})
        || t.m.w.loops == s.m.w.loops[d.sched := s.m.w.loops[d.sched].(current := None)])
  }

  lemma Settles(s: Sys, d: Co) returns (t: Sys)
    requires P.Inv(s) && CanGo(s, d)
    ensures Alone(s, d, t) && P.Inv(t) && Settled(s, d, t)
  {
    hide P.Inv, Alone, Running, IsLeaving;
    OnLoop(s, d);
    match s.pc[d] {
      case Idle => t := s; AloneItself(s, d); OutIsFree(s, d);
      case Crit => t := s; AloneItself(s, d); OutIsFree(s, d);
      case Slow => t := EndsLock(s, d);
      case Retry => t := EndsLock(s, d);
      case ToWait => t := EndsLock(s, d);
      case Got => t := ReturnsFromLock(s, d);
      case Back => t := ReturnsFromLock(s, d);
      case Waiting => t := EndsWait(s, d);
      case UnlOut => t := ReturnsFromUnlock(s, d);
      case _ => t := EndsUnlock(s, d);
    }
  }

  lemma EndsLock(s: Sys, d: Co) returns (t: Sys)
    requires P.Inv(s) && CanGo(s, d) && s.pc[d] in {Slow, Retry, ToWait}
    ensures Alone(s, d, t) && P.Inv(t) && Settled(s, d, t)
  {
    hide P.Inv, Alone, Running, IsLeaving;
    OnLoop(s, d);
    LocksOrQueues(s, d);
    if s.isLock { t := Queues(s, d); } else { t := LocksFree(s, d); }
  }

  lemma LocksOrQueues(s: Sys, d: Co)
    requires P.Inv(s) && CanGo(s, d) && s.pc[d] in {Slow, Retry, ToWait}
    ensures s.pc[d] == ToWait ==> s.isLock
  {
    assert PcInv(s, d, s.pc[d]);
  }

  lemma OnLoop(s: Sys, d: Co)
    requires CanGo(s, d)
    ensures d.sched in s.m.w.loops && (s.pc[d] != Waiting ==> !IsLeaving(s, d))
  {
  }

  lemma EndsWait(s: Sys, d: Co) returns (t: Sys)
    requires P.Inv(s) && CanGo(s, d) && s.pc[d] == Waiting
    ensures Alone(s, d, t) && P.Inv(t) && Settled(s, d, t)
  {
    hide P.Inv, Alone;
    WaitsWhere(s, d);
    if At(s.m, Cor(d), Parked) { t := ReturnsFromLock(s, d); } else { t := Suspends(s, d); }
  }

  lemma WaitsWhere(s: Sys, d: Co)
    requires P.Inv(s) && CanGo(s, d) && s.pc[d] == Waiting
    ensures At(s.m, Cor(d), Parked) || At(s.m, Cor(d), Enlisted) || (IsLeaving(s, d) && s.m.mtx == None)
  {
    hide P.Inv;
    Standing(s, d);
  }

  lemma EndsUnlock(s: Sys, d: Co) returns (t: Sys)
    requires P.Inv(s) && CanGo(s, d) && s.pc[d] in {UnlWant, UnlIn}
    ensures Alone(s, d, t) && P.Inv(t) && Settled(s, d, t)
  {
    hide P.Inv, Alone, Owner;
    t := Unlocked(s, d);
  }

  // ----- what stays on the way

  lemma MoveKeepsCoroutines(s: Sys, mv: Move)
    requires Coroutines(s) && P.Enabled(s, mv)
    ensures Coroutines(P.Apply(s, mv))
  {
  }

  lemma ReachedIsOk(s: Sys, t: Sys)
    requires Ok(s) && Reaches(P.Next, s, t)
    ensures Ok(t)
  {
    hide P.Inv, Coroutines, P.Enabled, P.Apply;
    var run :| Runs(P.Next, s, run) && Exec(P.Next, s, run) == t;
    forall x, mv | Ok(x) && P.Next(x, mv).Some? ensures Ok(P.Next(x, mv).value) {
      MoveKeepsInv(x, mv);
      MoveKeepsCoroutines(x, mv);
    }
    Invariant(P.Next, Ok, s, run);
  }

  // ----- what the protocol grants

  /** The step of a scheduler that stops nobody. */
  lemma GrantsStep(s: Sys, step: Step)
    ensures CanStep(P.Next, MonOf, Ok, s, step)
  {
    hide P.Inv, Coroutines, Parking.Enabled, Parking.Apply;
    if Ok(s) && Parking.Enabled(s.m.w, step) && !Stops(step) {
      var t := P.Apply(s, Around(step));
      ReachesBy(P.Next, s, Around(step));
      ReachedIsOk(s, t);
      assert Ok(t) && MonOf(t) == s.m.(w := Parking.Apply(s.m.w, step));
    }
  }

  lemma CanYield(s: Sys, d: Co)
    requires P.Inv(s) && d in s.pc && s.pc[d] in {Idle, Crit} && Running(s.m.w, d)
    ensures P.Enabled(s, Around(Yield(d)))
  {
    Standing(s, d);
    assert CorInv(s.m, d, s.m.w.cos[d], s.m.stage[Cor(d)]);
    hide P.Inv;
  }

  /** A coroutine outside of `lock` and `unlock` yields. */
  lemma YieldsNow(s: Sys, d: Co) returns (t: Sys)
    requires P.Inv(s) && d in s.pc && s.pc[d] in {Idle, Crit} && Running(s.m.w, d)
    ensures Reaches(P.Next, s, t) && P.Inv(t) && t.pc == s.pc && t.m.queue == s.m.queue && t.m.mtx == s.m.mtx
    ensures t.m.w.loops == s.m.w.loops[d.sched := s.m.w.loops[d.sched].(current := None)]
  {
    hide P.Inv;
    CanYield(s, d);
    t := P.Apply(s, Around(Yield(d)));
    MoveKeepsInv(s, Around(Yield(d)));
    ReachesBy(P.Next, s, Around(Yield(d)));
  }

  /** The coroutines that were notified are those that wait and are not queued: they have been handed the
      lock. */
  lemma NotifiedIsHanded(s: Sys, c: Co)
    requires Ok(s)
    ensures IsNotified(s.m, c) <==> c in s.pc && s.pc[c] == Waiting && c !in s.m.queue
  {
    if Cor(c) in s.m.stage {
      Standing(s, c);
      assert CorInv(s.m, c, s.m.w.cos[c], s.m.stage[Cor(c)]);
    }
    if c in s.pc { Standing(s, c); }
  }

  lemma StillNotified(s: Sys, d: Co, t: Sys)
    requires Ok(s) && Ok(t) && d in s.pc && d in t.pc && t.pc == s.pc[d := t.pc[d]]
    requires forall x | x in t.m.queue :: x in s.m.queue || x == d
    requires IsLeaving(s, d) ==> t.pc == s.pc && t.m.queue == s.m.queue
    requires Running(s.m.w, d)
    ensures forall c | IsNotified(s.m, c) && (c != d || At(s.m, Cor(c), Leaving)) :: IsNotified(t.m, c)
  {
    hide Ok, IsNotified;
    forall c | IsNotified(s.m, c) && (c != d || At(s.m, Cor(c), Leaving)) ensures IsNotified(t.m, c) {
      NotifiedIsHanded(s, c);
      NotifiedIsHanded(t, c);
    }
  }

  lemma GrantsClear(s: Sys, d: Co)
    ensures CanClear(P.Next, MonOf, Ok, s, d)
  {
    if Ok(s) && Running(s.m.w, d) && s.m.mtx in {None, Some(Cor(d))} {
      assert Cor(d) in s.m.stage && d in s.pc;
      hide Ok, Cleared;
      var t := ClearsNow(s, d);
      assert Reaches(P.Next, s, t) && Ok(t) && Cleared(MonOf(s), d, MonOf(t));
    }
  }

  lemma ClearsNow(s: Sys, d: Co) returns (t: Sys)
    requires Ok(s) && CanGo(s, d)
    ensures Reaches(P.Next, s, t) && Ok(t) && Cleared(s.m, d, t.m)
  {
    hide P.Inv, Coroutines, Alone, IsNotified;
    var u := Settles(s, d);
    AloneReaches(s, d, u);
    ReachedIsOk(s, u);
    if Running(u.m.w, d) {
      t := YieldsNow(u, d);
      ReachedIsOk(u, t);
      ReachesOn(P.Next, s, u, t);
    } else {
      t := u;
    }
    StillNotified(s, d, t);
  }

  lemma GrantsAll()
    ensures Obliging(P.Next, MonOf, Ok)
  {
    hide CanStep, CanClear;
    forall s | Ok(s) ensures Monitor.Inv(MonOf(s)) { }
    forall s, step ensures CanStep(P.Next, MonOf, Ok, s, step) { GrantsStep(s, step); }
    forall s, d ensures CanClear(P.Next, MonOf, Ok, s, d) { GrantsClear(s, d); }
    forall s ensures CanRelease(P.Next, MonOf, Ok, s) { if Ok(s) { NoThreads(s); } }
  }

  lemma NoThreads(s: Sys)
    requires Ok(s)
    ensures s.m.mtx.Some? ==> s.m.mtx.value.Cor?
  {
  }

  /** No dead end: in every reachable state, for a coroutine that was handed the lock while it waited, there
      is a run on which it has the processor with `mtx_` free, and returns from `lock` by moves of its own. */
  lemma HandedCanReturn(s: Sys, run: seq<Move>, c: Co) returns (t: Sys, u: Sys)
    requires Initial(s) && Coroutines(s) && Runs(P.Next, s, run)
    requires var e := Exec(P.Next, s, run); c in e.pc && e.pc[c] == Waiting && c !in e.m.queue
    ensures Reaches(P.Next, Exec(P.Next, s, run), t) && IsBack(t.m, c)
    ensures Alone(t, c, u) && c in u.pc && u.pc[c] == Crit
  {
    InitialInv(s);
    var e := Exec(P.Next, s, run);
    assert Reaches(P.Next, s, e);
    hide P.Inv, Coroutines, Alone, Initial;
    ReachedIsOk(s, e);
    NotifiedIsHanded(e, c);
    GrantsAll();
    t := ComesBackRunning(P.Next, MonOf, Ok, e, c);
    NotifiedIsHanded(t, c);
    u := ReturnsFromLock(t, c);
  }
}
