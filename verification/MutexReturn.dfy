/**
 Nobody who was notified is stranded in a `Mutex`: from every reachable state there is a run on which a
 notified coroutine is back on the processor with `mtx_` free, and then it locks the mutex, or waits anew.
 */
module MutexReturn {
  import opened Options
  import opened Systems
  import opened CoroLists
  import opened Parking
  import opened Monitor
  import opened P = MutexProtocol
  import opened MutexProgress
  import opened Returning

  ghost function MonOf(s: Sys): Mon {
    s.m
  }

  lemma AloneReaches(s: Sys, a: Agent, t: Sys)
    requires Alone(s, a, t)
    ensures Reaches(P.Next, s, t)
  {
  }

  lemma ReachedKeepsInv(s: Sys, t: Sys)
    requires P.Inv(s) && Reaches(P.Next, s, t)
    ensures P.Inv(t)
  {
    hide P.Inv, P.Enabled, P.Apply;
    var run :| Runs(P.Next, s, run) && Exec(P.Next, s, run) == t;
    P.RunKeepsInv(s, run);
  }

  // ----- somebody else's call ends

  /** The call that `d` is in ends: it runs on outside of `lock` and `unlock`, or waits. */
  ghost predicate Settled(s: Sys, d: Agent, t: Sys) {
    && d in s.pc && d in t.pc && t.pc == s.pc[d := t.pc[d]] && t.m.mtx == None
    && (forall x | x in t.m.queue :: x in s.m.queue || Cor(x) == d)
    && (IsLeaving(s, d) ==> t.pc == s.pc && t.m.queue == s.m.queue)
    && ((t.m.w.loops == s.m.w.loops && (d.Cor? ==> t.pc[d] in {Idle, Crit} && Running(t.m.w, d.co)))
        || (d.Cor? && OffProcessor(s, d.co, t)))
  }

  lemma Settles(s: Sys, d: Agent) returns (t: Sys)
    requires P.Inv(s) && CanGo(s, d)
    ensures Alone(s, d, t) && P.Inv(t) && Settled(s, d, t)
  {
    hide P.Inv, Alone, Running, IsLeaving, OffProcessor;
    match s.pc[d] {
      case Idle => t := EndsOutside(s, d);
      case Crit => t := EndsOutside(s, d);
      case Waiting => t := EndsWait(s, d);
      case UWant => t := EndsUnlock(s, d);
      case UClear => t := EndsUnlock(s, d);
      case UNotify => t := EndsUnlock(s, d);
      case UExit => t := EndsUnlock(s, d);
      case _ => t := EndsLock(s, d);
    }
  }

  lemma EndsOutside(s: Sys, d: Agent) returns (t: Sys)
    requires P.Inv(s) && CanGo(s, d) && s.pc[d] in {Idle, Crit}
    ensures Alone(s, d, t) && P.Inv(t) && Settled(s, d, t)
  {
    hide P.Inv, Alone;
    t := s;
    AloneItself(s, d);
    OutIsFree(s, d);
  }

  lemma EndsLock(s: Sys, d: Agent) returns (t: Sys)
    requires P.Inv(s) && CanGo(s, d) && (s.pc[d] in {LWant, LTest, LWait, LDec, LGot} || IsBackFromWait(s, d))
    ensures Alone(s, d, t) && P.Inv(t) && Settled(s, d, t)
  {
    hide P.Inv, Alone, IsLeaving, Running, OffProcessor;
    NotLeaving(s, d);
    WaitIsLocked(s, d);
    if s.isLock && s.pc[d] != LGot { t := Waits(s, d); } else { t := Locks(s, d); }
  }

  lemma WaitIsLocked(s: Sys, d: Agent)
    requires P.Inv(s) && CanGo(s, d)
    ensures s.pc[d] == LWait ==> s.isLock
  {
    hide P.Inv;
    Standing(s, d);
  }

  lemma EndsWait(s: Sys, d: Agent) returns (t: Sys)
    requires P.Inv(s) && CanGo(s, d) && s.pc[d] == Waiting
    ensures Alone(s, d, t) && P.Inv(t) && Settled(s, d, t)
  {
    hide P.Inv, Alone, OffProcessor;
    WaitsWhere(s, d);
    if IsBackFromWait(s, d) { t := EndsLock(s, d); } else { t := Suspends(s, d); }
  }

  lemma WaitsWhere(s: Sys, d: Agent)
    requires P.Inv(s) && CanGo(s, d) && s.pc[d] == Waiting
    ensures IsBackFromWait(s, d) || (d.Cor? && (At(s.m, d, Enlisted) || (IsLeaving(s, d) && s.m.mtx == None)))
  {
    hide P.Inv;
    Standing(s, d);
  }

  lemma EndsUnlock(s: Sys, d: Agent) returns (t: Sys)
    requires P.Inv(s) && CanGo(s, d) && s.pc[d] in {UWant, UClear, UNotify, UExit}
    ensures Alone(s, d, t) && P.Inv(t) && Settled(s, d, t)
  {
    hide P.Inv, Alone, IsLeaving, Running, OffProcessor;
    NotLeaving(s, d);
    if s.pc[d] == UExit { t := ReturnsFromUnlock(s, d); } else { t := Unlocked(s, d); }
  }

  // ----- what the protocol grants

  /** The step of a scheduler that stops nobody. */
  lemma GrantsStep(s: Sys, step: Step)
    ensures CanStep(P.Next, MonOf, P.Inv, s, step)
  {
    hide P.Inv, Parking.Enabled, Parking.Apply;
    if P.Inv(s) && Parking.Enabled(s.m.w, step) && !Stops(step) {
      var t := P.Apply(s, Around(step));
      ReachesBy(P.Next, s, Around(step));
      MoveKeepsInv(s, Around(step));
      assert P.Inv(t) && MonOf(t) == s.m.(w := Parking.Apply(s.m.w, step));
    }
  }

  lemma CanYield(s: Sys, d: Co)
    requires P.Inv(s) && Cor(d) in s.pc && s.pc[Cor(d)] in {Idle, Crit} && Running(s.m.w, d)
    ensures P.Enabled(s, Around(Yield(d)))
  {
    Standing(s, Cor(d));
    assert CorInv(s.m, d, s.m.w.cos[d], s.m.stage[Cor(d)]);
    hide P.Inv;
  }

  /** A coroutine outside of `lock` and `unlock` yields. */
  lemma YieldsNow(s: Sys, d: Co) returns (t: Sys)
    requires P.Inv(s) && Cor(d) in s.pc && s.pc[Cor(d)] in {Idle, Crit} && Running(s.m.w, d)
    ensures Reaches(P.Next, s, t) && P.Inv(t) && t.pc == s.pc && t.m.queue == s.m.queue && t.m.mtx == s.m.mtx
    ensures OffProcessor(s, d, t)
  {
    hide P.Inv;
    CanYield(s, d);
    t := P.Apply(s, Around(Yield(d)));
    MoveKeepsInv(s, Around(Yield(d)));
    ReachesBy(P.Next, s, Around(Yield(d)));
  }

  /** The coroutines that were notified are those that wait and are not queued. */
  lemma NotifiedWaits(s: Sys, c: Co)
    requires P.Inv(s)
    ensures IsNotified(s.m, c) <==> Cor(c) in s.pc && s.pc[Cor(c)] == Waiting && c !in s.m.queue
  {
    if Cor(c) in s.pc {
      Standing(s, Cor(c));
      assert CorInv(s.m, c, s.m.w.cos[c], s.m.stage[Cor(c)]);
    }
  }

  lemma StillNotified(s: Sys, d: Agent, t: Sys)
    requires P.Inv(s) && P.Inv(t) && d in s.pc && d in t.pc && t.pc == s.pc[d := t.pc[d]]
    requires forall x | x in t.m.queue :: x in s.m.queue || Cor(x) == d
    requires IsLeaving(s, d) ==> t.pc == s.pc && t.m.queue == s.m.queue
    ensures forall c | IsNotified(s.m, c) && (Cor(c) != d || At(s.m, Cor(c), Leaving)) :: IsNotified(t.m, c)
  {
    hide P.Inv, IsNotified;
    forall c | IsNotified(s.m, c) && (Cor(c) != d || At(s.m, Cor(c), Leaving)) ensures IsNotified(t.m, c) {
      NotifiedWaits(s, c);
      NotifiedWaits(t, c);
    }
  }

  lemma GrantsClear(s: Sys, d: Co)
    ensures CanClear(P.Next, MonOf, P.Inv, s, d)
  {
    if P.Inv(s) && Running(s.m.w, d) && s.m.mtx in {None, Some(Cor(d))} {
      CoroutineGoes(s, d);
      hide P.Inv, Cleared;
      var t := ClearsNow(s, d);
      assert Reaches(P.Next, s, t) && P.Inv(t) && Cleared(MonOf(s), d, MonOf(t));
    }
  }

  lemma CoroutineGoes(s: Sys, d: Co)
    requires P.Inv(s) && Running(s.m.w, d) && s.m.mtx in {None, Some(Cor(d))}
    ensures CanGo(s, Cor(d))
  {
    assert Cor(d) in s.m.stage;
    Standing(s, Cor(d));
  }

  lemma ClearsNow(s: Sys, d: Co) returns (t: Sys)
    requires P.Inv(s) && CanGo(s, Cor(d))
    ensures Reaches(P.Next, s, t) && P.Inv(t) && Cleared(s.m, d, t.m)
  {
    hide P.Inv, Alone, IsNotified;
    var u := Settles(s, Cor(d));
    AloneReaches(s, Cor(d), u);
    if u.m.w.loops == s.m.w.loops {
      t := YieldsNow(u, d);
      ReachesOn(P.Next, s, u, t);
    } else {
      t := u;
    }
    StillNotified(s, Cor(d), t);
  }

  lemma GrantsRelease(s: Sys)
    ensures CanRelease(P.Next, MonOf, P.Inv, s)
  {
    if P.Inv(s) && s.m.mtx.Some? && s.m.mtx.value.Thr? {
      var a := s.m.mtx.value;
      assert a in s.m.stage;
      Standing(s, a);
      hide P.Inv, Alone, IsNotified;
      var t := Settles(s, a);
      AloneReaches(s, a, t);
      StillNotified(s, a, t);
      assert Reaches(P.Next, s, t) && P.Inv(t) && MutexReleased(MonOf(s), MonOf(t));
    }
  }

  lemma GrantsAll()
    ensures Obliging(P.Next, MonOf, P.Inv)
  {
    hide CanStep, CanClear, CanRelease;
    forall s | P.Inv(s) ensures Monitor.Inv(MonOf(s)) { }
    forall s, step ensures CanStep(P.Next, MonOf, P.Inv, s, step) { GrantsStep(s, step); }
    forall s, d ensures CanClear(P.Next, MonOf, P.Inv, s, d) { GrantsClear(s, d); }
    forall s ensures CanRelease(P.Next, MonOf, P.Inv, s) { GrantsRelease(s); }
  }

  lemma ReachedState(s: Sys, run: seq<Move>) returns (e: Sys)
    requires Initial(s) && Runs(P.Next, s, run)
    ensures e == Exec(P.Next, s, run) && P.Inv(e)
  {
    hide P.Inv, P.Enabled, P.Apply;
    InitialInv(s);
    P.RunKeepsInv(s, run);
    e := Exec(P.Next, s, run);
  }

  lemma ComesBackFrom(s: Sys, c: Co) returns (t: Sys)
    requires P.Inv(s) && Cor(c) in s.pc && s.pc[Cor(c)] == Waiting && c !in s.m.queue
    ensures Reaches(P.Next, s, t) && P.Inv(t) && IsBack(t.m, c)
    ensures Cor(c) in t.pc && CanGo(t, Cor(c)) && IsBackFromWait(t, Cor(c))
  {
    hide P.Inv;
    NotifiedWaits(s, c);
    GrantsAll();
    t := ComesBackRunning(P.Next, MonOf, P.Inv, s, c);
    NotifiedWaits(t, c);
  }

  /** No dead end: in every reachable state, for a coroutine that was notified while it waited, there is a run
      on which it has the processor with `mtx_` free; if the lock is free then, it locks it by moves of its
      own, and else it waits anew, last in the queue. */
  lemma NotifiedCanReturn(s: Sys, run: seq<Move>, c: Co) returns (t: Sys, u: Sys)
    requires Initial(s) && Runs(P.Next, s, run) && Cor(c) in Notified(Exec(P.Next, s, run))
    ensures Reaches(P.Next, Exec(P.Next, s, run), t) && IsBack(t.m, c) && Alone(t, Cor(c), u)
    ensures Cor(c) in u.pc && if t.isLock then u.pc[Cor(c)] == Waiting && u.m.queue == t.m.queue + [c] else u.pc[Cor(c)] == Crit
  {
    var e := ReachedState(s, run);
    hide P.Inv, Alone, Initial, Runs, Exec;
    t := ComesBackFrom(e, c);
    if t.isLock { u := Waits(t, Cor(c)); } else { u := Locks(t, Cor(c)); }
  }
}
