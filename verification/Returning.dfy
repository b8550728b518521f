/**
 The way back of a coroutine that was notified, in any system that runs on Monitor: if every agent that has
 the processor and `mtx_`, or can have it, can end the call it is in, then from every state of the system
 there is a run on which a notified coroutine has the processor again, with `mtx_` free. On that run the
 others end their calls and leave the processor, and its scheduler goes on to the next drain.
 */
module Returning {
  import opened Options
  import opened Systems
  import opened CoroLists
  import opened Parking
  import opened Monitor

  /** The coroutine waits, and its entry has been popped from the queue. */
  ghost predicate IsNotified(m: Mon, c: Co) {
    c in m.w.cos && Cor(c) in m.stage && m.stage[Cor(c)] in {Leaving, Parked} && c !in m.queue
  }

  /** The call that `d` is in has ended, and it is off the processor; nobody else is notified less. */
  ghost predicate Cleared(m: Mon, d: Co, n: Mon) {
    && n.mtx == None && d.sched in m.w.loops
    && n.w.loops == m.w.loops[d.sched := m.w.loops[d.sched].(current := None)]
    && (forall c | IsNotified(m, c) && (c != d || At(m, Cor(c), Leaving)) :: IsNotified(n, c))
  }

  ghost predicate MutexReleased(m: Mon, n: Mon) {
    n.mtx == None && n.w.loops == m.w.loops && forall c | IsNotified(m, c) :: IsNotified(n, c)
  }

  // ----- what the system grants

  /** A scheduler takes its steps. */
  ghost predicate CanStep<S(!new), M(!new)>(next: (S, M) -> Option<S>, view: S -> Mon, inv: S -> bool, s: S, step: Step) {
    inv(s) && Parking.Enabled(view(s).w, step) && !Stops(step) ==>
      exists t :: Reaches(next, s, t) && inv(t) && view(t) == view(s).(w := Parking.Apply(view(s).w, step))
  }

  /** A coroutine that has the processor ends its call and leaves the processor. */
  ghost predicate CanClear<S(!new), M(!new)>(next: (S, M) -> Option<S>, view: S -> Mon, inv: S -> bool, s: S, d: Co) {
    inv(s) && Running(view(s).w, d) && view(s).mtx in {None, Some(Cor(d))} ==>
      exists t :: Reaches(next, s, t) && inv(t) && Cleared(view(s), d, view(t))
  }

  /** A thread that has `mtx_` releases it. */
  ghost predicate CanRelease<S(!new), M(!new)>(next: (S, M) -> Option<S>, view: S -> Mon, inv: S -> bool, s: S) {
    inv(s) && view(s).mtx.Some? && view(s).mtx.value.Thr? ==>
      exists t :: Reaches(next, s, t) && inv(t) && MutexReleased(view(s), view(t))
  }

  ghost predicate Obliging<S(!new), M(!new)>(next: (S, M) -> Option<S>, view: S -> Mon, inv: S -> bool) {
    && (forall s | inv(s) :: Monitor.Inv(view(s)))
    && (forall s, step :: CanStep(next, view, inv, s, step))
    && (forall s, d :: CanClear(next, view, inv, s, d))
    && (forall s :: CanRelease(next, view, inv, s))
  }

  lemma StepsTo<S(!new), M(!new)>(next: (S, M) -> Option<S>, view: S -> Mon, inv: S -> bool, s: S, step: Step) returns (t: S)
    requires Obliging(next, view, inv) && inv(s) && Parking.Enabled(view(s).w, step) && !Stops(step)
    ensures Reaches(next, s, t) && inv(t) && view(t) == view(s).(w := Parking.Apply(view(s).w, step))
  {
    hide Reaches, Parking.Enabled, Parking.Apply;
    assert CanStep(next, view, inv, s, step);
    t :| Reaches(next, s, t) && inv(t) && view(t) == view(s).(w := Parking.Apply(view(s).w, step));
  }

  lemma Clears<S(!new), M(!new)>(next: (S, M) -> Option<S>, view: S -> Mon, inv: S -> bool, s: S, d: Co) returns (t: S)
    requires Obliging(next, view, inv) && inv(s) && Running(view(s).w, d) && view(s).mtx in {None, Some(Cor(d))}
    ensures Reaches(next, s, t) && inv(t) && Cleared(view(s), d, view(t))
  {
    hide Reaches, Cleared;
    assert CanClear(next, view, inv, s, d);
    t :| Reaches(next, s, t) && inv(t) && Cleared(view(s), d, view(t));
  }

  lemma Releases<S(!new), M(!new)>(next: (S, M) -> Option<S>, view: S -> Mon, inv: S -> bool, s: S) returns (t: S)
    requires Obliging(next, view, inv) && inv(s) && view(s).mtx.Some? && view(s).mtx.value.Thr?
    ensures Reaches(next, s, t) && inv(t) && MutexReleased(view(s), view(t))
  {
    hide Reaches, MutexReleased;
    assert CanRelease(next, view, inv, s);
    t :| Reaches(next, s, t) && inv(t) && MutexReleased(view(s), view(t));
  }

  // ----- the monitor on the way

  /** A coroutine that has `mtx_` runs. */
  lemma HolderRuns(m: Mon)
    requires Monitor.Inv(m) && m.mtx.Some? && m.mtx.value.Cor?
    ensures Running(m.w, m.mtx.value.co) && At(m, m.mtx.value, m.stage[m.mtx.value]) && m.stage[m.mtx.value] in {Inside, Enlisted}
  {
    hide Parking.Inv;
    var d := m.mtx.value.co;
    assert AgentInv(m, Cor(d), m.stage[Cor(d)]);
    assert CorInv(m, d, m.w.cos[d], m.stage[Cor(d)]);
  }

  lemma CurrentRuns(m: Mon, k: nat)
    requires Monitor.Inv(m) && k in m.w.loops && m.w.loops[k].current.Some?
    ensures m.w.loops[k].current.value.sched == k && Running(m.w, m.w.loops[k].current.value)
  {
    assert LoopInv(m.w, k, m.w.loops[k]);
  }

  lemma InTodo(m: Mon, k: nat, d: Co)
    requires Monitor.Inv(m) && k in m.w.loops && d in m.w.loops[k].todo
    ensures d.sched == k && d in m.w.cos
  {
    assert LoopInv(m.w, k, m.w.loops[k]);
  }

  /** Where a notified coroutine is when nobody of its scheduler runs. */
  lemma WhereItIs(m: Mon, c: Co)
    requires Monitor.Inv(m) && IsNotified(m, c) && c.sched in m.w.loops && m.w.loops[c.sched].current == None
    ensures At(m, Cor(c), Parked)
    ensures var i, l := m.w.cos[c], m.w.loops[c.sched];
      || (i.place == Suspended && i.posted == 1 && c !in l.todo)
      || (i.place == Resumed && l.phase == RunningResumed && c in l.todo)
  {
    NotifiedComesBack(m, c);
    if c in m.w.loops[c.sched].todo { assert LoopInv(m.w, c.sched, m.w.loops[c.sched]); }
  }

  lemma HasLoop(m: Mon, c: Co)
    requires Monitor.Inv(m) && c in m.w.cos
    ensures c.sched in m.w.loops
  {
    assert CoInv(m.w, c, m.w.cos[c]);
  }

  lemma DueOnce(m: Mon, d: Co)
    requires Monitor.Inv(m) && d in m.w.cos
    ensures m.w.cos[d].due <= 1
  {
    assert CoInv(m.w, d, m.w.cos[d]);
  }

  // ----- the way back

  /** `t` lies on the way of `c`, with `mtx_` free. */
  ghost predicate Onward<S(!new), M(!new)>(next: (S, M) -> Option<S>, view: S -> Mon, inv: S -> bool, s: S, t: S, c: Co) {
    Reaches(next, s, t) && inv(t) && IsNotified(view(t), c) && view(t).mtx == None
  }

  lemma Further<S(!new), M(!new)>(next: (S, M) -> Option<S>, view: S -> Mon, inv: S -> bool, s: S, t: S, u: S, c: Co)
    requires Reaches(next, s, t) && Onward(next, view, inv, t, u, c)
    ensures Onward(next, view, inv, s, u, c)
  {
    ReachesOn(next, s, t, u);
  }

  /** Whoever has `mtx_` releases it; a scheduler keeps its place meanwhile, but for its running coroutine. */
  lemma FreesMutex<S(!new), M(!new)>(next: (S, M) -> Option<S>, view: S -> Mon, inv: S -> bool, s: S, c: Co) returns (t: S)
    requires Obliging(next, view, inv) && inv(s) && IsNotified(view(s), c)
    ensures Onward(next, view, inv, s, t, c)
  {
    hide Reaches, CanStep, CanClear, CanRelease, Monitor.Inv;
    assert Monitor.Inv(view(s));
    if view(s).mtx == None {
      t := s;
      ReachesItself(next, s);
    } else if view(s).mtx.value.Thr? {
      t := Releases(next, view, inv, s);
    } else {
      HolderRuns(view(s));
      t := Clears(next, view, inv, s, view(s).mtx.value.co);
    }
  }

  /** The running coroutine of scheduler `k` leaves the processor. */
  lemma ClearsProcessor<S(!new), M(!new)>(next: (S, M) -> Option<S>, view: S -> Mon, inv: S -> bool, s: S, c: Co, k: nat)
    returns (t: S)
    requires Obliging(next, view, inv) && inv(s) && IsNotified(view(s), c) && view(s).mtx == None && k in view(s).w.loops
    requires view(s).w.loops[k].current == Some(c) ==> At(view(s), Cor(c), Leaving)
    ensures Onward(next, view, inv, s, t, c) && k in view(t).w.loops
    ensures view(t).w.loops[k] == view(s).w.loops[k].(current := None)
  {
    hide Reaches, CanStep, CanClear, CanRelease, Monitor.Inv;
    assert Monitor.Inv(view(s));
    if view(s).w.loops[k].current == None {
      t := s;
      ReachesItself(next, s);
    } else {
      CurrentRuns(view(s), k);
      t := Clears(next, view, inv, s, view(s).w.loops[k].current.value);
    }
  }

  lemma Dispatches<S(!new), M(!new)>(next: (S, M) -> Option<S>, view: S -> Mon, inv: S -> bool, s: S, c: Co, k: nat, d: Co)
    returns (t: S)
    requires Obliging(next, view, inv) && inv(s) && IsNotified(view(s), c) && view(s).mtx == None && k in view(s).w.loops
    requires view(s).w.loops[k].current == None && d in view(s).w.loops[k].todo
    ensures Onward(next, view, inv, s, t, c) && k in view(t).w.loops && view(t).stage == view(s).stage
    ensures view(t).w.loops[k] == view(s).w.loops[k].(current := Some(d), todo := view(s).w.loops[k].todo - {d})
  {
    hide Reaches, CanStep, CanClear, CanRelease, Monitor.Inv;
    assert Monitor.Inv(view(s));
    InTodo(view(s), k, d);
    t := StepsTo(next, view, inv, s, Dispatch(d));
  }

  /** The coroutines of the snapshot have their turns, and nobody runs then. */
  lemma FinishesTurns<S(!new), M(!new)>(next: (S, M) -> Option<S>, view: S -> Mon, inv: S -> bool, s: S, c: Co, k: nat)
    returns (t: S)
    requires Obliging(next, view, inv) && inv(s) && IsNotified(view(s), c) && view(s).mtx == None && k in view(s).w.loops
    requires view(s).w.loops[k].current == None && c !in view(s).w.loops[k].todo
    ensures Onward(next, view, inv, s, t, c) && k in view(t).w.loops
    ensures view(t).w.loops[k] == view(s).w.loops[k].(todo := {})
    decreases |view(s).w.loops[k].todo|
  {
    hide Obliging, IsNotified, Reaches;
    if view(s).w.loops[k].todo == {} {
      t := s;
      ReachesItself(next, s);
    } else {
      var d :| d in view(s).w.loops[k].todo;
      var u := Dispatches(next, view, inv, s, c, k, d);
      var v := ClearsProcessor(next, view, inv, u, c, k);
      assert view(s).w.loops[k].todo == view(v).w.loops[k].todo + {d};
      t := FinishesTurns(next, view, inv, v, c, k);
      Further(next, view, inv, u, v, t, c);
      Further(next, view, inv, s, u, t, c);
    }
  }

  function Rank(p: Phase): nat {
    match p case RunningResumed => 3 case RunningYielding => 2 case Waking => 1 case Posting => 0
  }

  /** The scheduler of a suspended coroutine goes on to where it posts the sleepers that are due. */
  lemma ToPosting<S(!new), M(!new)>(next: (S, M) -> Option<S>, view: S -> Mon, inv: S -> bool, s: S, c: Co) returns (t: S)
    requires Obliging(next, view, inv) && inv(s) && IsNotified(view(s), c) && view(s).mtx == None && c.sched in view(s).w.loops
    requires view(s).w.loops[c.sched].current == None && c !in view(s).w.loops[c.sched].todo
    ensures Onward(next, view, inv, s, t, c) && c.sched in view(t).w.loops
    ensures view(t).w.loops[c.sched].current == None && view(t).w.loops[c.sched].phase == Posting
    decreases Rank(view(s).w.loops[c.sched].phase)
  {
    hide Obliging, IsNotified, Reaches;
    var p := view(s).w.loops[c.sched].phase;
    if p == Posting {
      t := s;
      ReachesItself(next, s);
    } else {
      var u;
      if p == Waking {
        u := PopsNone(next, view, inv, s, c);
      } else {
        var v := FinishesTurns(next, view, inv, s, c, c.sched);
        u := GoesOn(next, view, inv, v, c);
        Further(next, view, inv, s, v, u, c);
      }
      t := ToPosting(next, view, inv, u, c);
      Further(next, view, inv, s, u, t, c);
    }
  }

  lemma PopsNone<S(!new), M(!new)>(next: (S, M) -> Option<S>, view: S -> Mon, inv: S -> bool, s: S, c: Co) returns (t: S)
    requires Obliging(next, view, inv) && inv(s) && IsNotified(view(s), c) && view(s).mtx == None && LoopAt(view(s).w, c.sched, Waking)
    ensures Onward(next, view, inv, s, t, c) && c.sched in view(t).w.loops
    ensures view(t).w.loops[c.sched] == view(s).w.loops[c.sched].(phase := Posting)
  {
    hide Obliging, Reaches;
    t := StepsTo(next, view, inv, s, SleepersPopped(c.sched));
  }

  lemma GoesOn<S(!new), M(!new)>(next: (S, M) -> Option<S>, view: S -> Mon, inv: S -> bool, s: S, c: Co) returns (t: S)
    requires Obliging(next, view, inv) && inv(s) && IsNotified(view(s), c) && view(s).mtx == None && c.sched in view(s).w.loops
    requires view(s).w.loops[c.sched].current == None && view(s).w.loops[c.sched].todo == {}
    requires view(s).w.loops[c.sched].phase in {RunningResumed, RunningYielding}
    ensures Onward(next, view, inv, s, t, c) && c.sched in view(t).w.loops
    ensures view(t).w.loops[c.sched].current == None && c !in view(t).w.loops[c.sched].todo
    ensures Rank(view(t).w.loops[c.sched].phase) == Rank(view(s).w.loops[c.sched].phase) - 1
  {
    hide Reaches, CanStep, CanClear, CanRelease, Monitor.Inv;
    assert Monitor.Inv(view(s));
    WhereItIs(view(s), c);
    t := StepsTo(next, view, inv, s, NextPhase(c.sched));
  }

  /** The expired sleepers of scheduler `k` that are still to be posted. */
  ghost function DueOf(m: Mon, k: nat): set<Co> {
    set d | d in m.w.cos && d.sched == k && m.w.cos[d].due > 0
  }

  lemma PostsAll<S(!new), M(!new)>(next: (S, M) -> Option<S>, view: S -> Mon, inv: S -> bool, s: S, c: Co) returns (t: S)
    requires Obliging(next, view, inv) && inv(s) && IsNotified(view(s), c) && view(s).mtx == None && LoopAt(view(s).w, c.sched, Posting)
    ensures Onward(next, view, inv, s, t, c) && DueOf(view(t), c.sched) == {} && view(t).w.loops == view(s).w.loops
    decreases |DueOf(view(s), c.sched)|
  {
    hide Obliging, IsNotified, Reaches;
    if DueOf(view(s), c.sched) == {} {
      t := s;
      ReachesItself(next, s);
    } else {
      var d :| d in DueOf(view(s), c.sched);
      var u := PostsOne(next, view, inv, s, c, d);
      assert DueOf(view(s), c.sched) == DueOf(view(u), c.sched) + {d};
      t := PostsAll(next, view, inv, u, c);
      Further(next, view, inv, s, u, t, c);
    }
  }

  lemma PostsOne<S(!new), M(!new)>(next: (S, M) -> Option<S>, view: S -> Mon, inv: S -> bool, s: S, c: Co, d: Co) returns (t: S)
    requires Obliging(next, view, inv) && inv(s) && IsNotified(view(s), c) && view(s).mtx == None && LoopAt(view(s).w, c.sched, Posting)
    requires d in DueOf(view(s), c.sched)
    ensures Onward(next, view, inv, s, t, c) && view(t).w.loops == view(s).w.loops
    ensures DueOf(view(t), c.sched) == DueOf(view(s), c.sched) - {d}
  {
    hide Reaches, CanStep, CanClear, CanRelease, Monitor.Inv;
    assert Monitor.Inv(view(s));
    DueOnce(view(s), d);
    t := StepsTo(next, view, inv, s, PostExpired(d));
  }

  lemma Drains<S(!new), M(!new)>(next: (S, M) -> Option<S>, view: S -> Mon, inv: S -> bool, s: S, c: Co) returns (t: S)
    requires Obliging(next, view, inv) && inv(s) && IsNotified(view(s), c) && view(s).mtx == None && LoopAt(view(s).w, c.sched, Posting)
    requires DueOf(view(s), c.sched) == {} && view(s).w.loops[c.sched].current == None
    ensures Onward(next, view, inv, s, t, c) && c.sched in view(t).w.loops
    ensures view(t).w.loops[c.sched].current == None && c in view(t).w.loops[c.sched].todo
  {
    hide Reaches, CanStep, CanClear, CanRelease, Monitor.Inv;
    assert Monitor.Inv(view(s));
    WhereItIs(view(s), c);
    forall d | d in view(s).w.cos && d.sched == c.sched ensures view(s).w.cos[d].due == 0 { assert d !in DueOf(view(s), c.sched); }
    t := StepsTo(next, view, inv, s, Drain(c.sched));
  }

  /** The coroutine has the processor again, and `mtx_` is free. */
  ghost predicate IsBack(m: Mon, c: Co) {
    IsNotified(m, c) && At(m, Cor(c), Parked) && Running(m.w, c) && m.mtx == None
  }

  /** From where nobody of its scheduler runs, the coroutine comes back. */
  lemma FromOffProcessor<S(!new), M(!new)>(next: (S, M) -> Option<S>, view: S -> Mon, inv: S -> bool, s: S, c: Co) returns (t: S)
    requires Obliging(next, view, inv) && inv(s) && IsNotified(view(s), c) && view(s).mtx == None && c.sched in view(s).w.loops
    requires view(s).w.loops[c.sched].current == None
    ensures Reaches(next, s, t) && inv(t) && IsBack(view(t), c)
  {
    hide Obliging, IsNotified, Reaches;
    if c in view(s).w.loops[c.sched].todo {
      t := FromSnapshot(next, view, inv, s, c);
    } else {
      var u := ToPosting(next, view, inv, s, c);
      var v := PostsAll(next, view, inv, u, c);
      var x := Drains(next, view, inv, v, c);
      t := FromSnapshot(next, view, inv, x, c);
      ReachesOn(next, s, u, v);
      ReachesOn(next, s, v, x);
      ReachesOn(next, s, x, t);
    }
  }

  lemma FromSnapshot<S(!new), M(!new)>(next: (S, M) -> Option<S>, view: S -> Mon, inv: S -> bool, s: S, c: Co) returns (t: S)
    requires Obliging(next, view, inv) && inv(s) && IsNotified(view(s), c) && view(s).mtx == None && c.sched in view(s).w.loops
    requires view(s).w.loops[c.sched].current == None && c in view(s).w.loops[c.sched].todo
    ensures Reaches(next, s, t) && inv(t) && IsBack(view(t), c)
  {
    hide Reaches, CanStep, CanClear, CanRelease, Monitor.Inv;
    assert Monitor.Inv(view(s));
    WhereItIs(view(s), c);
    t := Dispatches(next, view, inv, s, c, c.sched, c);
  }

  /** A notified coroutine, wherever it is, comes back. */
  lemma ComesBackRunning<S(!new), M(!new)>(next: (S, M) -> Option<S>, view: S -> Mon, inv: S -> bool, s: S, c: Co) returns (t: S)
    requires Obliging(next, view, inv) && inv(s) && IsNotified(view(s), c)
    ensures Reaches(next, s, t) && inv(t) && IsBack(view(t), c)
  {
    var u := FreesMutex(next, view, inv, s, c);
    assert Monitor.Inv(view(u));
    HasLoop(view(u), c);
    hide Obliging, Reaches, Monitor.Inv;
    if view(u).w.loops[c.sched].current == Some(c) && At(view(u), Cor(c), Parked) {
      t := u;
    } else {
      var v := ClearsProcessor(next, view, inv, u, c, c.sched);
      t := FromOffProcessor(next, view, inv, v, c);
      ReachesOn(next, s, u, v);
      ReachesOn(next, s, v, t);
    }
  }
}
