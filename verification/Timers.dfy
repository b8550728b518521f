/** `Timer`, built from an `Asyncer` that creates the timer event in the loop thread. */
module Timers {
  import opened Options
  import opened Handlers
  import opened TimerPhases
  import Asyncers

  datatype TimerEvent = TimerEvent(deadline: int, readNotify: bool)

  /** What the lambda given to the asyncer has captured. */
  datatype Posted = Posted(ms: Millis, handler: Handler)

  class Timer {
    var used: bool
    var done: bool
    var handler: Option<Handler>
    var event: Option<TimerEvent>
    var asyncer: Asyncers.Asyncer?
    var posted: Option<Posted>
    /** The clock of the system, and every call made of a handler, numbered in the order passed in. */
    var now: nat
    var calls: seq<Call>
    var issued: nat
    ghost var given: seq<Handler>
    ghost var phase: Phase

    ghost predicate Registered()
      reads this
    {
      event.Some? && event.value.readNotify
    }

    /** The fields agree with the phase; `queued` says whether the asyncer has still to run. */
    ghost predicate Consistent(queued: bool)
      reads this, asyncer
    {
      && now < I64 && |given| == issued
      && Served(calls, issued, if phase.Over? then [phase.msg] else [], TimerReused)
      && if asyncer == null then
           phase == Fresh && handler == None && event == None && issued == 0 && (used ==> !done)
         else
           && !phase.Fresh? && used && done == phase.Over? && issued > 0
           && asyncer.Valid() && (asyncer.stage.Queued? <==> queued) && !asyncer.stage.Fresh?
           && handler == Some(given[0]) && posted == Some(Posted(phase.ms, handler.value))
           && (phase.Queued? ==> event == None)
           && (phase.Armed? ==> event == Some(TimerEvent(phase.deadline, true)))
           && (phase.Over? ==> !Registered())
    }

    /** The first handler has been called exactly once if the timer is over, and else not at all;
        each refused handler has been called exactly once; what is registered is what is due. */
    ghost predicate Valid()
      reads this, asyncer
    {
      Consistent(phase.Queued?) && (used <==> asyncer != null)
    }

    ghost function Books(): Ledger
      reads this
    {
      Ledger(if asyncer == null || done then None else handler, given)
    }

    /** Whether a handler stored in this timer can still be called. */
    ghost function Pend(): nat
      reads this
    {
      if used && done then 0 else 1
    }

    constructor (garbage: bool, start: nat)
      requires start < I64
      ensures Valid() && phase == Fresh && now == start && issued == 0 && Books() == Ledger(None, []) && asyncer == null
    {
      used, done := false, garbage;
      handler, event, asyncer, posted := None, None, null, None;
      now, calls, issued, given, phase := start, [], 0, [], Fresh;
    }

    method AsyncWait(ms: Millis, h: Handler)
      requires Valid()
      modifies this, asyncer
      ensures Valid() && phase == Waited(old(phase), now, ms, h) && now == old(now) && issued > old(issued)
      ensures !old(used) ==> phase == Queued(now, ms)
      ensures old(used) && !Cancels(h) ==> phase == old(phase)
      ensures old(used) ==> asyncer == old(asyncer)
      ensures old(asyncer) == null ==> fresh(asyncer)
      ensures Pend() <= old(Pend())
      ensures Books() == if !old(used) then Ledger(Some(h), [h]) else Ran(Ledger(old(Books()).pend, old(given) + [h]), h, 0)
      decreases Pend(), Size(h), 3
    {
      if used {
        Refuse(h);
      } else {
        Start(ms, h);
      }
    }

    method Start(ms: Millis, h: Handler)
      requires Valid() && !used
      modifies this
      ensures Valid() && phase == Queued(now, ms) && now == old(now) && issued == 1 && fresh(asyncer)
      ensures Books() == Ledger(Some(h), [h])
      decreases Pend(), Size(h), 2
    {
      hide Served, Ran;
      used := true;
      done := false;
      CancelNow();
      Adopt(ms, h);
    }

    method Adopt(ms: Millis, h: Handler)
      requires Consistent(false) && used && asyncer == null
      modifies this
      ensures Valid() && phase == Queued(now, ms) && now == old(now) && issued == 1 && fresh(asyncer)
      ensures Books() == Ledger(Some(h), [h])
    {
      hide Served, Ran;
      ServedBegins(calls, TimerReused);
      handler := Some(h);
      var a := new Asyncers.Asyncer(false);
      var due := a.AsyncDo();
      asyncer, posted := a, Some(Posted(ms, h));
      issued, given, phase := 1, [h], Queued(now, ms);
    }

    method Refuse(h: Handler)
      requires Valid() && used
      modifies this, asyncer
      ensures Valid() && phase == (if Cancels(h) then Canceled(old(phase), now) else old(phase))
      ensures now == old(now) && issued > old(issued) && asyncer == old(asyncer)
      ensures Pend() <= old(Pend())
      ensures Books() == Ran(Ledger(old(Books()).pend, old(given) + [h]), h, 0)
      decreases Pend(), Size(h), 2
    {
      ServedNext(calls, issued, if phase.Over? then [phase.msg] else [], TimerReused);
      calls := calls + [Call(issued, TimerReused)];
      issued, given := issued + 1, given + [h];
      RunBody(h);
    }

    /** The operations that a handler makes while it is called. */
    method RunBody(h: Handler)
      requires Valid() && asyncer != null
      modifies this, asyncer
      ensures Valid() && phase == (if Cancels(h) then Canceled(old(phase), now) else old(phase))
      ensures now == old(now) && asyncer == old(asyncer) && issued >= old(issued)
      ensures Pend() <= old(Pend())
      ensures Books() == Ran(old(Books()), h, 0)
      decreases Pend(), Size(h), 1
    {
      for i := 0 to |h.body|
        invariant Valid() && asyncer == old(asyncer) && now == old(now) && issued >= old(issued)
        invariant phase == if CancelsBefore(h, i) then Canceled(old(phase), now) else old(phase)
        invariant Pend() <= old(Pend())
        invariant Ran(Books(), h, i) == Ran(old(Books()), h, 0)
      {
        PartSmaller(h, 0, i);
        match h.body[i] {
          case CancelAct => Cancel();
          case WaitAct(ms, h2) => AsyncWait(ms, h2);
        }
      }
    }

    method Cancel()
      requires Valid()
      modifies this, asyncer
      ensures Valid() && phase == Canceled(old(phase), now)
      ensures now == old(now) && asyncer == old(asyncer) && issued >= old(issued)
      ensures Pend() <= old(Pend())
      ensures Books() == PendRan(old(Books()))
      decreases Pend(), 0, 2
    {
      CancelNow();
    }

    /** `cancel`, which `AsyncWait` also calls on its way, when there is nothing to cancel yet. */
    method CancelNow()
      requires Consistent(phase.Queued?)
      modifies this, asyncer
      ensures Consistent(phase.Queued?) && phase == Canceled(old(phase), now)
      ensures now == old(now) && asyncer == old(asyncer) && issued >= old(issued)
      ensures old(asyncer) == null ==> unchanged(this)
      ensures Pend() <= old(Pend())
      ensures Books() == PendRan(old(Books()))
      decreases Pend(), 0, 1
    {
      if asyncer != null {
        var due := asyncer.Cancel();
        if due.Some? {
          AsyncerFailed(due.value.msg);
        }
      }
      if event == None {
        return;
      }
      event := Some(event.value.(readNotify := false));
      if !done && handler.Some? {
        done := true;
        HandlerCalled(TimerCanceled);
        RunBody(handler.value);
      }
    }

    /** The call of the stored handler is entered in the record. */
    method HandlerCalled(msg: Msg)
      requires Served(calls, issued, [], TimerReused) && (phase.Queued? || phase.Armed?)
      modifies `calls, `phase
      ensures phase == Over(old(phase.since), old(phase.ms), ArmedAt(old(phase)), msg, now)
      ensures Served(calls, issued, [msg], TimerReused)
    {
      ServedFirst(calls, issued, msg, TimerReused);
      calls := calls + [Call(0, msg)];
      phase := Over(phase.since, phase.ms, ArmedAt(phase), msg, now);
    }

    /** The lambda given to the asyncer, with an error. */
    method AsyncerFailed(errMsg: Msg)
      requires Consistent(false) && phase.Queued? && used
      modifies this, asyncer
      ensures Valid() && phase == Over(old(phase.since), old(phase.ms), None, errMsg, now)
      ensures now == old(now) && asyncer == old(asyncer) && issued >= old(issued)
      ensures Pend() == 0
      ensures Books() == PendRan(old(Books()))
      decreases Pend(), 0, 0
    {
      if !done {
        done := true;
        HandlerCalled(errMsg);
        RunBody(posted.value.handler);
      }
    }

    /** The loop runs the asyncer, if it is still registered. */
    method FireAsyncer()
      requires Valid()
      modifies this, asyncer
      ensures Valid() && phase == Fired(old(phase), now)
      ensures now == old(now) && issued >= old(issued) && asyncer == old(asyncer)
      ensures Books() == old(Books())
    {
      if asyncer == null {
        return;
      }
      var due := asyncer.Fire();
      if due.Some? {
        var deadline := Deadline(now, posted.value.ms);
        event := Some(TimerEvent(deadline, true));
        phase := Armed(phase.since, phase.ms, now, deadline);
      }
    }

    /** The loop polls the timers and runs the event if it is registered and due. */
    method Poll()
      requires Valid()
      modifies this, asyncer
      ensures Valid() && phase == Polled(old(phase), now)
      ensures now == old(now) && issued >= old(issued) && asyncer == old(asyncer)
      ensures Books() == if phase == old(phase) then old(Books()) else PendRan(old(Books()))
    {
      if event == None || !event.value.readNotify || !IsDue(event.value.deadline, now) {
        return;
      }
      event := Some(event.value.(readNotify := false));
      if !done {
        done := true;
        HandlerCalled(Success);
        RunBody(handler.value);
      }
    }

    method Tick(d: nat)
      requires Valid() && now + d < I64
      modifies `now
      ensures Valid() && now == old(now) + d
    {
      now := now + d;
    }

    /** `~Timer`, and then the destruction of its asyncer and its event: the lambda of the asyncer
        finds the timer gone and calls nothing. */
    method Destroy()
      requires Valid()
      modifies this, asyncer
      ensures Served(calls, issued, if phase.Over? then [phase.msg] else [], TimerReused)
      ensures phase == Destroyed(old(phase), now) && issued == old(issued) && now == old(now)
      ensures old(phase).Queued? || old(phase).Armed? ==> phase.Over? && phase.msg == TimerCanceled && phase.at == now
      ensures !Registered() && (asyncer != null ==> !asyncer.stage.Queued?)
      ensures given == old(given)
    {
      if !done && handler.Some? {
        HandlerCalled(TimerCanceled);
      }
      if asyncer != null {
        var due := asyncer.Destroy();
      }
      event := None;
    }

    method Perform(op: Op)
      requires Valid() && Clock(now, op) < I64
      modifies this, asyncer
      ensures Valid() && phase == After(old(phase), old(now), op) && now == Clock(old(now), op)
      ensures asyncer == old(asyncer) || (old(asyncer) == null && fresh(asyncer))
      ensures op.WaitOp? ==> issued > 0
      ensures issued >= old(issued)
      ensures Books() == LedgerAfter(old(phase), old(now), old(Books()), op)
    {
      match op {
        case WaitOp(ms, h) => AsyncWait(ms, h);
        case FireOp => FireAsyncer();
        case PollOp => Poll();
        case CancelOp => Cancel();
        case TickOp(d) => Tick(d);
      }
    }
  }

  /** Any life of a timer: operations in any order, handlers that cancel the timer and wait on it
      again, and the end. Every handler that was passed in has been called exactly once, the
      refused ones to say so; and the first one as the phases say. */
  method Lifetime(ops: seq<Op>, garbage: bool, start: nat) returns (calls: seq<Call>, issued: nat, ghost given: seq<Handler>, ghost end: Phase)
    requires AfterAll(Fresh, start, ops).1 < I64
    ensures end == Destroyed(AfterAll(Fresh, start, ops).0, AfterAll(Fresh, start, ops).1)
    ensures given == LedgerAll(start, ops).given && |given| == issued
    ensures issued > 0 <==> !end.Fresh?
    ensures end.Over? ==> CallsOf(calls, 0) == [end.msg]
    ensures forall t: nat :: 0 < t < issued ==> CallsOf(calls, t) == [TimerReused]
    ensures forall t: nat :: t >= issued ==> CallsOf(calls, t) == []
    ensures forall i | FirstWait(ops, i) && end.Over? && end.msg == Success :: InTime(start, ops, i, end.at)
  {
    ClockGrows(start, ops, |ops|);
    assert ops[..|ops|] == ops;
    var t := new Timer(garbage, start);
    for i := 0 to |ops|
      invariant t.Valid() && (t.phase, t.now) == AfterAll(Fresh, start, ops[..i])
      invariant t.Books() == LedgerAll(start, ops[..i])
      invariant fresh(t) && (t.asyncer != null ==> fresh(t.asyncer))
    {
      ClockGrows(start, ops, i + 1);
      assert ops[..i + 1][..i] == ops[..i];
      t.Perform(ops[i]);
    }
    forall i | FirstWait(ops, i) && t.phase.Over? && t.phase.msg == Success ensures InTime(start, ops, i, t.phase.at) {
      NeverEarly(ops, start, i);
    }
    t.Destroy();
    calls, issued, given, end := t.calls, t.issued, t.given, t.phase;
  }

  /** The time `at` is no earlier than the `i`-th operation, a wait, asked for, if the sum formed when the
      asyncer was run did not overflow. */
  ghost predicate InTime(start: nat, ops: seq<Op>, i: nat, at: nat)
    requires i < |ops| && ops[i].WaitOp?
  {
    exists j: nat :: FirstFire(ops, i, j) && TimeAfter(start, ops[..i]) <= TimeAfter(start, ops[..j]) <= at
      && (TimeAfter(start, ops[..j]) + ops[i].ms < I64 ==> at >= TimeAfter(start, ops[..i]) + ops[i].ms)
  }

  lemma {:induction false} ClockGrows(start: nat, ops: seq<Op>, k: nat)
    requires k <= |ops|
    ensures start <= AfterAll(Fresh, start, ops[..k]).1 <= AfterAll(Fresh, start, ops).1
    decreases |ops|
  {
    if k == |ops| {
      assert ops[..k] == ops;
      if ops != [] { ClockGrows(start, ops[..|ops| - 1], |ops| - 1); }
    } else {
      assert ops[..|ops| - 1][..k] == ops[..k];
      ClockGrows(start, ops[..|ops| - 1], k);
    }
  }

  /** The number of handlers in a handler, itself included. */
  ghost function Size(h: Handler): nat
    decreases h, |h.body| + 1
  {
    1 + SizeFrom(h, 0)
  }

  ghost function SizeFrom(h: Handler, i: nat): nat
    requires i <= |h.body|
    decreases h, |h.body| - i
  {
    if i == |h.body| then 0
    else (if h.body[i].CancelAct? then 0 else Size(h.body[i].h)) + SizeFrom(h, i + 1)
  }

  lemma {:induction false} PartSmaller(h: Handler, i: nat, k: nat)
    requires i <= k < |h.body|
    ensures h.body[k].WaitAct? ==> Size(h.body[k].h) <= SizeFrom(h, i)
    decreases k - i
  {
    if i < k { PartSmaller(h, i + 1, k); }
  }

  predicate CancelsBefore(h: Handler, n: nat)
    requires n <= |h.body|
  {
    exists i | 0 <= i < n :: h.body[i].CancelAct? || Cancels(h.body[i].h)
  }
}
