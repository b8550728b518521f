/** The life of a `Timer` as a small automaton; Timers.dfy proves that the class runs through it. */
module TimerPhases {
  import opened Options
  import opened Handlers

  const I64 := 0x8000_0000_0000_0000

  type Millis = x: nat | x < 0x1_0000_0000_0000_0000

  /** What a handler does when it is called: operations on the timer it belongs to. */
  datatype Act = CancelAct | WaitAct(ms: Millis, h: Handler)

  datatype Handler = Handler(body: seq<Act>)

  /** `since` is the time of the first `AsyncWait`, `fired` the time its asyncer was run
      (`armed`, if it was). */
  datatype Phase =
    | Fresh
    | Queued(since: nat, ms: Millis)
    | Armed(since: nat, ms: Millis, fired: nat, deadline: int)
    | Over(since: nat, ms: Millis, armed: Option<nat>, msg: Msg, at: nat)

  datatype Op = WaitOp(ms: Millis, h: Handler) | FireOp | PollOp | CancelOp | TickOp(d: nat)

  const U64 := 0x1_0000_0000_0000_0000

  /** The sum of two `uint64_t`, taken for an `int64_t`. */
  function Deadline(now: nat, ms: Millis): int {
    var sum := (now + ms) % U64;
    if sum < I64 then sum else sum - U64
  }

  /** A timer waits for its time exactly if the sum does not overflow; if it does overflow, the
      timer is due at once. */
  lemma DeadlineIsExact(now: nat, ms: Millis)
    requires now < I64
    ensures Deadline(now, ms) == now + ms <==> now + ms < I64
    ensures now + ms >= I64 ==> Deadline(now, ms) <= now
  {
    if now + ms >= U64 { assert (now + ms) % U64 == now + ms - U64; }
  }

  /** A timer armed at `now` can be found due too early exactly if its sum overflows. */
  lemma DueEarlyIffOverflow(now: nat, ms: Millis)
    requires now < I64
    ensures now + ms >= I64 <==> exists at: nat :: now <= at < now + ms && IsDue(Deadline(now, ms), at)
  {
    DeadlineIsExact(now, ms);
    if now + ms >= I64 {
      assert IsDue(Deadline(now, ms), now);
    }
  }

  predicate IsDue(deadline: int, now: nat) {
    deadline <= now
  }

  /** Calling the handler now would cancel its timer, maybe through a handler it passes on. */
  predicate Cancels(h: Handler) {
    exists i | 0 <= i < |h.body| :: h.body[i].CancelAct? || Cancels(h.body[i].h)
  }

  /** The handlers passed in so far, in order, and the one stored that is still to be called. */
  datatype Ledger = Ledger(pend: Option<Handler>, given: seq<Handler>)

  /** What the acts of a handler from the `i`-th on do: a handler passed in is refused and called at once,
      and a cancellation calls the stored one, each with all it does in turn. */
  function Ran(l: Ledger, h: Handler, i: nat): (r: Ledger)
    requires i <= |h.body|
    ensures r.pend.Some? ==> l.pend == r.pend
    decreases if l.pend.Some? then 1 else 0, h, |h.body| - i
  {
    if i == |h.body| then l
    else
      var m := match h.body[i]
        case CancelAct => if l.pend == None then l else Ran(Ledger(None, l.given), l.pend.value, 0)
        case WaitAct(_, h2) => Ran(Ledger(l.pend, l.given + [h2]), h2, 0);
      Ran(m, h, i + 1)
  }

  /** The stored handler is called. */
  function PendRan(l: Ledger): Ledger {
    if l.pend == None then l else Ran(Ledger(None, l.given), l.pend.value, 0)
  }

  function Canceled(p: Phase, now: nat): Phase {
    match p
    case Queued(since, ms) => Over(since, ms, None, AsyncerCanceled, now)
    case Armed(since, ms, fired, _) => Over(since, ms, Some(fired), TimerCanceled, now)
    case _ => p
  }

  /** Also what the handler of a second `AsyncWait` does to the timer when it is refused. */
  function Waited(p: Phase, now: nat, ms: Millis, h: Handler): Phase {
    if p.Fresh? then Queued(now, ms) else if Cancels(h) then Canceled(p, now) else p
  }

  function Fired(p: Phase, now: nat): Phase {
    if p.Queued? then Armed(p.since, p.ms, now, Deadline(now, p.ms)) else p
  }

  function Polled(p: Phase, now: nat): Phase {
    if p.Armed? && IsDue(p.deadline, now) then Over(p.since, p.ms, Some(p.fired), Success, now) else p
  }

  function ArmedAt(p: Phase): Option<nat> {
    if p.Armed? then Some(p.fired) else None
  }

  function Destroyed(p: Phase, now: nat): Phase {
    if p.Queued? || p.Armed? then Over(p.since, p.ms, ArmedAt(p), TimerCanceled, now) else p
  }

  function After(p: Phase, now: nat, op: Op): Phase {
    match op
    case WaitOp(ms, h) => Waited(p, now, ms, h)
    case FireOp => Fired(p, now)
    case PollOp => Polled(p, now)
    case CancelOp => Canceled(p, now)
    case TickOp(_) => p
  }

  function Clock(now: nat, op: Op): nat {
    if op.TickOp? then now + op.d else now
  }

  /** The phase and the time after a sequence of operations. */
  function AfterAll(p: Phase, now: nat, ops: seq<Op>): (Phase, nat) {
    if ops == [] then (p, now)
    else
      var (q, t) := AfterAll(p, now, ops[..|ops| - 1]);
      (After(q, t, ops[|ops| - 1]), Clock(t, ops[|ops| - 1]))
  }

  /** The ledger after an operation that finds the timer in phase `p`. */
  function LedgerAfter(p: Phase, now: nat, l: Ledger, op: Op): Ledger {
    match op
    case WaitOp(ms, h) => if p.Fresh? then Ledger(Some(h), [h]) else Ran(Ledger(l.pend, l.given + [h]), h, 0)
    case CancelOp => PendRan(l)
    case PollOp => if Polled(p, now) != p then PendRan(l) else l
    case _ => l
  }

  function LedgerAll(start: nat, ops: seq<Op>): Ledger {
    if ops == [] then Ledger(None, [])
    else
      var before := ops[..|ops| - 1];
      var (p, now) := AfterAll(Fresh, start, before);
      LedgerAfter(p, now, LedgerAll(start, before), ops[|ops| - 1])
  }

  ghost predicate Timely(p: Phase, now: nat) {
    match p
    case Fresh => true
    case Queued(since, ms) => since <= now
    case Armed(since, ms, fired, deadline) => since <= fired <= now && deadline == Deadline(fired, ms)
    case Over(since, ms, armed, msg, at) =>
      && since <= at <= now && (armed.Some? ==> since <= armed.value <= at)
      && (msg == Success ==> armed.Some? && IsDue(Deadline(armed.value, ms), at))
  }

  lemma {:induction false} TimelyAlways(ops: seq<Op>, start: nat)
    requires start < I64
    ensures var (p, now) := AfterAll(Fresh, start, ops); start <= now && Timely(p, now)
  {
    if ops != [] {
      TimelyAlways(ops[..|ops| - 1], start);
    }
  }

  // ----- the same, in the operations

  /** The time after a sequence of operations. */
  function TimeAfter(start: nat, ops: seq<Op>): nat {
    if ops == [] then start
    else TimeAfter(start, ops[..|ops| - 1]) + if ops[|ops| - 1].TickOp? then ops[|ops| - 1].d else 0
  }

  /** The `i`-th operation is the first `AsyncWait`. */
  ghost predicate FirstWait(ops: seq<Op>, i: nat) {
    i < |ops| && ops[i].WaitOp? && forall k | 0 <= k < i :: !ops[k].WaitOp?
  }

  /** The `j`-th operation is the first run of the asyncer after the `i`-th operation. */
  ghost predicate FirstFire(ops: seq<Op>, i: nat, j: nat) {
    i < j < |ops| && ops[j].FireOp? && forall k | i < k < j :: !ops[k].FireOp?
  }

  lemma {:induction false} TimeIs(start: nat, ops: seq<Op>)
    ensures AfterAll(Fresh, start, ops).1 == TimeAfter(start, ops)
    ensures (forall k | 0 <= k < |ops| :: !ops[k].WaitOp?) ==> AfterAll(Fresh, start, ops).0 == Fresh
  {
    if ops != [] { TimeIs(start, ops[..|ops| - 1]); }
  }

  /** The first `AsyncWait` starts the timer, at its time and for as long as it says; no other does. */
  lemma {:induction false} StartedByFirstWait(start: nat, ops: seq<Op>, i: nat)
    requires FirstWait(ops, i)
    ensures var p := AfterAll(Fresh, start, ops).0;
      !p.Fresh? && p.since == TimeAfter(start, ops[..i]) && p.ms == ops[i].ms
    decreases |ops|
  {
    var before := ops[..|ops| - 1];
    if i == |ops| - 1 {
      TimeIs(start, before);
    } else {
      assert before[..i] == ops[..i];
      StartedByFirstWait(start, before, i);
    }
  }

  function ArmedIn(p: Phase): Option<nat> {
    if p.Armed? then Some(p.fired) else if p.Over? then p.armed else None
  }

  /** The event of the timer is created by the first run of the asyncer after that, at its time. */
  lemma {:induction false} ArmedByFirstFire(start: nat, ops: seq<Op>, i: nat)
    requires FirstWait(ops, i)
    ensures var armed := ArmedIn(AfterAll(Fresh, start, ops).0);
      armed.Some? ==> exists j: nat :: FirstFire(ops, i, j) && armed.value == TimeAfter(start, ops[..j])
    ensures AfterAll(Fresh, start, ops).0.Queued? ==> forall k | i < k < |ops| :: !ops[k].FireOp?
    decreases |ops|
  {
    var before := ops[..|ops| - 1];
    if i < |ops| - 1 {
      ArmedByFirstFire(start, before, i);
      StartedByFirstWait(start, before, i);
      TimeIs(start, before);
      var was, armed := ArmedIn(AfterAll(Fresh, start, before).0), ArmedIn(AfterAll(Fresh, start, ops).0);
      if was.Some? {
        var j: nat :| FirstFire(before, i, j) && was.value == TimeAfter(start, before[..j]);
        assert before[..j] == ops[..j] && FirstFire(ops, i, j);
      } else if armed.Some? {
        assert FirstFire(ops, i, |ops| - 1);
      }
    } else {
      TimeIs(start, before);
    }
  }

  /** Success is reported no earlier than the first `AsyncWait` asked for, whenever the sum that was formed
      when its asyncer was run did not overflow. */
  lemma NeverEarly(ops: seq<Op>, start: nat, i: nat)
    requires start < I64 && FirstWait(ops, i)
    ensures var p := AfterAll(Fresh, start, ops).0; var wait := TimeAfter(start, ops[..i]);
      p.Over? && p.msg == Success ==>
        exists j: nat :: FirstFire(ops, i, j) && wait <= TimeAfter(start, ops[..j]) <= p.at <= TimeAfter(start, ops)
          && (TimeAfter(start, ops[..j]) + ops[i].ms < I64 ==> p.at >= TimeAfter(start, ops[..j]) + ops[i].ms >= wait + ops[i].ms)
  {
    TimelyAlways(ops, start);
    TimeIs(start, ops);
    StartedByFirstWait(start, ops, i);
    ArmedByFirstFire(start, ops, i);
    var p := AfterAll(Fresh, start, ops).0;
    if p.Over? && p.msg == Success {
      var j: nat :| FirstFire(ops, i, j) && p.armed.value == TimeAfter(start, ops[..j]);
      if p.armed.value < I64 { DeadlineIsExact(p.armed.value, p.ms); }
    }
  }

  /** The operation does not cancel the timer. */
  predicate Calm(op: Op) {
    !op.CancelOp? && (op.WaitOp? ==> !Cancels(op.h))
  }

  lemma {:induction false} StaysQueued(start: nat, a: seq<Op>, b: seq<Op>)
    requires AfterAll(Fresh, start, a).0.Queued?
    requires forall k | 0 <= k < |b| :: Calm(b[k]) && !b[k].FireOp?
    ensures AfterAll(Fresh, start, a + b).0 == AfterAll(Fresh, start, a).0
    decreases |b|
  {
    if b == [] {
      assert a + b == a;
    } else {
      assert (a + b)[..|a + b| - 1] == a + b[..|b| - 1];
      StaysQueued(start, a, b[..|b| - 1]);
    }
  }

  lemma {:induction false} TimeGrows(start: nat, a: seq<Op>, b: seq<Op>)
    ensures start <= TimeAfter(start, a) <= TimeAfter(start, a + b)
    decreases |a| + |b|
  {
    if b != [] {
      assert (a + b)[..|a + b| - 1] == a + b[..|b| - 1];
      TimeGrows(start, a, b[..|b| - 1]);
    } else {
      assert a + b == a;
      if a != [] {
        assert a[..|a| - 1] + [] == a[..|a| - 1];
        TimeGrows(start, a[..|a| - 1], []);
      }
    }
  }

  /** While nobody cancels, an armed timer stays armed until a poll finds it due. */
  lemma {:induction false} ArmedUntilDue(start: nat, a: seq<Op>, c: seq<Op>)
    requires AfterAll(Fresh, start, a).0.Armed? && forall k | 0 <= k < |c| :: Calm(c[k])
    ensures var p, q, end := AfterAll(Fresh, start, a).0, AfterAll(Fresh, start, a + c).0, TimeAfter(start, a + c);
      && (q == p || (q.Over? && q.msg == Success && q.since == p.since && q.ms == p.ms && q.armed == Some(p.fired)))
      && (q != p ==> IsDue(p.deadline, end))
      && (c != [] && c[|c| - 1].PollOp? && IsDue(p.deadline, end) ==> q != p)
    decreases |c|
  {
    if c == [] {
      assert a + c == a;
    } else {
      var d := c[..|c| - 1];
      assert (a + c)[..|a + c| - 1] == a + d;
      ArmedUntilDue(start, a, d);
      TimeIs(start, a + d);
    }
  }

  /**
   A timer that nobody cancels succeeds when it is due: after the first `AsyncWait`, the first run of the
   asyncer and a poll, it is over exactly if the time asked for has gone by since the asyncer was run, as
   long as the sum does not overflow; if it does, it is over at once.
   */
  lemma SucceedsWhenDue(start: nat, a: seq<Op>, ms: Millis, h: Handler, b: seq<Op>, c: seq<Op>)
    requires forall k | 0 <= k < |a| :: !a[k].WaitOp?
    requires (forall k | 0 <= k < |b| :: Calm(b[k]) && !b[k].FireOp?) && forall k | 0 <= k < |c| :: Calm(c[k])
    requires TimeAfter(start, a + [WaitOp(ms, h)] + b) < I64
    ensures var toFire := a + [WaitOp(ms, h)] + b; var ops := toFire + [FireOp] + (c + [PollOp]);
      var p, fired := AfterAll(Fresh, start, ops).0, TimeAfter(start, toFire);
      && (p.Armed? || (p.Over? && p.msg == Success && p.armed == Some(fired)))
      && (p.Over? <==> fired + ms <= TimeAfter(start, ops) || fired + ms >= I64)
  {
    hide Calm, Deadline;
    QueuedAt(start, a, ms, h);
    StaysQueued(start, a + [WaitOp(ms, h)], b);
    var toFire := a + [WaitOp(ms, h)] + b;
    var fired := TimeAfter(start, toFire);
    ArmedAtFire(start, toFire, ms);
    CalmPoll();
    ArmedUntilDue(start, toFire + [FireOp], c + [PollOp]);
    TimeGrows(start, toFire + [FireOp], c + [PollOp]);
    DeadlineIsExact(fired, ms);
  }

  lemma CalmPoll()
    ensures Calm(PollOp)
  {
  }

  lemma QueuedAt(start: nat, a: seq<Op>, ms: Millis, h: Handler)
    requires forall k | 0 <= k < |a| :: !a[k].WaitOp?
    ensures AfterAll(Fresh, start, a + [WaitOp(ms, h)]).0 == Queued(TimeAfter(start, a), ms)
  {
    assert (a + [WaitOp(ms, h)])[..|a|] == a;
    TimeIs(start, a);
  }

  lemma ArmedAtFire(start: nat, ops: seq<Op>, ms: Millis)
    requires AfterAll(Fresh, start, ops).0.Queued? && AfterAll(Fresh, start, ops).0.ms == ms
    ensures var p, t := AfterAll(Fresh, start, ops + [FireOp]).0, TimeAfter(start, ops);
      p == Armed(AfterAll(Fresh, start, ops).0.since, ms, t, Deadline(t, ms)) && TimeAfter(start, ops + [FireOp]) == t
  {
    assert (ops + [FireOp])[..|ops|] == ops;
    TimeIs(start, ops);
  }

  /** A cancellation before the asyncer has run, or after that and before a poll finds the timer due, ends
      it at once, with the message of its stage. */
  lemma CanceledInTime(start: nat, a: seq<Op>, ms: Millis, h: Handler, b: seq<Op>, c: seq<Op>)
    requires forall k | 0 <= k < |a| :: !a[k].WaitOp?
    requires (forall k | 0 <= k < |b| :: Calm(b[k]) && !b[k].FireOp?) && forall k | 0 <= k < |c| :: Calm(c[k])
    ensures var toFire := a + [WaitOp(ms, h)] + b;
      AfterAll(Fresh, start, toFire + [CancelOp]).0 == Over(TimeAfter(start, a), ms, None, AsyncerCanceled, TimeAfter(start, toFire))
    ensures var toFire := a + [WaitOp(ms, h)] + b; var ops := toFire + [FireOp] + c;
      TimeAfter(start, toFire) + ms < I64 && TimeAfter(start, ops) < TimeAfter(start, toFire) + ms ==>
        AfterAll(Fresh, start, ops + [CancelOp]).0 ==
          Over(TimeAfter(start, a), ms, Some(TimeAfter(start, toFire)), TimerCanceled, TimeAfter(start, ops))
  {
    hide Calm, Deadline;
    QueuedAt(start, a, ms, h);
    StaysQueued(start, a + [WaitOp(ms, h)], b);
    var toFire := a + [WaitOp(ms, h)] + b;
    CanceledNow(start, toFire);
    ArmedAtFire(start, toFire, ms);
    ArmedUntilDue(start, toFire + [FireOp], c);
    if TimeAfter(start, toFire) < I64 { DeadlineIsExact(TimeAfter(start, toFire), ms); }
    CanceledNow(start, toFire + [FireOp] + c);
  }

  lemma CanceledNow(start: nat, ops: seq<Op>)
    ensures AfterAll(Fresh, start, ops + [CancelOp]).0 == Canceled(AfterAll(Fresh, start, ops).0, TimeAfter(start, ops))
  {
    assert (ops + [CancelOp])[..|ops|] == ops;
    TimeIs(start, ops);
  }

  lemma {:induction false} RefusedLedger(l: Ledger, e: Handler, m: Millis)
    requires e == Handler([WaitAct(m, Handler([]))])
    ensures Ran(Ledger(l.pend, l.given + [e]), e, 0) == Ledger(l.pend, l.given + [e, Handler([])])
  {
    var a := Ledger(l.pend, l.given + [e]);
    var b := Ledger(l.pend, l.given + [e] + [Handler([])]);
    assert Ran(b, Handler([]), 0) == b && Ran(b, e, 1) == b;
    assert e.body[0] == WaitAct(m, Handler([]));
    assert Ran(a, e, 0) == Ran(Ran(b, Handler([]), 0), e, 1);
    assert l.given + [e] + [Handler([])] == l.given + [e, Handler([])];
  }

  /** A second handler is refused, and its operations take effect: a cancellation, also of a handler that it
      passes in itself, ends the timer, and such a handler counts among those passed in. */
  lemma {:induction false} RefusedHandlerActs(p: Phase, now: nat, ms: Millis, m: Millis, l: Ledger)
    requires !p.Fresh?
    ensures var h := Handler([WaitAct(m, Handler([CancelAct]))]);
      && After(p, now, WaitOp(ms, h)) == After(p, now, WaitOp(ms, Handler([CancelAct]))) == After(p, now, CancelOp)
      && (p.Queued? ==> After(p, now, WaitOp(ms, h)) == Over(p.since, p.ms, None, AsyncerCanceled, now))
      && (p.Armed? ==> After(p, now, WaitOp(ms, h)) == Over(p.since, p.ms, Some(p.fired), TimerCanceled, now))
      && After(p, now, WaitOp(ms, Handler([WaitAct(m, Handler([]))]))) == p
    ensures var h := Handler([WaitAct(m, Handler([]))]);
      LedgerAfter(p, now, l, WaitOp(ms, h)) == Ledger(l.pend, l.given + [h, Handler([])])
  {
    var c := Handler([CancelAct]);
    var h, e := Handler([WaitAct(m, c)]), Handler([WaitAct(m, Handler([]))]);
    assert c.body[0].CancelAct? && Cancels(c);
    assert h.body[0].h == c && Cancels(h);
    assert !Cancels(Handler([])) && !Cancels(e);
    RefusedLedger(l, e, m);
  }

  /** A wait of 2^63 milliseconds is reported as over by the next poll. */
  lemma LongWaitEndsAtOnce(start: nat, h: Handler)
    requires start < I64
    ensures AfterAll(Fresh, start, [WaitOp(I64, h), FireOp, PollOp]).0 == Over(start, I64, Some(start), Success, start)
  {
    var ops := [WaitOp(I64, h), FireOp, PollOp];
    assert ops[..3] == ops;
    assert ops[..2] == [WaitOp(I64, h), FireOp] && ops[..2][..1] == [WaitOp(I64, h)] && ops[..2][..1][..0] == [];
    DeadlineIsExact(start, I64);
    assert AfterAll(Fresh, start, ops[..2][..1][..0]) == (Fresh, start);
    assert AfterAll(Fresh, start, ops[..2][..1]) == (Queued(start, I64), start);
    assert AfterAll(Fresh, start, ops[..2]) == (Armed(start, I64, start, Deadline(start, I64)), start);
  }
}
