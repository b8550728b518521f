/** `FlowService::Run`: a chain of steps ("ploys") that may suspend the flow and be resumed, by a
    later `Run` or by one from within a step. */
module Flows {

  /** What a step does with the flow: it sets an error, it sets `suspend`, or it calls `Run` itself,
      because what it waited for has happened already. */
  datatype Act = SetErr | SetSuspend | CallRun

  type Ploy = seq<Act>

  /** The flow context (`err`: its message is not empty), how often the event has been finished,
      which steps have run, and how many calls of `Run` are owed for suspensions. */
  datatype Ctx = Ctx(err: bool, nextIndex: nat, suspend: bool, finishes: nat, executed: seq<nat>, owed: nat)

  const Start := Ctx(false, 0, false, 0, [], 0)

  /** The step leaves its resumption to others: if it suspends, one more `Run` comes later. */
  predicate Plain(w: Ploy) {
    CallRun !in w
  }

  function Owes(w: Ploy): nat {
    if Plain(w) && SetSuspend in w then 1 else 0
  }

  // ----- the specification of Run

  function AfterRun(ps: seq<Ploy>, c: Ctx): (r: Ctx)
    requires c.nextIndex <= |ps|
    ensures c.nextIndex <= r.nextIndex <= |ps|
    decreases |ps| - c.nextIndex, 1
  {
    var d := c.(suspend := false);
    if d.err then d.(finishes := d.finishes + 1) else AfterLoop(ps, d, d.nextIndex)
  }

  function AfterLoop(ps: seq<Ploy>, c: Ctx, i: nat): (r: Ctx)
    requires i <= c.nextIndex <= |ps|
    ensures i <= r.nextIndex <= |ps| && (i < |ps| ==> i < r.nextIndex)
    decreases |ps| - i, 0
  {
    if i == |ps| then c.(finishes := c.finishes + 1)
    else
      var d := AfterStep(ps, Entered(c, i), ps[i]);
      if d.err then d.(finishes := d.finishes + 1)
      else if d.suspend then d
      else AfterLoop(ps, d, i + 1)
  }

  function Entered(c: Ctx, i: nat): Ctx {
    c.(nextIndex := i + 1, executed := c.executed + [i])
  }

  function AfterStep(ps: seq<Ploy>, c: Ctx, w: Ploy): (r: Ctx)
    requires c.nextIndex <= |ps|
    ensures c.nextIndex <= r.nextIndex <= |ps|
    decreases |ps| - c.nextIndex, 3
  {
    var d := AfterActs(ps, c, w);
    d.(owed := d.owed + Owes(w))
  }

  function AfterActs(ps: seq<Ploy>, c: Ctx, acts: seq<Act>): (r: Ctx)
    requires c.nextIndex <= |ps|
    ensures c.nextIndex <= r.nextIndex <= |ps|
    decreases |ps| - c.nextIndex, 2, |acts|
  {
    if acts == [] then c
    else
      var d := match acts[0]
        case SetErr => c.(err := true)
        case SetSuspend => c.(suspend := true)
        case CallRun => AfterRun(ps, c);
      AfterActs(ps, d, acts[1..])
  }

  // ----- every Run counts: it finishes the event, or leaves a Run owed that will

  function Weight(c: Ctx): nat {
    c.finishes + c.owed
  }

  function Calls(w: Ploy): nat {
    if w == [] then 0 else (if w[0].CallRun? then 1 else 0) + Calls(w[1..])
  }

  lemma {:induction false} RunWeighs(ps: seq<Ploy>, c: Ctx)
    requires c.nextIndex <= |ps|
    ensures Weight(AfterRun(ps, c)) > Weight(c) && (c.err ==> AfterRun(ps, c).err)
    decreases |ps| - c.nextIndex, 1
  {
    if !c.err {
      LoopWeighs(ps, c.(suspend := false), c.nextIndex);
    }
  }

  lemma {:induction false} LoopWeighs(ps: seq<Ploy>, c: Ctx, i: nat)
    requires i <= c.nextIndex <= |ps| && !c.err && !c.suspend
    ensures Weight(AfterLoop(ps, c, i)) > Weight(c)
    decreases |ps| - i, 0
  {
    if i < |ps| {
      var b := Entered(c, i);
      var d := AfterStep(ps, b, ps[i]);
      ActsWeigh(ps, b, ps[i]);
      if Plain(ps[i]) { PlainActs(ps, b, ps[i]); } else { PlainIffNoCalls(ps[i]); }
      if !d.err && !d.suspend { LoopWeighs(ps, d, i + 1); }
    }
  }

  lemma {:induction false} ActsWeigh(ps: seq<Ploy>, c: Ctx, acts: seq<Act>)
    requires c.nextIndex <= |ps|
    ensures Weight(AfterActs(ps, c, acts)) >= Weight(c) + Calls(acts)
    ensures c.err || SetErr in acts ==> AfterActs(ps, c, acts).err
    decreases |ps| - c.nextIndex, 2, |acts|
  {
    if acts != [] {
      if acts[0].CallRun? { RunWeighs(ps, c); }
      var d := match acts[0] case SetErr => c.(err := true) case SetSuspend => c.(suspend := true) case CallRun => AfterRun(ps, c);
      ActsWeigh(ps, d, acts[1..]);
    }
  }

  lemma {:induction false} PlainIffNoCalls(w: Ploy)
    ensures Plain(w) <==> Calls(w) == 0
  {
    if w != [] {
      PlainIffNoCalls(w[1..]);
      assert CallRun in w <==> w[0] == CallRun || CallRun in w[1..];
    }
  }

  lemma {:induction false} PlainActs(ps: seq<Ploy>, c: Ctx, acts: seq<Act>)
    requires c.nextIndex <= |ps| && CallRun !in acts
    ensures AfterActs(ps, c, acts) == c.(err := c.err || SetErr in acts, suspend := c.suspend || SetSuspend in acts)
    decreases |acts|
  {
    if acts != [] {
      var d := match acts[0] case SetErr => c.(err := true) case SetSuspend => c.(suspend := true) case CallRun => c;
      PlainActs(ps, d, acts[1..]);
      assert acts == [acts[0]] + acts[1..];
    }
  }

  // ----- steps that call Run

  /** The step calls `Run` once and sets no error. */
  predicate Tidy(w: Ploy) {
    Calls(w) == 1 && SetErr !in w
  }

  /** It suspends after it has called `Run`. */
  predicate Late(w: Ploy) {
    w != [] && if w[0].CallRun? then SetSuspend in w[1..] else Late(w[1..])
  }

  lemma {:induction false} TidyActs(ps: seq<Ploy>, c: Ctx, acts: seq<Act>)
    requires c.nextIndex <= |ps| && !c.err && Tidy(acts)
    ensures var r := AfterRun(ps, c);
      AfterActs(ps, c, acts) == r.(suspend := r.suspend || Late(acts))
    decreases |acts|
  {
    assert acts == [acts[0]] + acts[1..];
    if acts[0].CallRun? {
      PlainIffNoCalls(acts[1..]);
      PlainActs(ps, AfterRun(ps, c), acts[1..]);
    } else {
      TidyActs(ps, c.(suspend := true), acts[1..]);
      assert c.(suspend := true).(suspend := false) == c.(suspend := false);
    }
  }

  // ----- what one Run comes to

  /** Where a run from step `i` stops: at the first step that leaves its resumption to others, or
      fails, without calling `Run`. */
  function Stop(ps: seq<Ploy>, i: nat): (s: nat)
    requires i <= |ps|
    ensures i <= s <= |ps| && (s < |ps| ==> Plain(ps[s]) && (SetErr in ps[s] || SetSuspend in ps[s]))
    decreases |ps| - i
  {
    if i == |ps| || (Plain(ps[i]) && (SetErr in ps[i] || SetSuspend in ps[i])) then i else Stop(ps, i + 1)
  }

  predicate Fails(ps: seq<Ploy>, i: nat)
    requires i <= |ps|
  {
    Stop(ps, i) < |ps| && SetErr in ps[Stop(ps, i)]
  }

  predicate Parks(ps: seq<Ploy>, i: nat)
    requires i <= |ps|
  {
    Stop(ps, i) < |ps| && SetErr !in ps[Stop(ps, i)]
  }

  /** A `Run` from step `i` leaves the flow suspended. */
  predicate Leaves(ps: seq<Ploy>, i: nat)
    requires i <= |ps|
    decreases |ps| - i
  {
    if i == Stop(ps, i) then Parks(ps, i) else Late(ps[i]) || Leaves(ps, i + 1)
  }

  /** Up to where the run stops: the step that fails there does not suspend too, and each step that
      calls `Run` does so once, sets no error, no step after it fails, and it suspends afterwards
      or the run within it leaves the flow suspended. */
  predicate Good(ps: seq<Ploy>, i: nat)
    requires i <= |ps|
    decreases |ps| - i
  {
    if i == Stop(ps, i) then i < |ps| ==> !(SetErr in ps[i] && SetSuspend in ps[i])
    else Good(ps, i + 1) && (Plain(ps[i]) || (Tidy(ps[i]) && !Fails(ps, i) && (Late(ps[i]) || Leaves(ps, i + 1))))
  }

  function Range(a: nat, b: nat): seq<nat>
    decreases b - a
  {
    if a >= b then [] else [a] + Range(a + 1, b)
  }

  /** What a good run from step `i` comes to. */
  ghost predicate Outcome(ps: seq<Ploy>, c: Ctx, i: nat, d: Ctx)
    requires i <= |ps|
  {
    var s := Stop(ps, i);
    if s == |ps| then
      && !d.err && d.owed == c.owed && d.suspend == Leaves(ps, i)
      && d.finishes == c.finishes + 1 && d.executed == c.executed + Range(i, |ps|)
    else if Parks(ps, i) then
      d == Ctx(false, s + 1, true, c.finishes, c.executed + Range(i, s + 1), c.owed + 1)
    else
      d.err && d.owed == c.owed && d.finishes == c.finishes + 1 && d.executed == c.executed + Range(i, s + 1)
  }

  lemma RangeStep(c: Ctx, i: nat, b: nat)
    requires i < b
    ensures Entered(c, i).executed + Range(i + 1, b) == c.executed + Range(i, b)
  {
  }

  /** The loop stops at step `i`. */
  lemma StopOutcome(ps: seq<Ploy>, c: Ctx, i: nat)
    requires i <= c.nextIndex <= |ps| && !c.err && !c.suspend && i == Stop(ps, i)
    ensures var d := AfterLoop(ps, c, i);
      && (Weight(d) == Weight(c) + 1 <==> Good(ps, i))
      && (Good(ps, i) ==> Outcome(ps, c, i, d))
  {
    if i < |ps| {
      PlainActs(ps, Entered(c, i), ps[i]);
      assert Range(i, i + 1) == [i] + Range(i + 1, i + 1);
    } else {
      assert c.executed + Range(i, i) == c.executed;
    }
  }

  /** Step `i` runs the flow within itself: the loop afterwards. */
  lemma TidyStep(ps: seq<Ploy>, c: Ctx, i: nat)
    requires i < |ps| && i <= c.nextIndex <= |ps| && !c.err && !c.suspend && Tidy(ps[i])
    ensures var d := AfterLoop(ps, Entered(c, i), i + 1);
      AfterLoop(ps, c, i) ==
        if d.err then d.(suspend := d.suspend || Late(ps[i]), finishes := d.finishes + 1)
        else if d.suspend || Late(ps[i]) then d.(suspend := true)
        else AfterLoop(ps, d, i + 1)
  {
    TidyActs(ps, Entered(c, i), ps[i]);
    PlainIffNoCalls(ps[i]);
    assert Entered(c, i).(suspend := false) == Entered(c, i);
  }

  /** A step that calls `Run` more than once, or calls it and sets an error, in any order. */
  lemma UntidyStep(ps: seq<Ploy>, c: Ctx, i: nat)
    requires i < |ps| && i <= c.nextIndex <= |ps| && !c.err && !c.suspend && !Plain(ps[i]) && !Tidy(ps[i])
    ensures Weight(AfterLoop(ps, c, i)) > Weight(c) + 1
  {
    var d := AfterStep(ps, Entered(c, i), ps[i]);
    ActsWeigh(ps, Entered(c, i), ps[i]);
    PlainIffNoCalls(ps[i]);
    if !d.err && !d.suspend { LoopWeighs(ps, d, i + 1); }
  }

  lemma {:induction false} ParkingLeaves(ps: seq<Ploy>, i: nat)
    requires i <= |ps| && Parks(ps, i)
    ensures Leaves(ps, i)
    decreases |ps| - i
  {
    if i < Stop(ps, i) { ParkingLeaves(ps, i + 1); }
  }

  lemma NestedOutcome(ps: seq<Ploy>, c: Ctx, i: nat)
    requires i < |ps| && i <= c.nextIndex <= |ps| && !c.err && !c.suspend && Tidy(ps[i]) && i < Stop(ps, i)
    requires var b, d := Entered(c, i), AfterLoop(ps, Entered(c, i), i + 1);
      && (Weight(d) == Weight(b) + 1 <==> Good(ps, i + 1))
      && (Good(ps, i + 1) ==> Outcome(ps, b, i + 1, d))
    ensures var d := AfterLoop(ps, c, i);
      && (Weight(d) == Weight(c) + 1 <==> Good(ps, i))
      && (Good(ps, i) ==> Outcome(ps, c, i, d))
  {
    var d := AfterLoop(ps, Entered(c, i), i + 1);
    TidyStep(ps, c, i);
    LoopWeighs(ps, Entered(c, i), i + 1);
    if !d.err && !d.suspend { LoopWeighs(ps, d, i + 1); }
    RangeStep(c, i, |ps|);
    RangeStep(c, i, Stop(ps, i) + 1);
    assert Stop(ps, i) == Stop(ps, i + 1);
    PlainIffNoCalls(ps[i]);
    if Parks(ps, i + 1) { ParkingLeaves(ps, i + 1); }
    hide AfterLoop, Range, Tidy, Late, Stop;
  }

  /** What the loop comes to from step `i`: it finishes the event once, or leaves one `Run` owed, and
      not more, exactly for good steps. */
  lemma {:induction false} LoopOutcome(ps: seq<Ploy>, c: Ctx, i: nat)
    requires i <= c.nextIndex <= |ps| && !c.err && !c.suspend
    ensures var d := AfterLoop(ps, c, i);
      && (Weight(d) == Weight(c) + 1 <==> Good(ps, i))
      && (Good(ps, i) ==> Outcome(ps, c, i, d))
    decreases |ps| - i
  {
    if i == Stop(ps, i) {
      StopOutcome(ps, c, i);
    } else {
      LoopOutcome(ps, Entered(c, i), i + 1);
      if Tidy(ps[i]) {
        NestedOutcome(ps, c, i);
      } else if Plain(ps[i]) {
        PassOutcome(ps, c, i);
      } else {
        UntidyStep(ps, c, i);
      }
    }
  }

  lemma PassOutcome(ps: seq<Ploy>, c: Ctx, i: nat)
    requires i < |ps| && i <= c.nextIndex <= |ps| && !c.err && !c.suspend && Plain(ps[i]) && i < Stop(ps, i)
    requires var b, d := Entered(c, i), AfterLoop(ps, Entered(c, i), i + 1);
      && (Weight(d) == Weight(b) + 1 <==> Good(ps, i + 1))
      && (Good(ps, i + 1) ==> Outcome(ps, b, i + 1, d))
    ensures var d := AfterLoop(ps, c, i);
      && (Weight(d) == Weight(c) + 1 <==> Good(ps, i))
      && (Good(ps, i) ==> Outcome(ps, c, i, d))
  {
    PlainActs(ps, Entered(c, i), ps[i]);
    assert AfterLoop(ps, c, i) == AfterLoop(ps, Entered(c, i), i + 1);
    RangeStep(c, i, |ps|);
    RangeStep(c, i, Stop(ps, i) + 1);
    assert Stop(ps, i) == Stop(ps, i + 1);
    NotLate(ps[i]);
    hide AfterLoop, Range, Late;
  }

  lemma {:induction false} NotLate(w: Ploy)
    requires Plain(w)
    ensures !Late(w)
  {
    if w != [] { NotLate(w[1..]); }
  }

  lemma RunOutcome(ps: seq<Ploy>, c: Ctx)
    requires c.nextIndex <= |ps|
    ensures var d := AfterRun(ps, c);
      if c.err then d == c.(suspend := false, finishes := c.finishes + 1)
      else
        && (Weight(d) == Weight(c) + 1 <==> Good(ps, c.nextIndex))
        && (Good(ps, c.nextIndex) ==> Outcome(ps, c, c.nextIndex, d))
  {
    if !c.err {
      LoopOutcome(ps, c.(suspend := false), c.nextIndex);
    }
  }

  // ----- the whole flow

  /** A `Run` that is owed brings the flow further, or no new `Run` is owed for it. */
  lemma RunProgress(ps: seq<Ploy>, c: Ctx)
    requires c.nextIndex <= |ps|
    ensures var d := AfterRun(ps, c);
      if c.err || c.nextIndex == |ps| then d.err == c.err && d.owed == c.owed && d.nextIndex == c.nextIndex
      else d.nextIndex > c.nextIndex
  {
  }

  function Left(ps: seq<Ploy>, c: Ctx): nat
    requires c.nextIndex <= |ps|
  {
    if c.err then 0 else |ps| - c.nextIndex
  }

  /** Every call of `Run` that is owed, one after the other. */
  function Complete(ps: seq<Ploy>, c: Ctx): Ctx
    requires c.nextIndex <= |ps|
    decreases Left(ps, c), c.owed
  {
    if c.owed == 0 then c
    else
      var b := c.(owed := c.owed - 1);
      RunProgress(ps, b);
      Complete(ps, AfterRun(ps, b))
  }

  /** The whole life of a flow: one first `Run`, and one for each suspension. */
  function Flow(ps: seq<Ploy>): Ctx {
    Complete(ps, Start.(owed := 1))
  }

  /** From one suspension to the next the run is good, up to the end or the first failing step. */
  predicate Once(ps: seq<Ploy>, i: nat)
    requires i <= |ps|
    decreases |ps| - i
  {
    Good(ps, i) && (Parks(ps, i) ==> Once(ps, Stop(ps, i) + 1))
  }

  /** One more than the index of the first step that fails, or else the number of steps. */
  function Length(ps: seq<Ploy>, i: nat): nat
    requires i <= |ps|
    decreases |ps| - i
  {
    if i == |ps| then i else if SetErr in ps[i] then i + 1 else Length(ps, i + 1)
  }

  lemma {:induction false} LengthFromStop(ps: seq<Ploy>, i: nat)
    requires i <= |ps| && Good(ps, i)
    ensures var s := Stop(ps, i);
      Length(ps, i) == if s == |ps| then s else if Parks(ps, i) then Length(ps, s + 1) else s + 1
    decreases |ps| - i
  {
    if i < Stop(ps, i) { LengthFromStop(ps, i + 1); }
  }

  lemma {:induction false} RangeJoin(a: nat, b: nat, c: nat)
    requires a <= b <= c
    ensures Range(a, b) + Range(b, c) == Range(a, c)
    decreases b - a
  {
    if a < b { RangeJoin(a + 1, b, c); }
  }

  lemma {:induction false} CompleteWeighs(ps: seq<Ploy>, c: Ctx)
    requires c.nextIndex <= |ps|
    ensures Complete(ps, c).finishes >= Weight(c)
    decreases Left(ps, c), c.owed
  {
    if c.owed > 0 {
      var b := c.(owed := c.owed - 1);
      RunProgress(ps, b);
      RunWeighs(ps, b);
      CompleteWeighs(ps, AfterRun(ps, b));
    }
  }

  lemma {:induction false} CompleteOutcome(ps: seq<Ploy>, c: Ctx)
    requires c.nextIndex <= |ps| && !c.err && c.owed == 1 && c.finishes == 0 && c.executed == Range(0, c.nextIndex)
    ensures Complete(ps, c).finishes == 1 <==> Once(ps, c.nextIndex)
    ensures Once(ps, c.nextIndex) ==> Complete(ps, c).executed == Range(0, Length(ps, c.nextIndex))
    decreases |ps| - c.nextIndex
  {
    var i := c.nextIndex;
    var b := c.(owed := 0);
    var d := AfterRun(ps, b);
    RunOutcome(ps, b);
    RunWeighs(ps, b);
    CompleteWeighs(ps, d);
    hide AfterRun, Stop, Range;
    if Good(ps, i) {
      LengthFromStop(ps, i);
      if Stop(ps, i) == |ps| {
        RangeJoin(0, i, |ps|);
      } else {
        RangeJoin(0, i, Stop(ps, i) + 1);
        if Parks(ps, i) { CompleteOutcome(ps, d); }
      }
    }
  }

  /** The event is finished at least once, and exactly once if and only if the steps meet `Once`; then
      each step up to the first failing one, or else each step, has run exactly once, in order. */
  lemma FinishedOnce(ps: seq<Ploy>)
    ensures Flow(ps).finishes >= 1
    ensures Flow(ps).finishes == 1 <==> Once(ps, 0)
    ensures Once(ps, 0) ==> Flow(ps).executed == Range(0, Length(ps, 0))
  {
    CompleteWeighs(ps, Start.(owed := 1));
    CompleteOutcome(ps, Start.(owed := 1));
  }

  /** Flows in which no step fails are finished once wherever they are resumed, as long as a step that
      is resumed within itself calls `Run` once, before it suspends. */
  lemma {:induction false} OnceWithoutErrors(ps: seq<Ploy>, i: nat)
    requires i <= |ps| && forall k | i <= k < |ps| :: SetErr !in ps[k] && (Plain(ps[k]) || (Tidy(ps[k]) && Late(ps[k])))
    ensures Once(ps, i) && Good(ps, i) && !Fails(ps, i)
    decreases |ps| - i
  {
    if i < |ps| { OnceWithoutErrors(ps, i + 1); }
  }

  /** Flows that are only resumed from outside are finished once, if no step both fails and suspends. */
  lemma {:induction false} OnceWithoutNesting(ps: seq<Ploy>, i: nat)
    requires i <= |ps| && forall k | i <= k < |ps| :: Plain(ps[k]) && !(SetErr in ps[k] && SetSuspend in ps[k])
    ensures Once(ps, i) && Good(ps, i)
    decreases |ps| - i
  {
    if i < |ps| { OnceWithoutNesting(ps, i + 1); }
  }

  /** A step that fails and is resumed, in whatever order and from wherever, or calls `Run` more than
      once, has the event finished again, if the steps before it neither fail nor call `Run`. */
  lemma {:induction false} FinishedAgain(ps: seq<Ploy>, i: nat, k: nat)
    requires i <= k < |ps| && forall j | i <= j < k :: Plain(ps[j]) && SetErr !in ps[j]
    requires Calls(ps[k]) > 1 || (SetErr in ps[k] && (SetSuspend in ps[k] || CallRun in ps[k]))
    ensures !Once(ps, i) && (i == 0 ==> Flow(ps).finishes > 1)
    decreases |ps| - i
  {
    PlainIffNoCalls(ps[k]);
    if i < k { FinishedAgain(ps, i + 1, k); }
    FinishedOnce(ps);
  }

  // ----- the service

  class FlowService {
    const ploys: seq<Ploy>
    var err: bool
    var nextIndex: nat
    var suspend: bool
    var finishes: nat
    var executed: seq<nat>
    var owed: nat

    ghost predicate Valid()
      reads this
    {
      nextIndex <= |ploys|
    }

    function State(): Ctx
      reads this
    {
      Ctx(err, nextIndex, suspend, finishes, executed, owed)
    }

    constructor (ploys: seq<Ploy>)
      ensures this.ploys == ploys && Valid() && State() == Start
    {
      this.ploys := ploys;
      err, nextIndex, suspend, finishes, executed, owed := false, 0, false, 0, [], 0;
    }

    method Run()
      requires Valid()
      modifies this
      ensures Valid() && State() == AfterRun(ploys, old(State()))
      decreases |ploys| - nextIndex, 1
    {
      if suspend {
        suspend := false;
      }
      if err {
        finishes := finishes + 1;
        return;
      }
      ghost var start := State();
      var i := nextIndex;
      while i < |ploys|
        invariant start.nextIndex <= i <= nextIndex && Valid() && !err
        invariant AfterLoop(ploys, start, start.nextIndex) == AfterLoop(ploys, State(), i)
      {
        nextIndex, executed := i + 1, executed + [i];
        RunPloy(ploys[i]);
        if err {
          finishes := finishes + 1;
          return;
        }
        if suspend {
          return;
        }
        i := i + 1;
      }
      finishes := finishes + 1;
    }

    method RunPloy(w: Ploy)
      requires Valid()
      modifies this
      ensures Valid() && State() == AfterStep(ploys, old(State()), w)
      decreases |ploys| - nextIndex, 3
    {
      var n := nextIndex;
      ghost var start := State();
      assert w[0..] == w;
      for k := 0 to |w|
        invariant Valid() && n <= nextIndex
        invariant AfterActs(ploys, start, w) == AfterActs(ploys, State(), w[k..])
      {
        assert w[k..][1..] == w[k + 1..];
        match w[k] {
          case SetErr => err := true;
          case SetSuspend => suspend := true;
          case CallRun => Run();
        }
      }
      owed := owed + Owes(w);
    }
  }

  /** The first call of `Run`, and then one for each suspension: what comes of it. */
  method RunFlow(ploys: seq<Ploy>) returns (flow: FlowService)
    ensures flow.ploys == ploys && flow.State() == Flow(ploys)
    ensures flow.finishes == 1 <==> Once(ploys, 0)
  {
    flow := new FlowService(ploys);
    flow.owed := 1;
    while flow.owed > 0
      invariant fresh(flow) && flow.ploys == ploys && flow.Valid()
      invariant Complete(ploys, flow.State()) == Flow(ploys)
      decreases Left(ploys, flow.State()), flow.owed
    {
      flow.owed := flow.owed - 1;
      RunProgress(ploys, flow.State());
      flow.Run();
    }
    FinishedOnce(ploys);
  }
}
