/**
 The state behind a `Promise` and its `Future`s (with a value): any number of threads and
 coroutines wait, before or after it is set, every atomic step on its own. Setting it more than
 once is allowed, as in the code. Values and exceptions are opaque numbers.
 */
module SharedStateProtocol {
  import opened Options
  import opened Systems
  import opened Parking
  import opened Monitor

  datatype Result = Value(v: int) | Exception(e: int)

  /** How a call of `getValue` ends: with what was set, or with the error for a state not ready. */
  datatype Outcome = Got(r: Result) | NotReady

  /** `Future::wait` goes through WWant, WTest (holds `mtx_`), WWait, Waiting, WDone, and then, for
      `getValue`, GWant, GIn and GOut to Done; a set through SWant, SIn, SNotify and SOut. */
  datatype Pc =
    | Idle
    | WWant | WTest | WWait | Waiting | WDone
    | GWant | GIn | GOut(out: Outcome) | Done(out: Outcome)
    | SWant(o: Result) | SIn(o: Result) | SNotify | SOut

  /** `sets` records the outcomes set so far, in order. */
  datatype Sys = Sys(m: Mon, isReady: bool, value: int, eptr: Option<int>, sets: seq<Result>, pc: map<Agent, Pc>)

  datatype Move =
    | CallWait(a: Agent)
    | EnterWait(a: Agent)
    | Test(a: Agent)
    | CondWait(a: Agent)
    | ReleaseMtx(a: Agent)
    | SuspendSelf(a: Agent)
    | SpuriousWake(a: Agent)
    | RetakeMtx(a: Agent)
    | ExitWait(a: Agent)
    | EnterGet(a: Agent)
    | Get(a: Agent)
    | ExitGet(a: Agent)
    | Return(a: Agent)
    | CallSet(a: Agent, o: Result)
    | EnterSet(a: Agent)
    | Set(a: Agent)
    | NotifyNext(a: Agent)
    | NotifyThreads(a: Agent)
    | ExitSet(a: Agent)
    | Around(step: Step)

  predicate AtPc(s: Sys, a: Agent, p: Pc) {
    a in s.pc && s.pc[a] == p
  }

  /** What the code finds at the place the agent is: the guard of each move. */
  predicate Guard(s: Sys, mv: Move) {
    match mv
    case CallWait(a) => AtPc(s, a, Idle) && CanRun(s.m, a)
    case EnterWait(a) => AtPc(s, a, WWant)
    case Test(a) => AtPc(s, a, WTest)
    case CondWait(a) => AtPc(s, a, WWait)
    case ReleaseMtx(a) => AtPc(s, a, Waiting) && a.Cor?
    case SuspendSelf(a) => AtPc(s, a, Waiting) && a.Cor?
    case SpuriousWake(a) => AtPc(s, a, Waiting) && a.Thr?
    case RetakeMtx(a) => AtPc(s, a, Waiting)
    case ExitWait(a) => AtPc(s, a, WDone)
    case EnterGet(a) => AtPc(s, a, GWant)
    case Get(a) => AtPc(s, a, GIn)
    case ExitGet(a) => a in s.pc && s.pc[a].GOut?
    case Return(a) => a in s.pc && s.pc[a].Done?
    case CallSet(a, _) => AtPc(s, a, Idle) && CanRun(s.m, a)
    case EnterSet(a) => a in s.pc && s.pc[a].SWant?
    case Set(a) => a in s.pc && s.pc[a].SIn?
    case NotifyNext(a) => AtPc(s, a, SNotify) && s.m.queue != []
    case NotifyThreads(a) => AtPc(s, a, SNotify) && s.m.queue == []
    case ExitSet(a) => AtPc(s, a, SOut)
    case Around(step) => Stops(step) ==> AtPc(s, Cor(step.c), Idle)
  }

  function ActionOf(s: Sys, mv: Move): Option<Action>
    requires Guard(s, mv)
  {
    match mv
    case EnterWait(a) => Some(Enter(a))
    case CondWait(a) => Some(if a.Cor? then Push(a.co) else Block(a.id))
    case ReleaseMtx(a) => Some(Release(a.co))
    case SuspendSelf(a) => Some(Suspend(a.co))
    case SpuriousWake(a) => Some(Spurious(a.id))
    case RetakeMtx(a) => Some(Retake(a))
    case ExitWait(a) => Some(Exit(a))
    case EnterGet(a) => Some(Enter(a))
    case ExitGet(a) => Some(Exit(a))
    case EnterSet(a) => Some(Enter(a))
    case NotifyNext(a) => Some(NotifyCo(a))
    case NotifyThreads(a) => Some(NotifyThrs(a))
    case ExitSet(a) => Some(Exit(a))
    case Around(step) => Some(Sched(step))
    case _ => None
  }

  function To(s: Sys, mv: Move): Pc
    requires Guard(s, mv) && !mv.Around?
  {
    match mv
    case CallWait(_) => WWant
    case EnterWait(_) => WTest
    case Test(_) => if s.isReady then WDone else WWait
    case CondWait(_) => Waiting
    case ReleaseMtx(_) => Waiting
    case SuspendSelf(_) => Waiting
    case SpuriousWake(_) => Waiting
    case RetakeMtx(_) => WTest
    case ExitWait(_) => GWant
    case EnterGet(_) => GIn
    case Get(_) =>
      GOut(if !s.isReady then NotReady
           else Got(if s.eptr.Some? then Exception(s.eptr.value) else Value(s.value)))
    case ExitGet(a) => Done(s.pc[a].out)
    case Return(_) => Idle
    case CallSet(_, o) => SWant(o)
    case EnterSet(a) => SIn(s.pc[a].o)
    case Set(_) => SNotify
    case NotifyNext(_) => SNotify
    case NotifyThreads(_) => SOut
    case ExitSet(_) => Idle
  }

  predicate Enabled(s: Sys, mv: Move) {
    Guard(s, mv) && (ActionOf(s, mv).Some? ==> Monitor.Enabled(s.m, ActionOf(s, mv).value))
  }

  function Apply(s: Sys, mv: Move): Sys
    requires Enabled(s, mv)
  {
    var m := match ActionOf(s, mv) case Some(act) => Monitor.Apply(s.m, act) case None => s.m;
    if mv.Around? then s.(m := m)
    else
      var pc := s.pc[mv.a := To(s, mv)];
      if mv.Set? then
        match s.pc[mv.a].o
        case Value(v) => Sys(m, true, v, s.eptr, s.sets + [Value(v)], pc)
        case Exception(e) => Sys(m, true, s.value, Some(e), s.sets + [Exception(e)], pc)
      else s.(m := m, pc := pc)
  }

  // ----- the invariant

  /** What `getValue` yields after the sets `h`: the last exception if one was set, or else the
      last value. */
  function Content(h: seq<Result>): Result
    requires h != []
  {
    var last := h[|h| - 1];
    if |h| == 1 || last.Exception? then last
    else
      var before := Content(h[..|h| - 1]);
      if before.Exception? then before else last
  }

  predicate PcAgrees(p: Pc, st: Stage) {
    if p.WTest? || p.WWait? || p.WDone? || p.GIn? || p.GOut? || p.SIn? || p.SNotify? || p.SOut? then st == Inside
    else if p.Waiting? then WaitStage(st)
    else st == Out
  }

  /** `r` was the content of the state at some moment after it had been set. */
  ghost predicate WasContent(s: Sys, r: Result) {
    exists k | 1 <= k <= |s.sets| :: r == Content(s.sets[..k])
  }

  ghost predicate PcInv(s: Sys, a: Agent, p: Pc) {
    && a in s.m.stage && PcAgrees(p, s.m.stage[a])
    && (p.WWait? ==> !s.isReady)
    && (p.WDone? || p.GWant? || p.GIn? || p.SNotify? ==> s.isReady)
    && (p.GOut? || p.Done? ==> s.isReady && p.out.Got? && WasContent(s, p.out.r))
  }

  ghost predicate Positions(s: Sys) {
    && s.pc.Keys == s.m.stage.Keys
    && (forall a | a in s.pc :: PcInv(s, a, s.pc[a]))
  }

  /** Once the state is ready, only a setter that has still to notify leaves anybody waiting. */
  ghost predicate Released(s: Sys) {
    s.isReady && (exists a :: Queued(s.m, a)) ==> exists a :: AtPc(s, a, SNotify)
  }

  ghost predicate Stored(s: Sys) {
    && (s.isReady <==> s.sets != [])
    && (s.isReady ==> Content(s.sets) == if s.eptr.Some? then Exception(s.eptr.value) else Value(s.value))
    && (!s.isReady ==> s.eptr == None)
  }

  ghost predicate Inv(s: Sys) {
    Monitor.Inv(s.m) && Positions(s) && Released(s) && Stored(s)
  }

  // ----- every move keeps it

  /** The frame of every move that sets nothing, and leaves no new waiter behind a ready state. */
  lemma QuietKeepsInv(s: Sys, t: Sys, a: Agent)
    requires Positions(s) && Released(s) && a in s.pc
    requires t.isReady == s.isReady && t.sets == s.sets
    requires t.pc.Keys == s.pc.Keys && t.m.stage.Keys == s.m.stage.Keys
    requires forall b | b in s.pc && b != a :: t.pc[b] == s.pc[b] && t.m.stage[b] == s.m.stage[b]
    requires PcInv(t, a, t.pc[a])
    requires s.isReady ==> forall b :: Queued(t.m, b) ==> Queued(s.m, b)
    requires s.pc[a].SNotify? ==> t.pc[a].SNotify?
    ensures Positions(t) && Released(t)
  {
    forall b | b in t.pc ensures PcInv(t, b, t.pc[b]) {
      assert PcInv(s, b, s.pc[b]);
    }
    if t.isReady && exists b :: Queued(t.m, b) {
      var b :| Queued(t.m, b);
      assert Queued(s.m, b);
      var n :| AtPc(s, n, SNotify);
      assert AtPc(t, n, SNotify);
    }
  }

  lemma EnterKeepsInv(s: Sys, mv: Move)
    requires Positions(s) && Released(s) && Stored(s) && Enabled(s, mv)
    requires mv.EnterWait? || mv.EnterGet? || mv.EnterSet? || mv.RetakeMtx?
    ensures Positions(Apply(s, mv)) && Released(Apply(s, mv))
  {
    hide Released, WasContent, Stored, Parking.Inv;
    assert PcInv(s, mv.a, s.pc[mv.a]);
    QuietKeepsInv(s, Apply(s, mv), mv.a);
  }

  lemma ExitKeepsInv(s: Sys, mv: Move)
    requires Positions(s) && Released(s) && Stored(s) && Enabled(s, mv)
    requires mv.ExitWait? || mv.ExitGet? || mv.ExitSet?
    ensures Positions(Apply(s, mv)) && Released(Apply(s, mv))
  {
    hide Released, Stored, Content;
    assert PcInv(s, mv.a, s.pc[mv.a]);
    QuietKeepsInv(s, Apply(s, mv), mv.a);
  }

  lemma LocalKeepsInv(s: Sys, mv: Move)
    requires Positions(s) && Released(s) && Stored(s) && Enabled(s, mv)
    requires mv.CallWait? || mv.Test? || mv.Get? || mv.Return? || mv.CallSet?
    ensures Positions(Apply(s, mv)) && Released(Apply(s, mv))
  {
    hide Released;
    assert PcInv(s, mv.a, s.pc[mv.a]);
    if mv.Get? {
      assert s.sets[..|s.sets|] == s.sets;
      assert WasContent(s, Content(s.sets));
    }
    QuietKeepsInv(s, Apply(s, mv), mv.a);
  }

  lemma CondWaitKeepsInv(s: Sys, a: Agent)
    requires Positions(s) && Released(s) && Stored(s) && Enabled(s, CondWait(a))
    ensures Positions(Apply(s, CondWait(a))) && Released(Apply(s, CondWait(a)))
  {
    hide Released, WasContent, Stored, Parking.Inv;
    assert PcInv(s, a, s.pc[a]);
    QuietKeepsInv(s, Apply(s, CondWait(a)), a);
  }

  lemma WaitKeepsInv(s: Sys, mv: Move)
    requires Positions(s) && Released(s) && Stored(s) && Enabled(s, mv)
    requires mv.ReleaseMtx? || mv.SuspendSelf? || mv.SpuriousWake?
    ensures Positions(Apply(s, mv)) && Released(Apply(s, mv))
  {
    hide Released, WasContent, Stored, Parking.Inv;
    assert PcInv(s, mv.a, s.pc[mv.a]);
    QuietKeepsInv(s, Apply(s, mv), mv.a);
  }

  lemma SetKeepsInv(s: Sys, a: Agent)
    requires Positions(s) && Released(s) && Stored(s) && Enabled(s, Set(a))
    requires forall b | At(s.m, b, Inside) :: b == a
    ensures var t := Apply(s, Set(a)); Positions(t) && Released(t) && Stored(t)
  {
    var t := Apply(s, Set(a));
    assert PcInv(s, a, s.pc[a]);
    assert t.sets[..|t.sets| - 1] == s.sets;
    forall b | b in t.pc ensures PcInv(t, b, t.pc[b]) {
      assert PcInv(s, b, s.pc[b]) && (s.pc[b].WWait? ==> At(s.m, b, Inside));
      if (s.pc[b].GOut? || s.pc[b].Done?) && b != a { StillContent(s, t, s.pc[b].out.r); }
    }
    assert AtPc(t, a, SNotify);
  }

  lemma StillContent(s: Sys, t: Sys, r: Result)
    requires WasContent(s, r) && s.sets <= t.sets
    ensures WasContent(t, r)
  {
    var k :| 1 <= k <= |s.sets| && r == Content(s.sets[..k]);
    assert t.sets[..k] == s.sets[..k];
  }

  lemma NotifyKeepsInv(s: Sys, mv: Move)
    requires Positions(s) && Released(s) && Enabled(s, mv) && (mv.NotifyNext? || mv.NotifyThreads?)
    ensures Positions(Apply(s, mv)) && Released(Apply(s, mv))
  {
    var t := Apply(s, mv);
    assert PcInv(s, mv.a, s.pc[mv.a]);
    forall b | b in t.pc ensures PcInv(t, b, t.pc[b]) {
      assert PcInv(s, b, s.pc[b]);
    }
    if mv.NotifyNext? { assert AtPc(t, mv.a, SNotify); }
  }

  lemma AroundKeepsInv(s: Sys, step: Step)
    requires Positions(s) && Released(s) && Enabled(s, Around(step))
    ensures Positions(Apply(s, Around(step))) && Released(Apply(s, Around(step)))
  {
    hide Released, Parking.Apply, Parking.Enabled, Content;
    var t := Apply(s, Around(step));
    forall b | b in t.pc ensures PcInv(t, b, t.pc[b]) {
      assert PcInv(s, b, s.pc[b]);
    }
    StillReleased(s, t);
  }

  lemma StillReleased(s: Sys, t: Sys)
    requires Released(s) && t.isReady == s.isReady && t.pc == s.pc
    requires t.m.queue == s.m.queue && t.m.stage == s.m.stage
    ensures Released(t)
  {
    if exists b :: Queued(t.m, b) {
      var b :| Queued(t.m, b);
      assert Queued(s.m, b);
    }
    forall a ensures AtPc(t, a, SNotify) == AtPc(s, a, SNotify) { }
  }

  lemma OneInside(s: Sys, a: Agent)
    requires Inv(s) && Enabled(s, Set(a))
    ensures forall b | At(s.m, b, Inside) :: b == a
  {
    forall b | At(s.m, b, Inside) ensures b == a {
      assert PcInv(s, a, s.pc[a]) && AgentInv(s.m, b, Inside) && AgentInv(s.m, a, Inside);
    }
  }

  lemma MoveKeepsInv(s: Sys, mv: Move)
    requires Inv(s) && Enabled(s, mv)
    ensures Inv(Apply(s, mv))
  {
    hide Monitor.Apply, Monitor.Sync, Parking.Inv, Positions, Released;
    if ActionOf(s, mv).Some? { ActionKeepsInv(s.m, ActionOf(s, mv).value); }
    match mv
    case Set(a) =>
      OneInside(s, a);
      SetKeepsInv(s, a);
    case NotifyNext(_) => NotifyKeepsInv(s, mv);
    case NotifyThreads(_) => NotifyKeepsInv(s, mv);
    case Around(step) => AroundKeepsInv(s, step);
    case EnterWait(_) => EnterKeepsInv(s, mv);
    case EnterGet(_) => EnterKeepsInv(s, mv);
    case EnterSet(_) => EnterKeepsInv(s, mv);
    case RetakeMtx(_) => EnterKeepsInv(s, mv);
    case ExitWait(_) => ExitKeepsInv(s, mv);
    case ExitGet(_) => ExitKeepsInv(s, mv);
    case ExitSet(_) => ExitKeepsInv(s, mv);
    case CondWait(a) => CondWaitKeepsInv(s, a);
    case ReleaseMtx(_) => WaitKeepsInv(s, mv);
    case SuspendSelf(_) => WaitKeepsInv(s, mv);
    case SpuriousWake(_) => WaitKeepsInv(s, mv);
    case _ => LocalKeepsInv(s, mv);
  }

  // ----- whole runs

  ghost predicate Initial(s: Sys) {
    && Monitor.Inv(s.m) && s.m.queue == [] && s.m.mtx == None
    && !s.isReady && s.eptr == None && s.sets == []
    && s.pc.Keys == s.m.stage.Keys
    && (forall a | a in s.m.stage :: s.m.stage[a] == Out && s.pc[a] == Idle)
  }

  ghost function Next(s: Sys, mv: Move): Option<Sys> {
    if Enabled(s, mv) then Some(Apply(s, mv)) else None
  }

  lemma RunKeepsInv(s: Sys, run: seq<Move>)
    requires Inv(s) && Runs(Next, s, run)
    ensures Inv(Exec(Next, s, run))
  {
    hide Inv, Enabled, Apply;
    forall t, mv | Inv(t) && Next(t, mv).Some? ensures Inv(Next(t, mv).value) {
      MoveKeepsInv(t, mv);
    }
    Invariant(Next, Inv, s, run);
  }

  lemma InitialInv(s: Sys)
    requires Initial(s)
    ensures Inv(s)
  {
    forall a | a in s.pc ensures PcInv(s, a, s.pc[a]) { }
    forall a ensures !Queued(s.m, a) { }
  }

  /** `Future::wait` returns only after a set, and returns or throws a content the state had; if it
      was set exactly once, then exactly that outcome. It never throws "not ready". */
  lemma WaitYieldsWhatWasSet(s: Sys, run: seq<Move>, a: Agent)
    requires Initial(s) && Runs(Next, s, run)
    requires a in Exec(Next, s, run).pc && Exec(Next, s, run).pc[a].Done?
    ensures var e := Exec(Next, s, run);
      && e.isReady && e.sets != [] && e.pc[a].out.Got? && WasContent(e, e.pc[a].out.r)
      && (|e.sets| == 1 ==> e.pc[a].out.r == e.sets[0])
  {
    InitialInv(s);
    RunKeepsInv(s, run);
    var e := Exec(Next, s, run);
    assert PcInv(e, a, e.pc[a]);
    assert |e.sets| == 1 ==> e.sets[..1] == e.sets;
  }

  /** Once the state is ready and `mtx_` is free nobody waits unnotified, and every notified
      coroutine comes back, for any number of waiters and whenever they arrived. */
  lemma ReadyReleasesEverybody(s: Sys, run: seq<Move>)
    requires Initial(s) && Runs(Next, s, run) && Exec(Next, s, run).isReady && Exec(Next, s, run).m.mtx == None
    ensures var e := Exec(Next, s, run);
      && (forall a :: !Queued(e.m, a))
      && (forall c | AtPc(e, Cor(c), Waiting) :: ComesBack(e.m, c))
      && (forall t | AtPc(e, Thr(t), Waiting) :: At(e.m, Thr(t), Signaled))
  {
    InitialInv(s);
    RunKeepsInv(s, run);
    var e := Exec(Next, s, run);
    forall a | a in e.pc ensures !e.pc[a].SNotify? {
      assert PcInv(e, a, e.pc[a]) && AgentInv(e.m, a, e.m.stage[a]);
    }
    forall a | AtPc(e, a, Waiting)
      ensures if a.Cor? then ComesBack(e.m, a.co) else At(e.m, a, Signaled)
    {
      assert PcInv(e, a, Waiting) && AgentInv(e.m, a, e.m.stage[a]) && !Queued(e.m, a);
      if a.Cor? {
        assert CorInv(e.m, a.co, e.m.w.cos[a.co], e.m.stage[a]);
        NotifiedComesBack(e.m, a.co);
      }
    }
  }

  // ----- the schedulers under a run

  ghost function View(s: Sys): World {
    s.m.w
  }

  ghost function Part(s: Sys, mv: Move): seq<Act> {
    if !Guard(s, mv) then []
    else match ActionOf(s, mv) case Some(act) => ActsOf(s.m, act) case None => []
  }

  lemma MoveIsActs(s: Sys, mv: Move)
    requires Inv(s) && Enabled(s, mv)
    ensures Runs(Parking.Next, s.m.w, Part(s, mv)) && Exec(Parking.Next, s.m.w, Part(s, mv)) == Apply(s, mv).m.w
  {
    hide Monitor.Apply, Monitor.Enabled, Monitor.Sync, Parking.Inv, ActsOf;
    if ActionOf(s, mv).Some? { ActionIsActs(s.m, ActionOf(s, mv).value); }
  }

  lemma RunIsActs(s: Sys, run: seq<Move>)
    requires Inv(s) && Runs(Next, s, run)
    ensures var acts := Project(Next, Part, s, run);
      Runs(Parking.Next, s.m.w, acts) && Exec(Parking.Next, s.m.w, acts) == Exec(Next, s, run).m.w
  {
    hide Inv, Enabled, Apply, Part;
    forall t, mv | Inv(t) && Next(t, mv).Some?
      ensures Inv(Next(t, mv).value) && Runs(Parking.Next, View(t), Part(t, mv))
      ensures Exec(Parking.Next, View(t), Part(t, mv)) == View(Next(t, mv).value)
    {
      MoveKeepsInv(t, mv);
      MoveIsActs(t, mv);
    }
    Projects(Next, Inv, View, Parking.Next, Part, s, run);
  }

  /** A coroutine whose resume is posted when its scheduler drains the queue is switched to before that
      scheduler goes on to the coroutines that have yielded, whatever else happens meanwhile. */
  lemma PostedIsDispatched(s: Sys, k: nat, run: seq<Move>, c: Co)
    requires Inv(s) && Enabled(s, Around(Drain(k)))
    requires c in s.m.w.cos && c.sched == k && s.m.w.cos[c].posted > 0
    requires Runs(Next, Apply(s, Around(Drain(k))), run)
    requires Enabled(Exec(Next, Apply(s, Around(Drain(k))), run), Around(NextPhase(k)))
    ensures Around(Dispatch(c)) in run
  {
    var t := Apply(s, Around(Drain(k)));
    var acts := Project(Next, Part, t, run);
    MoveKeepsInv(s, Around(Drain(k)));
    RunIsActs(t, run);
    AroundIsStep(s, Drain(k));
    AroundIsStep(Exec(Next, t, run), NextPhase(k));
    hide *;
    DrainedIsDispatched(s.m.w, k, acts, c);
    var u, i := ProjectHas(Next, Part, t, run, Take(Dispatch(c)));
    OnlyAroundTakes(u, run[i], Dispatch(c));
  }

  lemma AroundIsStep(s: Sys, step: Step)
    requires Enabled(s, Around(step))
    ensures Parking.Enabled(s.m.w, step) && Apply(s, Around(step)).m.w == Parking.Apply(s.m.w, step)
  {
    hide Parking.Enabled, Parking.Apply;
  }

  lemma OnlyAroundTakes(s: Sys, mv: Move, step: Step)
    requires Take(step) in Part(s, mv)
    ensures mv == Around(step)
  {
  }
}
