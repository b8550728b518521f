/**
 A `std::mutex` with a condition variable that threads and coroutines wait on together: the
 part of the locks that is the same in CoMutex, Mutex and SharedState. Coroutines wait in a
 FIFO queue and park through their scheduler; threads block in a `std::condition_variable`.
 Waiting on anything else is a `Sleep` of Parking here, which may end at any time.
 */
module Monitor {
  import opened Options
  import opened Systems
  import opened Sequences
  import opened CoroLists
  import opened Parking

  datatype Agent = Thr(id: nat) | Cor(co: Co)

  /** What an agent is doing with the monitor. `Inside` and `Enlisted` hold the mutex. A coroutine
      waits through `Enlisted` (entry pushed), `Leaving` (mutex released) and `Parked` (suspended),
      a thread through `Blocked` and, once notified or woken spuriously, `Signaled`. */
  datatype Stage = Out | Inside | Enlisted | Leaving | Parked | Blocked | Signaled

  datatype Mon = Mon(w: World, mtx: Option<Agent>, queue: seq<Co>, stage: map<Agent, Stage>)

  datatype Action =
    | Enter(a: Agent)
    | Exit(a: Agent)
    | Push(c: Co)
    | Release(c: Co)
    | Suspend(c: Co)
    | Block(t: nat)
    | Spurious(t: nat)
    | Retake(a: Agent)
    | NotifyCo(a: Agent)
    | NotifyThr(a: Agent, t: nat)
    | NotifyThrs(a: Agent)
    | Sched(step: Step)

  /** The agent has the processor: a thread always has one. */
  predicate CanRun(m: Mon, a: Agent) {
    a in m.stage && (a.Cor? ==> Running(m.w, a.co))
  }

  predicate At(m: Mon, a: Agent, s: Stage) {
    a in m.stage && m.stage[a] == s
  }

  predicate Enabled(m: Mon, act: Action) {
    match act
    case Enter(a) => CanRun(m, a) && At(m, a, Out) && m.mtx == None
    case Exit(a) => CanRun(m, a) && At(m, a, Inside)
    case Push(c) => CanRun(m, Cor(c)) && At(m, Cor(c), Inside)
    case Release(c) => CanRun(m, Cor(c)) && At(m, Cor(c), Enlisted)
    case Suspend(c) => CanRun(m, Cor(c)) && At(m, Cor(c), Leaving)
    case Block(t) => At(m, Thr(t), Inside)
    case Spurious(t) => At(m, Thr(t), Blocked)
    case Retake(a) => CanRun(m, a) && m.stage[a] == (if a.Cor? then Parked else Signaled) && m.mtx == None
    case NotifyCo(a) => CanRun(m, a) && At(m, a, Inside) && m.queue != [] && m.queue[0] in m.w.cos && m.w.cos[m.queue[0]].entries > 0
    case NotifyThr(a, t) => CanRun(m, a) && At(m, a, Inside) && At(m, Thr(t), Blocked)
    case NotifyThrs(a) => CanRun(m, a) && At(m, a, Inside)
    case Sched(step) => Parking.Enabled(m.w, step) && (Stops(step) ==> At(m, Cor(step.c), Out))
  }

  function Goto(m: Mon, a: Agent, s: Stage): Mon {
    m.(stage := m.stage[a := s])
  }

  function AllSignaled(stage: map<Agent, Stage>): map<Agent, Stage> {
    map a | a in stage :: if stage[a] == Blocked then Signaled else stage[a]
  }

  function Apply(m: Mon, act: Action): Mon
    requires Enabled(m, act)
  {
    match act
    case Enter(a) => Goto(m, a, Inside).(mtx := Some(a))
    case Exit(a) => Goto(m, a, Out).(mtx := None)
    case Push(c) => Goto(m, Cor(c), Enlisted).(w := Enlist(m.w, c), queue := m.queue + [c])
    case Release(c) => Goto(m, Cor(c), Leaving).(mtx := None)
    case Suspend(c) => Goto(m, Cor(c), Parked).(w := Park(m.w, c))
    case Block(t) => Goto(m, Thr(t), Blocked).(mtx := None)
    case Spurious(t) => Goto(m, Thr(t), Signaled)
    case Retake(a) => Goto(m, a, Inside).(mtx := Some(a))
    case NotifyCo(_) => m.(w := Wake(m.w, m.queue[0]), queue := m.queue[1..])
    case NotifyThr(_, t) => Goto(m, Thr(t), Signaled)
    case NotifyThrs(_) => m.(stage := AllSignaled(m.stage))
    case Sched(step) => m.(w := Parking.Apply(m.w, step))
  }

  // ----- the invariant

  ghost predicate CorInv(m: Mon, c: Co, i: Info, s: Stage) {
    && (i.enlisted <==> s in {Enlisted, Leaving})
    && (i.entries > 0 <==> c in m.queue)
    && (c in m.queue ==> s in {Enlisted, Leaving, Parked})
    && (s == Enlisted ==> c in m.queue)
    && (s in {Inside, Enlisted, Leaving} ==> Running(m.w, c))
    && s !in {Blocked, Signaled}
    && (s in {Enlisted, Leaving, Parked} ==> NoSleep(i))
    && (s == Parked ==> i.place in {Suspended, Resumed})
  }

  /** The stages, the mutex and the queue agree with each other and with the schedulers. */
  ghost predicate Sync(m: Mon) {
    && NoDup(m.queue)
    && (forall c | c in m.queue :: c in m.w.cos)
    && (forall c | c in m.w.cos :: Cor(c) in m.stage && CorInv(m, c, m.w.cos[c], m.stage[Cor(c)]))
    && (forall a | a in m.stage :: AgentInv(m, a, m.stage[a]))
    && (m.mtx.Some? ==> m.mtx.value in m.stage)
  }

  ghost predicate AgentInv(m: Mon, a: Agent, s: Stage) {
    && (m.mtx == Some(a) <==> s in {Inside, Enlisted})
    && (if a.Cor? then a.co in m.w.cos else s !in {Enlisted, Leaving, Parked})
  }

  ghost predicate Inv(m: Mon) {
    Parking.Inv(m.w) && Sync(m)
  }

  /** The agent waits and has not been notified. */
  ghost predicate Queued(m: Mon, a: Agent) {
    if a.Cor? then a.co in m.queue else At(m, a, Blocked)
  }

  /** The agent is between the push or block and the return of its wait. */
  predicate WaitStage(s: Stage) {
    s in {Enlisted, Leaving, Parked, Blocked, Signaled}
  }

  // ----- every action keeps it

  lemma FrameKeepsSync(m: Mon, step: Step, w: World)
    requires Sync(m) && (Stops(step) ==> At(m, Cor(step.c), Out))
    requires w.cos.Keys == m.w.cos.Keys
    requires forall c | c in m.w.cos :: SameEntries(m.w.cos[c], w.cos[c])
    requires forall c | c in m.w.cos && !(Stops(step) && step.c == c) :: StillWaits(m.w.cos[c], w.cos[c])
    requires forall c | Running(m.w, c) && !(Stops(step) && step.c == c) :: Running(w, c)
    ensures Sync(m.(w := w))
  {
  }

  /** A stage of an agent that is not a coroutine in a wait changes, with the mutex. */
  lemma StageKeepsSync(m: Mon, a: Agent, s: Stage, mtx: Option<Agent>)
    requires Sync(m) && CanRun(m, a) && mtx in {m.mtx, None, Some(a)}
    requires mtx == Some(a) <==> s in {Inside, Enlisted}
    requires m.mtx in {None, Some(a)} || mtx == m.mtx
    requires a.Cor? ==> a.co !in m.queue || s in {Leaving, Parked}
    requires a.Cor? ==> s in {Out, Inside, Leaving} && (s == Leaving <==> m.stage[a] in {Enlisted, Leaving})
    requires a.Thr? ==> s in {Out, Inside, Blocked, Signaled}
    ensures Sync(Goto(m, a, s).(mtx := mtx))
  {
  }

  lemma PushKeepsSync(m: Mon, c: Co)
    requires Sync(m) && Enabled(m, Push(c)) && m.w.cos[c].entries == 0 && NoSleep(m.w.cos[c])
    ensures c !in m.queue && Sync(Apply(m, Push(c)))
  {
  }

  lemma SuspendKeepsSync(m: Mon, c: Co)
    requires Sync(m) && Enabled(m, Suspend(c))
    ensures Sync(Apply(m, Suspend(c)))
  {
  }

  lemma NotifyCoKeepsSync(m: Mon, a: Agent)
    requires Sync(m) && m.queue != [] && CanRun(m, a) && At(m, a, Inside)
    requires forall c | c in m.w.cos :: m.w.cos[c].entries <= 1
    ensures Enabled(m, NotifyCo(a)) && Sync(Apply(m, NotifyCo(a)))
    ensures m.queue[0] !in m.queue[1..]
  {
    assert AgentInv(m, a, Inside) && AgentInv(m, Cor(m.queue[0]), m.stage[Cor(m.queue[0])]);
  }

  lemma NotifyThrsKeepsSync(m: Mon)
    requires Sync(m)
    ensures Sync(m.(stage := AllSignaled(m.stage)))
  {
    forall a | a in m.stage ensures AllSignaled(m.stage)[a] == if m.stage[a] == Blocked then Signaled else m.stage[a] {
      assert AgentInv(m, a, m.stage[a]);
    }
  }

  /** The actions that only change the stage of one agent and the mutex. */
  predicate OneStage(act: Action) {
    act.Enter? || act.Exit? || act.Release? || act.Block? || act.Spurious? || act.Retake? || act.NotifyThr?
  }

  lemma OneStageKeepsInv(m: Mon, act: Action)
    requires Inv(m) && Enabled(m, act) && OneStage(act)
    ensures Inv(Apply(m, act))
  {
    hide Parking.Inv;
    match act
    case Enter(a) => StageKeepsSync(m, a, Inside, Some(a));
    case Release(c) => StageKeepsSync(m, Cor(c), Leaving, None);
    case Block(t) => StageKeepsSync(m, Thr(t), Blocked, None);
    case Spurious(t) => StageKeepsSync(m, Thr(t), Signaled, m.mtx);
    case NotifyThr(_, t) => StageKeepsSync(m, Thr(t), Signaled, m.mtx);
    case Exit(a) => ExitKeepsInv(m, a);
    case Retake(a) => RetakeKeepsInv(m, a);
  }

  lemma ExitKeepsInv(m: Mon, a: Agent)
    requires Inv(m) && Enabled(m, Exit(a))
    ensures Inv(Apply(m, Exit(a)))
  {
    hide Parking.Inv;
    StageKeepsSync(m, a, Out, None);
  }

  lemma RetakeKeepsInv(m: Mon, a: Agent)
    requires Inv(m) && Enabled(m, Retake(a))
    ensures Inv(Apply(m, Retake(a)))
  {
    hide Parking.Inv;
    if a.Cor? { RunningIsNotQueued(m, a.co); }
    StageKeepsSync(m, a, Inside, Some(a));
  }

  lemma ActionKeepsInv(m: Mon, act: Action)
    requires Inv(m) && Enabled(m, act)
    ensures Inv(Apply(m, act))
  {
    if OneStage(act) {
      hide Sync, Parking.Inv;
      OneStageKeepsInv(m, act);
    } else {
      OtherKeepsInv(m, act);
    }
  }

  lemma OtherKeepsInv(m: Mon, act: Action)
    requires Inv(m) && Enabled(m, act) && !OneStage(act)
    ensures Inv(Apply(m, act))
  {
    hide Parking.Apply;
    match act
    case Push(c) =>
      RunningHasNoToken(m.w, c);
      EnlistKeepsInv(m.w, c);
      PushKeepsSync(m, c);
    case Suspend(c) =>
      ParkKeepsInv(m.w, c);
      SuspendKeepsSync(m, c);
    case NotifyCo(a) =>
      WakeKeepsInv(m.w, m.queue[0]);
      NotifyCoKeepsSync(m, a);
    case NotifyThrs(_) => NotifyThrsKeepsSync(m);
    case Sched(step) =>
      StepKeepsInv(m.w, step);
      StepFrame(m.w, step);
      FrameKeepsSync(m, step, Parking.Apply(m.w, step));
  }

  /** A waiting coroutine that is back on the processor has been notified: it has no entry left. */
  lemma RunningIsNotQueued(m: Mon, c: Co)
    requires Inv(m) && Running(m.w, c) && At(m, Cor(c), Parked)
    ensures c !in m.queue
  {
    assert LoopInv(m.w, c.sched, m.w.loops[c.sched]);
    assert CoInv(m.w, c, m.w.cos[c]);
  }

  lemma PushFindsNoEntry(m: Mon, c: Co)
    requires Inv(m) && Enabled(m, Push(c))
    ensures c !in m.queue
  {
    RunningHasNoToken(m.w, c);
    PushKeepsSync(m, c);
  }

  /** The coroutine still runs towards its suspend with the resume posted, or it is suspended
      with the resume posted, or it has been drained and its turn is in this pass of its
      scheduler. */
  ghost predicate ComesBack(m: Mon, c: Co) {
    && Cor(c) in m.stage && c in m.w.cos && c.sched in m.w.loops
    && var i, l, st := m.w.cos[c], m.w.loops[c.sched], m.stage[Cor(c)];
      || (st == Leaving && Running(m.w, c) && i.posted == 1)
      || (st == Parked && i.place == Suspended && i.posted == 1)
      || (st == Parked && i.place == Resumed && i.posted == 0
          && l.phase == RunningResumed && (c in l.todo || l.current == Some(c)))
  }

  /** A waiting coroutine whose entry was popped from the queue is on its way back, whatever it
      had done of parking by then. */
  lemma NotifiedComesBack(m: Mon, c: Co)
    requires Inv(m) && c in m.w.cos && c !in m.queue && m.stage[Cor(c)] in {Enlisted, Leaving, Parked}
    ensures ComesBack(m, c)
  {
    assert CoInv(m.w, c, m.w.cos[c]);
    assert CorInv(m, c, m.w.cos[c], m.stage[Cor(c)]);
  }

  // ----- what an action does to the schedulers

  function ActsOf(m: Mon, act: Action): seq<Act> {
    match act
    case Push(c) => [EnlistBy(c)]
    case Suspend(c) => [ParkBy(c)]
    case NotifyCo(_) => if m.queue == [] then [] else [WakeOf(m.queue[0])]
    case Sched(step) => [Take(step)]
    case _ => []
  }

  lemma ActionIsActs(m: Mon, act: Action)
    requires Inv(m) && Enabled(m, act)
    ensures Runs(Parking.Next, m.w, ActsOf(m, act)) && Exec(Parking.Next, m.w, ActsOf(m, act)) == Apply(m, act).w
  {
    if act.Push? || act.Suspend? {
      assert CorInv(m, act.c, m.w.cos[act.c], m.stage[Cor(act.c)]);
    }
    hide Inv, CorInv, Parking.Enabled, Parking.Apply;
    if ActsOf(m, act) != [] {
      OneAct(m.w, ActsOf(m, act)[0]);
    }
  }

  lemma OneAct(w: World, a: Act)
    requires Can(w, a)
    ensures Runs(Parking.Next, w, [a]) && Exec(Parking.Next, w, [a]) == Done(w, a)
  {
    hide Can, Done;
    OneMove(Parking.Next, w, a);
  }
}
