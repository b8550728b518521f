/**
 Coroutines of several schedulers, in small steps: what each scheduler loop, and each
 coroutine between two switches, does to the list a coroutine is linked in and to the ways it
 can be woken: its entries in wait queues, in `sleepQueue_`, in the local list of expired
 sleepers and in `resumeQueue_`. The order within lists and queues and the times of the
 sleepers are left open here (any order and any time is allowed); Scheduler fixes them.

 A coroutine parks in two steps: it is entered in a wait queue (`Enlist`) and, later, after
 the lock that guards the queue has been released, it suspends itself (`Park`). Its wake-up
 can be posted between the two. Every coroutine that is parked, or on its way to park, has
 exactly one source it can be woken from, and no other coroutine has any.
 */
module Parking {
  import opened Options
  import opened Systems
  import opened CoroLists

  /** The coroutine in slot `slot` of scheduler `sched`. */
  datatype Co = Co(sched: nat, slot: nat)

  /** A coroutine: its list, how many wait-queue entries, sleepers, expired sleepers and posted
      resumes name it, and whether it has pushed an entry but not suspended yet. */
  datatype Info = Info(place: Place, entries: nat, asleep: nat, due: nat, posted: nat, enlisted: bool)

  /** Where the loop of a scheduler stands within one pass. */
  datatype Phase = Waking | Posting | RunningResumed | RunningYielding

  /** `todo` is what is left of the snapshot being switched to, `current` the running coroutine. */
  datatype Loop = Loop(phase: Phase, todo: set<Co>, current: Option<Co>)

  datatype World = World(loops: map<nat, Loop>, cos: map<Co, Info>)

  // ----- the steps

  datatype Step =
    | Yield(c: Co)
    | Sleep(c: Co)
    | End(c: Co)
    | Add(c: Co)
    | PopSleeper(c: Co)
    | SleepersPopped(k: nat)
    | PostExpired(c: Co)
    | Drain(k: nat)
    | Dispatch(c: Co)
    | NextPhase(k: nat)

  predicate Running(w: World, c: Co) {
    c in w.cos && c.sched in w.loops && w.loops[c.sched].current == Some(c)
  }

  predicate LoopAt(w: World, k: nat, p: Phase) {
    k in w.loops && w.loops[k].phase == p
  }

  predicate Enabled(w: World, step: Step) {
    match step
    case Yield(c) => Running(w, c) && !w.cos[c].enlisted
    case Sleep(c) => Running(w, c) && !w.cos[c].enlisted
    case End(c) => Running(w, c) && !w.cos[c].enlisted
    case Add(c) => c in w.cos && w.cos[c].place == Free
    case PopSleeper(c) => c in w.cos && w.cos[c].asleep > 0 && LoopAt(w, c.sched, Waking)
    case SleepersPopped(k) => LoopAt(w, k, Waking)
    case PostExpired(c) => c in w.cos && w.cos[c].due > 0 && LoopAt(w, c.sched, Posting)
    case Drain(k) => LoopAt(w, k, Posting) && forall c | c in w.cos && c.sched == k :: w.cos[c].due == 0
    case Dispatch(c) =>
      c.sched in w.loops && c in w.loops[c.sched].todo && w.loops[c.sched].current == None
    case NextPhase(k) =>
      && (LoopAt(w, k, RunningResumed) || LoopAt(w, k, RunningYielding))
      && w.loops[k].current == None && w.loops[k].todo == {}
  }

  function Snapshot(w: World, k: nat, p: Place): set<Co> {
    set c | c in w.cos && c.sched == k && w.cos[c].place == p
  }

  /** The drain of `resumeQueue_` under its lock: every coroutine in it goes to the resume list,
      from whatever list it is in. */
  function Drained(w: World, k: nat): World {
    w.(cos := map c | c in w.cos ::
         if c.sched == k && w.cos[c].posted > 0 then w.cos[c].(place := Resumed, posted := 0) else w.cos[c])
  }

  function SetLoop(w: World, k: nat, l: Loop): World {
    w.(loops := w.loops[k := l])
  }

  function SetInfo(w: World, c: Co, i: Info): World {
    w.(cos := w.cos[c := i])
  }

  /** The running coroutine leaves the processor with new information `i`. */
  function SwitchBack(w: World, c: Co, i: Info): World
    requires Running(w, c)
  {
    SetInfo(SetLoop(w, c.sched, w.loops[c.sched].(current := None)), c, i)
  }

  function Apply(w: World, step: Step): World
    requires Enabled(w, step)
  {
    match step
    case Yield(c) => SwitchBack(w, c, w.cos[c].(place := Yielding))
    case Sleep(c) => SwitchBack(w, c, w.cos[c].(place := Suspended, asleep := w.cos[c].asleep + 1))
    case End(c) => SwitchBack(w, c, w.cos[c].(place := Free))
    case Add(c) => SetInfo(w, c, w.cos[c].(place := Yielding))
    case PopSleeper(c) => SetInfo(w, c, w.cos[c].(asleep := w.cos[c].asleep - 1, due := w.cos[c].due + 1))
    case SleepersPopped(k) => SetLoop(w, k, w.loops[k].(phase := Posting))
    case PostExpired(c) => SetInfo(w, c, w.cos[c].(due := w.cos[c].due - 1, posted := w.cos[c].posted + 1))
    case Drain(k) =>
      var d := Drained(w, k);
      SetLoop(d, k, w.loops[k].(phase := RunningResumed, todo := Snapshot(d, k, Resumed)))
    case Dispatch(c) =>
      var l := w.loops[c.sched];
      SetLoop(w, c.sched, l.(current := Some(c), todo := l.todo - {c}))
    case NextPhase(k) =>
      var l := w.loops[k];
      SetLoop(w, k, if l.phase == RunningResumed then l.(phase := RunningYielding, todo := Snapshot(w, k, Yielding))
                    else l.(phase := Waking))
  }

  /** The first half of parking: an entry for the running coroutine is pushed somewhere. */
  function Enlist(w: World, c: Co): World
    requires c in w.cos
  {
    SetInfo(w, c, w.cos[c].(entries := w.cos[c].entries + 1, enlisted := true))
  }

  /** The second half of parking: the coroutine suspends itself. */
  function Park(w: World, c: Co): World
    requires Running(w, c)
  {
    SwitchBack(w, c, w.cos[c].(place := Suspended, enlisted := false))
  }

  /** An entry is popped from its wait queue and the resume of its coroutine is posted. */
  function Wake(w: World, c: Co): World
    requires c in w.cos && w.cos[c].entries > 0
  {
    SetInfo(w, c, w.cos[c].(entries := w.cos[c].entries - 1, posted := w.cos[c].posted + 1))
  }

  // ----- the invariant

  /** How many ways there are to wake the coroutine. */
  function Tokens(i: Info): nat {
    i.entries + i.asleep + i.due + i.posted
  }

  /** The coroutine is parked, asleep, or on its way to park. */
  predicate Awaiting(i: Info) {
    i.enlisted || i.place == Suspended
  }

  function RunPlace(l: Loop): Place {
    if l.phase == RunningResumed then Resumed else Yielding
  }

  ghost predicate CoInv(w: World, c: Co, i: Info) {
    && Tokens(i) == (if Awaiting(i) then 1 else 0)
    && (i.enlisted ==> Running(w, c))
    && c.sched in w.loops
    && (i.place == Resumed ==>
          var l := w.loops[c.sched];
          l.phase == RunningResumed && (c in l.todo || l.current == Some(c)))
  }

  ghost predicate LoopInv(w: World, k: nat, l: Loop) {
    && (forall c | c in l.todo :: c.sched == k && c in w.cos && w.cos[c].place == RunPlace(l))
    && (l.current.Some? ==>
          var c := l.current.value;
          c.sched == k && c in w.cos && w.cos[c].place == RunPlace(l) && c !in l.todo)
    && (l.phase in {Waking, Posting} ==> l.current == None && l.todo == {})
  }

  ghost predicate Inv(w: World) {
    && (forall k | k in w.loops :: LoopInv(w, k, w.loops[k]))
    && (forall c | c in w.cos :: CoInv(w, c, w.cos[c]))
  }

  // ----- every step keeps it

  lemma SwitchBackKeepsInv(w: World, c: Co, i: Info)
    requires Inv(w) && Running(w, c) && !i.enlisted && i.place != Resumed
    requires Tokens(i) == (if i.place == Suspended then 1 else 0)
    ensures Inv(SwitchBack(w, c, i))
  {
  }

  lemma SetInfoKeepsInv(w: World, c: Co, i: Info)
    requires Inv(w) && c in w.cos && Tokens(i) == Tokens(w.cos[c])
    requires i.enlisted == w.cos[c].enlisted && (i.place == w.cos[c].place || (w.cos[c].place == Free && i.place == Yielding))
    ensures Inv(SetInfo(w, c, i))
  {
  }

  lemma DrainKeepsInv(w: World, k: nat)
    requires Inv(w) && Enabled(w, Drain(k))
    ensures Inv(Apply(w, Drain(k)))
  {
  }

  lemma SetLoopKeepsInv(w: World, k: nat, l: Loop)
    requires Inv(w) && k in w.loops && LoopInv(w, k, l)
    requires forall c | c in w.cos && c.sched == k && w.cos[c].place == Resumed ::
      l.phase == RunningResumed && (c in l.todo || l.current == Some(c))
    requires l.current == w.loops[k].current || w.loops[k].current == None
    ensures Inv(SetLoop(w, k, l))
  {
  }

  lemma StepKeepsInv(w: World, step: Step)
    requires Inv(w) && Enabled(w, step)
    ensures Inv(Apply(w, step))
  {
    if step.SleepersPopped? || step.Drain? || step.Dispatch? || step.NextPhase? {
      LoopStepKeepsInv(w, step);
    } else {
      InfoStepKeepsInv(w, step);
    }
  }

  lemma InfoStepKeepsInv(w: World, step: Step)
    requires Inv(w) && Enabled(w, step)
    requires Stops(step) || step.Add? || step.PopSleeper? || step.PostExpired?
    ensures Inv(Apply(w, step))
  {
    var c := step.c;
    var i := Apply(w, step).cos[c];
    if Stops(step) {
      assert CoInv(w, c, w.cos[c]) && LoopInv(w, c.sched, w.loops[c.sched]);
      hide CoInv, LoopInv;
      SwitchBackKeepsInv(w, c, i);
    } else {
      hide CoInv, LoopInv;
      SetInfoKeepsInv(w, c, i);
    }
  }

  lemma LoopStepKeepsInv(w: World, step: Step)
    requires Inv(w) && Enabled(w, step)
    requires step.SleepersPopped? || step.Drain? || step.Dispatch? || step.NextPhase?
    ensures Inv(Apply(w, step))
  {
    match step
    case Drain(k) => DrainKeepsInv(w, k);
    case Dispatch(c) => SetLoopKeepsInv(w, c.sched, Apply(w, step).loops[c.sched]);
    case SleepersPopped(k) => SetLoopKeepsInv(w, k, Apply(w, step).loops[k]);
    case NextPhase(k) => SetLoopKeepsInv(w, k, Apply(w, step).loops[k]);
  }

  /** A step of a scheduler or of a coroutine outside any wait touches no wait-queue entry, and
      stops at most the coroutine that takes it; a suspended coroutine can only be drained. */
  ghost predicate Frame(w: World, step: Step, u: World) {
    && u.cos.Keys == w.cos.Keys
    && (forall c | c in w.cos :: SameEntries(w.cos[c], u.cos[c]))
    && (forall c | c in w.cos && !(Stops(step) && step.c == c) :: StillWaits(w.cos[c], u.cos[c]))
    && (forall c | Running(w, c) && !(Stops(step) && step.c == c) :: Running(u, c))
  }

  lemma StepFrame(w: World, step: Step)
    requires Inv(w) && Enabled(w, step)
    ensures Frame(w, step, Apply(w, step))
  {
    hide Frame, Inv, Apply;
    match step
    case Yield(_) => StopFrame(w, step);
    case Sleep(_) => StopFrame(w, step);
    case End(_) => StopFrame(w, step);
    case Add(_) => InfoFrame(w, step);
    case PopSleeper(_) => InfoFrame(w, step);
    case PostExpired(_) => InfoFrame(w, step);
    case Drain(_) => LoopFrame(w, step);
    case Dispatch(_) => LoopFrame(w, step);
    case SleepersPopped(_) => LoopFrame(w, step);
    case NextPhase(_) => LoopFrame(w, step);
  }

  lemma StopFrame(w: World, step: Step)
    requires Inv(w) && Enabled(w, step) && Stops(step)
    ensures Frame(w, step, Apply(w, step))
  {
    hide CoInv;
  }

  lemma InfoFrame(w: World, step: Step)
    requires Inv(w) && Enabled(w, step) && (step.Add? || step.PopSleeper? || step.PostExpired?)
    ensures Frame(w, step, Apply(w, step))
  {
    assert CoInv(w, step.c, w.cos[step.c]);
    hide CoInv, LoopInv;
  }

  lemma LoopFrame(w: World, step: Step)
    requires Inv(w) && Enabled(w, step) && (step.Drain? || step.Dispatch? || step.SleepersPopped? || step.NextPhase?)
    ensures Frame(w, step, Apply(w, step))
  {
    hide CoInv;
  }

  predicate SameEntries(i: Info, j: Info) {
    i.entries == j.entries && i.enlisted == j.enlisted
  }

  predicate NoSleep(i: Info) {
    i.asleep == 0 && i.due == 0
  }

  predicate StillWaits(i: Info, j: Info) {
    && (NoSleep(i) ==> NoSleep(j))
    && (i.place in {Suspended, Resumed} ==> j.place in {i.place, Resumed})
  }

  /** The step is taken by a running coroutine, which it stops. */
  predicate Stops(step: Step) {
    step.Yield? || step.Sleep? || step.End?
  }

  lemma ParkKeepsInv(w: World, c: Co)
    requires Inv(w) && c in w.cos && w.cos[c].enlisted
    ensures Running(w, c) && Inv(Park(w, c))
  {
  }

  lemma EnlistKeepsInv(w: World, c: Co)
    requires Inv(w) && Running(w, c) && !w.cos[c].enlisted
    ensures w.cos[c].entries == 0 && Inv(Enlist(w, c))
  {
  }

  lemma RunningHasNoToken(w: World, c: Co)
    requires Inv(w) && Running(w, c) && !w.cos[c].enlisted
    ensures Tokens(w.cos[c]) == 0 && w.cos[c].place in {Yielding, Resumed}
  {
    assert LoopInv(w, c.sched, w.loops[c.sched]);
  }

  lemma WakeKeepsInv(w: World, c: Co)
    requires Inv(w) && c in w.cos && w.cos[c].entries > 0
    ensures Inv(Wake(w, c))
  {
  }

  /** When the resume queue is drained, every coroutine in it is in the suspend list, and no
      coroutine is in it twice: no wake-up is lost and none is duplicated. */
  lemma DrainFindsSuspended(w: World, k: nat)
    requires Inv(w) && LoopAt(w, k, Posting)
    ensures forall c | c in w.cos && c.sched == k && w.cos[c].posted > 0 ::
      w.cos[c].posted == 1 && w.cos[c].place == Suspended
  {
  }

  // ----- runs

  /** What happens to the coroutines and their schedulers, the two halves of a wait and its wake-up
      included. */
  datatype Act = Take(step: Step) | EnlistBy(c: Co) | ParkBy(c: Co) | WakeOf(c: Co)

  predicate Can(w: World, act: Act) {
    match act
    case Take(step) => Enabled(w, step)
    case EnlistBy(c) => Running(w, c) && !w.cos[c].enlisted
    case ParkBy(c) => Running(w, c) && w.cos[c].enlisted
    case WakeOf(c) => c in w.cos && w.cos[c].entries > 0
  }

  function Done(w: World, act: Act): World
    requires Can(w, act)
  {
    match act
    case Take(step) => Apply(w, step)
    case EnlistBy(c) => Enlist(w, c)
    case ParkBy(c) => Park(w, c)
    case WakeOf(c) => Wake(w, c)
  }

  lemma ActKeepsInv(w: World, act: Act)
    requires Inv(w) && Can(w, act)
    ensures Inv(Done(w, act))
  {
    hide Inv, Apply, Enabled;
    match act
    case Take(step) => StepKeepsInv(w, step);
    case EnlistBy(c) => EnlistKeepsInv(w, c);
    case ParkBy(c) => ParkKeepsInv(w, c);
    case WakeOf(c) => WakeKeepsInv(w, c);
  }

  /** Something the scheduler of `c` has still to do in this phase: `c` is in its snapshot. */
  predicate Due(w: World, c: Co) {
    && c.sched in w.loops && c in w.loops[c.sched].todo
    && w.loops[c.sched].phase in {RunningResumed, RunningYielding}
  }

  /** A coroutine of a snapshot stays in it until it is dispatched. */
  lemma StaysDue(w: World, act: Act, c: Co)
    requires Can(w, act) && Due(w, c) && act != Take(Dispatch(c))
    ensures Due(Done(w, act), c)
  {
  }

  function Next(w: World, act: Act): Option<World> {
    if Can(w, act) then Some(Done(w, act)) else None
  }

  lemma RunKeepsInv(w: World, run: seq<Act>)
    requires Inv(w) && Runs(Next, w, run)
    ensures Inv(Exec(Next, w, run))
  {
    forall t, act | Inv(t) && Next(t, act).Some? ensures Inv(Next(t, act).value) {
      ActKeepsInv(t, act);
    }
    Invariant(Next, Inv, w, run);
  }

  lemma {:induction false} DispatchedOrDue(w: World, run: seq<Act>, c: Co)
    requires Runs(Next, w, run) && Due(w, c)
    ensures Take(Dispatch(c)) in run || Due(Exec(Next, w, run), c)
    decreases |run|
  {
    hide Due, Can, Done;
    if run != [] && run[0] != Take(Dispatch(c)) {
      StaysDue(w, run[0], c);
      DispatchedOrDue(Done(w, run[0]), run[1..], c);
      assert run == [run[0]] + run[1..];
    }
  }

  /** Every coroutine whose resume is posted when its scheduler drains the queue is switched to before
      the scheduler goes on to the coroutines that have yielded. */
  lemma DrainedIsDispatched(w: World, k: nat, run: seq<Act>, c: Co)
    requires Enabled(w, Drain(k)) && c in w.cos && c.sched == k && w.cos[c].posted > 0
    requires Runs(Next, Apply(w, Drain(k)), run) && Enabled(Exec(Next, Apply(w, Drain(k)), run), NextPhase(k))
    ensures Take(Dispatch(c)) in run
  {
    assert Due(Apply(w, Drain(k)), c);
    DispatchedOrDue(Apply(w, Drain(k)), run, c);
  }
}
