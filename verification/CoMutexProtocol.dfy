/**
 `CoMutex` used by coroutines of any number of schedulers, every atomic step of `lock` and
 `unlock` on its own: the unguarded compare-and-swap, taking `mtx_`, the second compare-and-swap,
 the push, releasing `mtx_`, suspending, being resumed, taking `mtx_` again.
 */
module CoMutexProtocol {
  import opened Options
  import opened Systems
  import opened CoroLists
  import opened Parking
  import opened Monitor

  /** Where a coroutine stands. `Idle` is outside, `Crit` between `lock` and `unlock`.
      `lock` goes through Slow (first swap failed), Retry (holds `mtx_`), then Got, or ToWait,
      Waiting and Back; `unlock` through UnlWant, UnlIn (holds `mtx_`) and UnlOut. */
  datatype Pc = Idle | Slow | Retry | Got | ToWait | Waiting | Back | Crit | UnlWant | UnlIn | UnlOut

  datatype Sys = Sys(m: Mon, isLock: bool, pc: map<Co, Pc>)

  datatype Move =
    | FastCas(c: Co)
    | EnterLock(c: Co)
    | RetryCas(c: Co)
    | ExitLock(c: Co)
    | PushWaiter(c: Co)
    | ReleaseMtx(c: Co)
    | SuspendSelf(c: Co)
    | RetakeMtx(c: Co)
    | ExitWait(c: Co)
    | CallUnlock(c: Co)
    | EnterUnlock(c: Co)
    | HandOff(c: Co)
    | ExitUnlock(c: Co)
    | Around(step: Step)

  /** `setLock`: the new value of `isLock_` after a compare-and-swap from `!v` to `v`. */
  function SetLock(isLock: bool, v: bool): bool {
    if isLock == !v then v else isLock
  }

  predicate AtPc(s: Sys, c: Co, p: Pc) {
    c in s.pc && s.pc[c] == p && CanRun(s.m, Cor(c))
  }

  /** What a move does to the monitor, if anything. */
  function ActionOf(s: Sys, mv: Move): Option<Action> {
    match mv
    case EnterLock(c) => Some(Enter(Cor(c)))
    case ExitLock(c) => Some(Exit(Cor(c)))
    case PushWaiter(c) => Some(Push(c))
    case ReleaseMtx(c) => Some(Release(c))
    case SuspendSelf(c) => Some(Suspend(c))
    case RetakeMtx(c) => Some(Retake(Cor(c)))
    case ExitWait(c) => Some(Exit(Cor(c)))
    case EnterUnlock(c) => Some(Enter(Cor(c)))
    case HandOff(c) => if s.m.queue != [] then Some(NotifyCo(Cor(c))) else None
    case ExitUnlock(c) => Some(Exit(Cor(c)))
    case Around(step) => Some(Sched(step))
    case _ => None
  }

  /** The place in the code a coroutine must be at for a move, and the one it goes to. */
  function From(mv: Move): Pc
    requires !mv.Around?
  {
    match mv
    case FastCas(_) => Idle
    case EnterLock(_) => Slow
    case RetryCas(_) => Retry
    case ExitLock(_) => Got
    case PushWaiter(_) => ToWait
    case ReleaseMtx(_) => Waiting
    case SuspendSelf(_) => Waiting
    case RetakeMtx(_) => Waiting
    case ExitWait(_) => Back
    case CallUnlock(_) => Crit
    case EnterUnlock(_) => UnlWant
    case HandOff(_) => UnlIn
    case ExitUnlock(_) => UnlOut
  }

  function To(s: Sys, mv: Move): Pc
    requires !mv.Around?
  {
    match mv
    case FastCas(_) => if s.isLock then Slow else Crit
    case EnterLock(_) => Retry
    case RetryCas(_) => if s.isLock then ToWait else Got
    case ExitLock(_) => Crit
    case PushWaiter(_) => Waiting
    case ReleaseMtx(_) => Waiting
    case SuspendSelf(_) => Waiting
    case RetakeMtx(_) => Back
    case ExitWait(_) => Crit
    case CallUnlock(_) => UnlWant
    case EnterUnlock(_) => UnlIn
    case HandOff(_) => UnlOut
    case ExitUnlock(_) => Idle
  }

  predicate Enabled(s: Sys, mv: Move) {
    && (ActionOf(s, mv).Some? ==> Monitor.Enabled(s.m, ActionOf(s, mv).value))
    && if mv.Around? then
         // between lock and unlock a coroutine may yield or sleep, but not end
         Stops(mv.step) ==> mv.step.c in s.pc && (s.pc[mv.step.c] == Idle || (s.pc[mv.step.c] == Crit && !mv.step.End?))
       else
         AtPc(s, mv.c, From(mv))
  }

  function Apply(s: Sys, mv: Move): Sys
    requires Enabled(s, mv)
  {
    var m := match ActionOf(s, mv) case Some(act) => Monitor.Apply(s.m, act) case None => s.m;
    if mv.Around? then s.(m := m)
    else
      var isLock :=
        if mv.FastCas? || mv.RetryCas? then SetLock(s.isLock, true)
        else if mv.HandOff? && s.m.queue == [] then SetLock(s.isLock, false)
        else s.isLock;
      Sys(m, isLock, s.pc[mv.c := To(s, mv)])
  }

  // ----- mutual exclusion

  /** `c` owns the lock: it is in the critical section, or on its way in or out of it, or it has
      been handed the lock by an `unlock` and is not back from `lock` yet. */
  ghost predicate Owner(s: Sys, c: Co) {
    && c in s.pc
    && (s.pc[c] in {Got, Crit, UnlWant, UnlIn} || (s.pc[c] in {Waiting, Back} && c !in s.m.queue))
  }

  predicate PcAgrees(p: Pc, st: Stage) {
    if p in {Retry, Got, ToWait, Back, UnlIn, UnlOut} then st == Inside
    else if p == Waiting then st in {Enlisted, Leaving, Parked}
    else st == Out
  }

  ghost predicate PcInv(s: Sys, c: Co, p: Pc) {
    && Cor(c) in s.m.stage && PcAgrees(p, s.m.stage[Cor(c)])
    && (p == ToWait ==> s.isLock)
    && (c in s.m.queue ==> p == Waiting)
  }

  ghost predicate Exclusive(s: Sys) {
    && (forall c, d | Owner(s, c) && Owner(s, d) :: c == d)
    && (s.isLock <==> exists c :: Owner(s, c))
    && (s.m.queue != [] ==> s.isLock)
  }

  ghost predicate Inv(s: Sys) {
    && Monitor.Inv(s.m)
    && (forall c | c in s.pc :: PcInv(s, c, s.pc[c]))
    && (forall c | c in s.m.queue :: c in s.pc)
    && Exclusive(s)
  }

  /** The part of the invariant about the code positions, apart from the monitor's own. */
  ghost predicate Positions(s: Sys) {
    && (forall c | c in s.pc :: PcInv(s, c, s.pc[c]))
    && (forall c | c in s.m.queue :: c in s.pc)
  }

  /** Exactly the moves that find the lock free make their coroutine an owner; nobody else is
      affected by a move that leaves the queue alone. */
  lemma CasKeepsInv(s: Sys, mv: Move)
    requires Positions(s) && Exclusive(s) && Enabled(s, mv)
    requires mv.FastCas? || mv.RetryCas? || mv.CallUnlock?
    ensures Positions(Apply(s, mv)) && Exclusive(Apply(s, mv))
  {
    var s' := Apply(s, mv);
    assert mv.c !in s.m.queue;
    assert Owner(s', mv.c) <==> mv.CallUnlock? || !s.isLock;
    forall d | d != mv.c ensures Owner(s', d) == Owner(s, d) { }
    if mv.CallUnlock? {
      assert Owner(s, mv.c);
    } else if s.isLock {
      assert !Owner(s, mv.c);
      var o :| Owner(s, o);
      assert Owner(s', o);
    }
  }

  /** The moves of a coroutine that change neither the lock nor the queue: its role stays. */
  lemma SameOwners(s: Sys, s': Sys, c: Co)
    requires Positions(s) && Exclusive(s) && c in s.pc
    requires s'.m.queue == s.m.queue && s'.isLock == s.isLock && s'.pc.Keys == s.pc.Keys
    requires s'.m.stage.Keys == s.m.stage.Keys
    requires forall d | d in s.pc && d != c :: s'.pc[d] == s.pc[d] && s'.m.stage[Cor(d)] == s.m.stage[Cor(d)]
    requires PcInv(s', c, s'.pc[c]) && Owner(s', c) == Owner(s, c)
    ensures Positions(s') && Exclusive(s')
  {
    forall d ensures Owner(s', d) == Owner(s, d) { }
    forall d | d in s'.pc ensures PcInv(s', d, s'.pc[d]) {
      assert PcInv(s, d, s.pc[d]);
    }
  }

  lemma EnterKeepsInv(s: Sys, mv: Move)
    requires Positions(s) && Exclusive(s) && Enabled(s, mv)
    requires mv.EnterLock? || mv.EnterUnlock? || (mv.RetakeMtx? && mv.c !in s.m.queue)
    ensures Positions(Apply(s, mv)) && Exclusive(Apply(s, mv))
  {
    assert PcInv(s, mv.c, s.pc[mv.c]);
    SameOwners(s, Apply(s, mv), mv.c);
  }

  lemma ExitKeepsInv(s: Sys, mv: Move)
    requires Positions(s) && Exclusive(s) && Enabled(s, mv)
    requires mv.ExitLock? || mv.ExitWait? || mv.ExitUnlock?
    ensures Positions(Apply(s, mv)) && Exclusive(Apply(s, mv))
  {
    assert PcInv(s, mv.c, s.pc[mv.c]);
    SameOwners(s, Apply(s, mv), mv.c);
  }

  lemma LeaveKeepsInv(s: Sys, mv: Move)
    requires Positions(s) && Exclusive(s) && Enabled(s, mv)
    requires mv.ReleaseMtx? || mv.SuspendSelf?
    ensures Positions(Apply(s, mv)) && Exclusive(Apply(s, mv))
  {
    assert PcInv(s, mv.c, s.pc[mv.c]);
    SameOwners(s, Apply(s, mv), mv.c);
  }

  lemma PushWaiterKeepsInv(s: Sys, c: Co)
    requires Positions(s) && Exclusive(s) && Enabled(s, PushWaiter(c)) && c !in s.m.queue
    ensures Positions(Apply(s, PushWaiter(c))) && Exclusive(Apply(s, PushWaiter(c)))
  {
    var s' := Apply(s, PushWaiter(c));
    assert s.isLock;
    assert forall d :: Owner(s', d) == Owner(s, d);
  }

  lemma HandOffKeepsInv(s: Sys, c: Co)
    requires Positions(s) && Exclusive(s) && Enabled(s, HandOff(c))
    requires s.m.queue != [] ==> s.m.queue[0] !in s.m.queue[1..]
    requires forall d | At(s.m, Cor(d), Inside) :: d == c
    ensures Positions(Apply(s, HandOff(c))) && Exclusive(Apply(s, HandOff(c)))
    ensures s.m.queue != [] ==> Owner(Apply(s, HandOff(c)), s.m.queue[0])
  {
    var s' := Apply(s, HandOff(c));
    assert Owner(s, c);
    forall d ensures Owner(s', d) <==> s.m.queue != [] && d == s.m.queue[0] {
      if d != c && Owner(s, d) { assert false; }
      assert PcInv(s, c, s.pc[c]);
    }
    if s.m.queue != [] {
      assert Owner(s', s.m.queue[0]);
    }
    forall d | d in s'.pc ensures PcInv(s', d, s'.pc[d]) {
      assert PcInv(s, d, s.pc[d]);
    }
  }

  lemma AroundKeepsInv(s: Sys, step: Step)
    requires Positions(s) && Exclusive(s) && Enabled(s, Around(step))
    ensures Positions(Apply(s, Around(step))) && Exclusive(Apply(s, Around(step)))
  {
    var s' := Apply(s, Around(step));
    assert s'.m.queue == s.m.queue && s'.m.stage == s.m.stage;
    assert forall d :: Owner(s', d) == Owner(s, d);
  }

  lemma OneInside(s: Sys, c: Co)
    requires Inv(s) && Enabled(s, HandOff(c))
    ensures forall d | At(s.m, Cor(d), Inside) :: d == c
    ensures s.m.queue != [] ==> s.m.queue[0] !in s.m.queue[1..]
  {
    forall d | At(s.m, Cor(d), Inside) ensures d == c {
      assert AgentInv(s.m, Cor(d), Inside) && PcInv(s, c, UnlIn) && AgentInv(s.m, Cor(c), Inside);
    }
  }

  /** Every step keeps mutual exclusion and everything it rests on. */
  lemma MoveKeepsInv(s: Sys, mv: Move)
    requires Inv(s) && Enabled(s, mv)
    ensures Inv(Apply(s, mv))
  {
    hide Monitor.Apply, Monitor.Sync, Parking.Inv;
    if ActionOf(s, mv).Some? { ActionKeepsInv(s.m, ActionOf(s, mv).value); }
    match mv
    case PushWaiter(c) =>
      PushFindsNoEntry(s.m, c);
      PushWaiterKeepsInv(s, c);
    case HandOff(c) =>
      OneInside(s, c);
      HandOffKeepsInv(s, c);
    case Around(step) => AroundKeepsInv(s, step);
    case RetakeMtx(c) =>
      RunningIsNotQueued(s.m, c);
      EnterKeepsInv(s, mv);
    case FastCas(_) => CasKeepsInv(s, mv);
    case RetryCas(_) => CasKeepsInv(s, mv);
    case CallUnlock(_) => CasKeepsInv(s, mv);
    case EnterLock(_) => EnterKeepsInv(s, mv);
    case EnterUnlock(_) => EnterKeepsInv(s, mv);
    case ReleaseMtx(_) => LeaveKeepsInv(s, mv);
    case SuspendSelf(_) => LeaveKeepsInv(s, mv);
    case _ => ExitKeepsInv(s, mv);
  }

  // ----- whole runs

  ghost predicate Initial(s: Sys) {
    && Monitor.Inv(s.m) && s.m.queue == [] && s.m.mtx == None && !s.isLock
    && (forall a | a in s.m.stage :: s.m.stage[a] == Out)
    && (forall c | c in s.pc :: Cor(c) in s.m.stage && s.pc[c] == Idle)
  }

  ghost function Next(s: Sys, mv: Move): Option<Sys> {
    if Enabled(s, mv) then Some(Apply(s, mv)) else None
  }

  lemma RunKeepsInv(s: Sys, run: seq<Move>)
    requires Inv(s) && Runs(Next, s, run)
    ensures Inv(Exec(Next, s, run))
  {
    hide Inv, Enabled, Apply;
    forall t, mv | Inv(t) && Next(t, mv).Some? ensures Inv(Next(t, mv).value) {
      MoveKeepsInv(t, mv);
    }
    Invariant(Next, Inv, s, run);
  }

  lemma InitialInv(s: Sys)
    requires Initial(s)
    ensures Inv(s)
  {
    assert forall c :: !Owner(s, c);
  }

  /** In every reachable state at most one coroutine is between `lock` and `unlock`, `isLock_`
      is true exactly when there is an owner, and a non-empty queue implies it. */
  lemma MutualExclusion(s: Sys, run: seq<Move>)
    requires Initial(s) && Runs(Next, s, run)
    ensures var e := Exec(Next, s, run);
      && (forall c, d | c in e.pc && d in e.pc && e.pc[c] == Crit && e.pc[d] == Crit :: c == d)
      && (e.isLock <==> exists c :: Owner(e, c))
      && (e.m.queue != [] ==> e.isLock)
  {
    InitialInv(s);
    RunKeepsInv(s, run);
    var e := Exec(Next, s, run);
    assert forall c | c in e.pc && e.pc[c] == Crit :: Owner(e, c);
  }

  /** No wake-up is lost: in every reachable state the coroutines about to be drained by a
      scheduler are all suspended, each with one resume posted, and a coroutine that was handed
      the lock comes back. */
  lemma NoLostWakeup(s: Sys, run: seq<Move>)
    requires Initial(s) && Runs(Next, s, run)
    ensures var e := Exec(Next, s, run);
      && (forall k, c | LoopAt(e.m.w, k, Posting) && c in e.m.w.cos && c.sched == k && e.m.w.cos[c].posted > 0 ::
            e.m.w.cos[c].posted == 1 && e.m.w.cos[c].place == Suspended)
      && (forall c | c in e.pc && e.pc[c] == Waiting && c !in e.m.queue :: ComesBack(e.m, c))
  {
    InitialInv(s);
    RunKeepsInv(s, run);
    var e := Exec(Next, s, run);
    forall k | LoopAt(e.m.w, k, Posting)
      ensures forall c | c in e.m.w.cos && c.sched == k && e.m.w.cos[c].posted > 0 ::
        e.m.w.cos[c].posted == 1 && e.m.w.cos[c].place == Suspended
    {
      DrainFindsSuspended(e.m.w, k);
    }
    forall c | c in e.pc && e.pc[c] == Waiting && c !in e.m.queue
      ensures ComesBack(e.m, c)
    {
      assert PcInv(e, c, Waiting) && AgentInv(e.m, Cor(c), e.m.stage[Cor(c)]);
      NotifiedComesBack(e.m, c);
    }
  }

  // ----- first in, first out

  /** The coroutines pushed during a run, in order. */
  ghost function Pushed(run: seq<Move>): seq<Co> {
    if run == [] then []
    else (if run[0].PushWaiter? then [run[0].c] else []) + Pushed(run[1..])
  }

  /** The number of `unlock` calls that reach their hand-over during a run. */
  ghost function Unlocks(run: seq<Move>): nat {
    if run == [] then 0 else (if run[0].HandOff? then 1 else 0) + Unlocks(run[1..])
  }

  /** The coroutines that become owners during a run, in order: by a successful swap on either
      path, or handed the lock by an `unlock`. */
  ghost function Acquired(s: Sys, run: seq<Move>): seq<Co>
    requires Runs(Next, s, run)
    decreases |run|
  {
    if run == [] then []
    else
      (if (run[0].FastCas? || run[0].RetryCas?) && !s.isLock then [run[0].c]
       else if run[0].HandOff? && s.m.queue != [] then [s.m.queue[0]]
       else [])
      + Acquired(Apply(s, run[0]), run[1..])
  }

  lemma QueueStep(s: Sys, mv: Move)
    requires Enabled(s, mv)
    ensures Apply(s, mv).m.queue ==
      (if mv.HandOff? && s.m.queue != [] then s.m.queue[1..]
       else if mv.PushWaiter? then s.m.queue + [mv.c] else s.m.queue)
    ensures s.isLock && (mv.HandOff? ==> s.m.queue != []) ==> Apply(s, mv).isLock
  {
  }

  /** The coroutines that an `unlock` hands the lock to during a run, in order. */
  ghost function Handed(s: Sys, run: seq<Move>): seq<Co>
    requires Runs(Next, s, run)
    decreases |run|
  {
    if run == [] then []
    else (if run[0].HandOff? && s.m.queue != [] then [s.m.queue[0]] else []) + Handed(Apply(s, run[0]), run[1..])
  }

  /** First in, first out over any run: those handed the lock, followed by those still queued, are
      those queued at the start, followed by those pushed. */
  lemma {:induction false} HandedInOrder(s: Sys, run: seq<Move>)
    requires Runs(Next, s, run)
    ensures Handed(s, run) + Exec(Next, s, run).m.queue == s.m.queue + Pushed(run)
    decreases |run|
  {
    hide Apply, Enabled;
    if run != [] {
      var t := Apply(s, run[0]);
      HandedInOrder(t, run[1..]);
      assert Next(s, run[0]) == Some(t);
      assert Exec(Next, s, run) == Exec(Next, t, run[1..]);
      HandedStep(s, run[0], Handed(t, run[1..]), Exec(Next, t, run[1..]).m.queue, Pushed(run[1..]));
    }
  }

  /** One move before a run that hands the lock to `h`, pushes `p` and leaves `e` queued. */
  lemma HandedStep(s: Sys, mv: Move, h: seq<Co>, e: seq<Co>, p: seq<Co>)
    requires Enabled(s, mv) && h + e == Apply(s, mv).m.queue + p
    ensures (if mv.HandOff? && s.m.queue != [] then [s.m.queue[0]] else []) + h + e ==
      s.m.queue + ((if mv.PushWaiter? then [mv.c] else []) + p)
  {
    hide Apply, Enabled;
    QueueStep(s, mv);
    var q := s.m.queue;
    if mv.HandOff? && q != [] {
      assert [q[0]] + h + e == [q[0]] + (h + e) == [q[0]] + (q[1..] + p) == q + p;
      assert [] + p == p;
    } else if mv.PushWaiter? {
      assert q + [mv.c] + p == q + ([mv.c] + p);
      assert [] + h == h;
    } else {
      assert [] + h == h && [] + p == p;
    }
  }

  /** While the lock is held and nobody unlocks more often than there are waiters, only a hand-over
      makes an owner. */
  lemma {:induction false} NoBarging(s: Sys, run: seq<Move>)
    requires Runs(Next, s, run) && s.isLock && Unlocks(run) <= |s.m.queue|
    ensures Acquired(s, run) == Handed(s, run) && |Handed(s, run)| == Unlocks(run)
    ensures Exec(Next, s, run).isLock
    decreases |run|
  {
    hide Apply, Enabled;
    if run != [] {
      QueueStep(s, run[0]);
      NoBarging(Apply(s, run[0]), run[1..]);
    }
  }

  /** Over any run that starts with the lock held and makes no more `unlock` calls than there
      are queued coroutines, ownership goes to exactly those coroutines, in the order they were
      pushed: no swap succeeds in between. The queue left is the rest, then whoever was pushed. */
  lemma FifoNoBarging(s: Sys, run: seq<Move>)
    requires Runs(Next, s, run) && s.isLock && Unlocks(run) <= |s.m.queue|
    ensures Acquired(s, run) == s.m.queue[..Unlocks(run)]
    ensures Exec(Next, s, run).isLock
    ensures Exec(Next, s, run).m.queue == s.m.queue[Unlocks(run)..] + Pushed(run)
  {
    NoBarging(s, run);
    HandedInOrder(s, run);
    var q, h, n := s.m.queue, Handed(s, run), Unlocks(run);
    assert h == (q + Pushed(run))[..n] == q[..n];
    assert (h + Exec(Next, s, run).m.queue)[n..] == (q + Pushed(run))[n..] == q[n..] + Pushed(run);
  }

  /** A queued coroutine with `k` entries ahead of it becomes the owner at exactly the next
      `unlock` after `k` further ones, and is not the owner before. */
  lemma TurnOfWaiter(s: Sys, run: seq<Move>, last: Move, k: nat)
    requires Inv(s) && Runs(Next, s, run) && k < |s.m.queue| && Unlocks(run) == k
    requires last.HandOff? && Enabled(Exec(Next, s, run), last)
    ensures !Owner(Exec(Next, s, run), s.m.queue[k])
    ensures Owner(Apply(Exec(Next, s, run), last), s.m.queue[k])
  {
    hide Apply, Enabled, Owner, Positions, Monitor.Inv;
    FifoNoBarging(s, run);
    RunKeepsInv(s, run);
    var e := Exec(Next, s, run);
    assert e.m.queue[0] == s.m.queue[k];
    NextInLine(e, last.c);
  }

  lemma NextInLine(s: Sys, c: Co)
    requires Inv(s) && s.m.queue != [] && Enabled(s, HandOff(c))
    ensures !Owner(s, s.m.queue[0]) && Owner(Apply(s, HandOff(c)), s.m.queue[0])
  {
    OneInside(s, c);
    HandOffKeepsInv(s, c);
    assert PcInv(s, s.m.queue[0], s.pc[s.m.queue[0]]);
  }

  // ----- the schedulers under a run

  ghost function View(s: Sys): World {
    s.m.w
  }

  ghost function Part(s: Sys, mv: Move): seq<Act> {
    match ActionOf(s, mv) case Some(act) => ActsOf(s.m, act) case None => []
  }

  lemma MoveIsActs(s: Sys, mv: Move)
    requires Inv(s) && Enabled(s, mv)
    ensures Runs(Parking.Next, s.m.w, Part(s, mv)) && Exec(Parking.Next, s.m.w, Part(s, mv)) == Apply(s, mv).m.w
  {
    hide Monitor.Apply, Monitor.Enabled, Monitor.Sync, Parking.Inv, ActsOf;
    if ActionOf(s, mv).Some? { ActionIsActs(s.m, ActionOf(s, mv).value); }
  }

  lemma RunIsActs(s: Sys, run: seq<Move>)
    requires Inv(s) && Runs(Next, s, run)
    ensures var acts := Project(Next, Part, s, run);
      Runs(Parking.Next, s.m.w, acts) && Exec(Parking.Next, s.m.w, acts) == Exec(Next, s, run).m.w
  {
    hide Inv, Enabled, Apply, Part;
    forall t, mv | Inv(t) && Next(t, mv).Some?
      ensures Inv(Next(t, mv).value) && Runs(Parking.Next, View(t), Part(t, mv))
      ensures Exec(Parking.Next, View(t), Part(t, mv)) == View(Next(t, mv).value)
    {
      MoveKeepsInv(t, mv);
      MoveIsActs(t, mv);
    }
    Projects(Next, Inv, View, Parking.Next, Part, s, run);
  }

  /** A coroutine whose resume is posted when its scheduler drains the queue is switched to before that
      scheduler goes on to the coroutines that have yielded, whatever else happens meanwhile. */
  lemma PostedIsDispatched(s: Sys, k: nat, run: seq<Move>, c: Co)
    requires Inv(s) && Enabled(s, Around(Drain(k)))
    requires c in s.m.w.cos && c.sched == k && s.m.w.cos[c].posted > 0
    requires Runs(Next, Apply(s, Around(Drain(k))), run)
    requires Enabled(Exec(Next, Apply(s, Around(Drain(k))), run), Around(NextPhase(k)))
    ensures Around(Dispatch(c)) in run
  {
    var t := Apply(s, Around(Drain(k)));
    var acts := Project(Next, Part, t, run);
    MoveKeepsInv(s, Around(Drain(k)));
    RunIsActs(t, run);
    AroundIsStep(s, Drain(k));
    AroundIsStep(Exec(Next, t, run), NextPhase(k));
    hide *;
    DrainedIsDispatched(s.m.w, k, acts, c);
    var u, i := ProjectHas(Next, Part, t, run, Take(Dispatch(c)));
    OnlyAroundTakes(u, run[i], Dispatch(c));
  }

  lemma AroundIsStep(s: Sys, step: Step)
    requires Enabled(s, Around(step))
    ensures Parking.Enabled(s.m.w, step) && Apply(s, Around(step)).m.w == Parking.Apply(s.m.w, step)
  {
    hide Parking.Enabled, Parking.Apply;
  }

  lemma OnlyAroundTakes(s: Sys, mv: Move, step: Step)
    requires Take(step) in Part(s, mv)
    ensures mv == Around(step)
  {
  }
}
