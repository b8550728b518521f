/**
 `Mutex` shared by threads and coroutines, every atomic step of `lock` and `unlock` on its own.
 A woken waiter competes with newcomers; threads wake spuriously; `notify_one` prefers
 coroutines to threads.
 */
module MutexProtocol {
  import opened Options
  import opened Systems
  import opened Parking
  import opened Monitor

  /** Where an agent stands. `lock` goes through LWant, LTest (holds `mtx_`, at the test of
      `isLock`), LWait (counted, about to wait), Waiting, LDec (back, about to uncount) and LGot;
      `unlock` through UWant, UClear, UNotify and UExit. */
  datatype Pc = Idle | LWant | LTest | LWait | Waiting | LDec | LGot | Crit | UWant | UClear | UNotify | UExit

  datatype Sys = Sys(m: Mon, isLock: bool, waitings: int, pc: map<Agent, Pc>)

  datatype Move =
    | CallLock(a: Agent)
    | EnterLock(a: Agent)
    | Test(a: Agent)
    | CondWait(a: Agent)
    | ReleaseMtx(a: Agent)
    | SuspendSelf(a: Agent)
    | SpuriousWake(a: Agent)
    | RetakeMtx(a: Agent)
    | Uncount(a: Agent)
    | ExitLock(a: Agent)
    | CallUnlock(a: Agent)
    | EnterUnlock(a: Agent)
    | Clear(a: Agent)
    | Notify(a: Agent, woken: Option<nat>)
    | ExitUnlock(a: Agent)
    | Around(step: Step)

  predicate AtPc(s: Sys, a: Agent, p: Pc) {
    a in s.pc && s.pc[a] == p && (p != Waiting ==> CanRun(s.m, a))
  }

  function From(mv: Move): Pc
    requires !mv.Around?
  {
    match mv
    case CallLock(_) => Idle
    case EnterLock(_) => LWant
    case Test(_) => LTest
    case CondWait(_) => LWait
    case ReleaseMtx(_) => Waiting
    case SuspendSelf(_) => Waiting
    case SpuriousWake(_) => Waiting
    case RetakeMtx(_) => Waiting
    case Uncount(_) => LDec
    case ExitLock(_) => LGot
    case CallUnlock(_) => Crit
    case EnterUnlock(_) => UWant
    case Clear(_) => UClear
    case Notify(_, _) => UNotify
    case ExitUnlock(_) => UExit
  }

  function To(s: Sys, mv: Move): Pc
    requires !mv.Around?
  {
    match mv
    case CallLock(_) => LWant
    case EnterLock(_) => LTest
    case Test(_) => if s.isLock then LWait else LGot
    case CondWait(_) => Waiting
    case ReleaseMtx(_) => Waiting
    case SuspendSelf(_) => Waiting
    case SpuriousWake(_) => Waiting
    case RetakeMtx(_) => LDec
    case Uncount(_) => LTest
    case ExitLock(_) => Crit
    case CallUnlock(_) => UWant
    case EnterUnlock(_) => UClear
    case Clear(_) => UNotify
    case Notify(_, _) => UExit
    case ExitUnlock(_) => Idle
  }

  /** What a move does to the monitor, if anything. Only coroutines release and suspend in two
      moves, only threads wake spuriously. */
  function ActionOf(s: Sys, mv: Move): Option<Action> {
    match mv
    case EnterLock(a) => Some(Enter(a))
    case CondWait(a) => Some(if a.Cor? then Push(a.co) else Block(a.id))
    case ReleaseMtx(a) => if a.Cor? then Some(Release(a.co)) else None
    case SuspendSelf(a) => if a.Cor? then Some(Suspend(a.co)) else None
    case SpuriousWake(a) => if a.Thr? then Some(Spurious(a.id)) else None
    case RetakeMtx(a) => Some(Retake(a))
    case ExitLock(a) => Some(Exit(a))
    case EnterUnlock(a) => Some(Enter(a))
    case Notify(a, woken) =>
      if s.waitings <= 0 then None
      else if s.m.queue != [] then Some(NotifyCo(a))
      else if woken.Some? then Some(NotifyThr(a, woken.value)) else None
    case ExitUnlock(a) => Some(Exit(a))
    case Around(step) => Some(Sched(step))
    case _ => None
  }

  ghost predicate Enabled(s: Sys, mv: Move) {
    && (ActionOf(s, mv).Some? ==> Monitor.Enabled(s.m, ActionOf(s, mv).value))
    && (mv.ReleaseMtx? || mv.SuspendSelf? ==> mv.a.Cor?)
    && (mv.SpuriousWake? ==> mv.a.Thr?)
    // a notify of the condition variable wakes a thread if one is blocked
    && (mv.Notify? && mv.woken == None ==> s.waitings <= 0 || s.m.queue != [] || forall t :: !At(s.m, Thr(t), Blocked))
    && if mv.Around? then
         Stops(mv.step) ==>
           var a := Cor(mv.step.c);
           a in s.pc && (s.pc[a] == Idle || (s.pc[a] == Crit && !mv.step.End?))
       else
         AtPc(s, mv.a, From(mv))
  }

  ghost function Apply(s: Sys, mv: Move): Sys
    requires Enabled(s, mv)
  {
    var m := match ActionOf(s, mv) case Some(act) => Monitor.Apply(s.m, act) case None => s.m;
    if mv.Around? then s.(m := m)
    else
      var isLock := if mv.Test? then true else if mv.Clear? then false else s.isLock;
      var waitings :=
        if mv.Test? && s.isLock then s.waitings + 1
        else if mv.Uncount? then s.waitings - 1
        else s.waitings;
      Sys(m, isLock, waitings, s.pc[mv.a := To(s, mv)])
  }

  // ----- the invariant

  ghost predicate Holder(s: Sys, a: Agent) {
    a in s.pc && s.pc[a] in {LGot, Crit, UWant, UClear}
  }

  /** The agent is on its way to look at `isLock`, or to notify whoever waits for it. */
  ghost predicate Rescuer(s: Sys, a: Agent) {
    && a in s.pc
    && (s.pc[a] in {LDec, LTest, UNotify} || (s.pc[a] == Waiting && !Queued(s.m, a)))
  }

  predicate Counted(p: Pc) {
    p in {LWait, Waiting, LDec}
  }

  function Waiters(pc: map<Agent, Pc>): set<Agent> {
    set a | a in pc && Counted(pc[a])
  }

  predicate PcAgrees(p: Pc, st: Stage) {
    if p in {LTest, LWait, LDec, LGot, UClear, UNotify, UExit} then st == Inside
    else if p == Waiting then WaitStage(st)
    else st == Out
  }

  ghost predicate PcInv(s: Sys, a: Agent, p: Pc) {
    && a in s.m.stage && PcAgrees(p, s.m.stage[a])
    && (p == LWait ==> s.isLock)
    && (Queued(s.m, a) ==> p == Waiting)
  }

  ghost predicate Positions(s: Sys) {
    && s.pc.Keys == s.m.stage.Keys
    && (forall a | a in s.pc :: PcInv(s, a, s.pc[a]))
    && (forall c | c in s.m.queue :: Cor(c) in s.pc)
  }

  ghost predicate Exclusive(s: Sys) {
    && (forall a, b | Holder(s, a) && Holder(s, b) :: a == b)
    && (s.isLock <==> exists a :: Holder(s, a))
  }

  /** Nobody is stranded: if the lock is free and somebody waits unnotified, somebody else is on
      the way. */
  ghost predicate Rescued(s: Sys) {
    !s.isLock && (exists a :: Queued(s.m, a)) ==> exists a :: Rescuer(s, a)
  }

  ghost predicate Inv(s: Sys) {
    Monitor.Inv(s.m) && Positions(s) && Exclusive(s) && Rescued(s) && s.waitings == |Waiters(s.pc)|
  }

  // ----- every move keeps it

  /** The frame of every move that leaves `isLock` and the set of unnotified waiters alone. */
  lemma QuietKeepsInv(s: Sys, t: Sys, a: Agent)
    requires Positions(s) && Exclusive(s) && Rescued(s) && a in s.pc
    requires t.m.queue == s.m.queue && t.isLock == s.isLock
    requires t.pc.Keys == s.pc.Keys && t.m.stage.Keys == s.m.stage.Keys
    requires forall b | b in s.pc && b != a :: t.pc[b] == s.pc[b] && t.m.stage[b] == s.m.stage[b]
    requires PcInv(t, a, t.pc[a]) && Holder(t, a) == Holder(s, a)
    requires Queued(t.m, a) ==> Queued(s.m, a)
    requires Rescuer(s, a) ==> Rescuer(t, a)
    ensures Positions(t) && Exclusive(t) && Rescued(t)
  {
    forall b | b != a
      ensures Holder(t, b) == Holder(s, b) && Queued(t.m, b) == Queued(s.m, b)
      ensures Rescuer(t, b) == Rescuer(s, b)
      ensures b in t.pc ==> PcInv(t, b, t.pc[b])
    {
      if b in s.pc { assert PcInv(s, b, s.pc[b]); }
    }
    if s.isLock {
      var h :| Holder(s, h);
      assert Holder(t, h);
    }
    if !t.isLock && exists b :: Queued(t.m, b) {
      var b :| Queued(t.m, b);
      assert Queued(s.m, b);
      var r :| Rescuer(s, r);
      assert Rescuer(t, r);
    }
  }

  lemma CountAfter(pc: map<Agent, Pc>, a: Agent, p: Pc)
    requires a in pc
    ensures |Waiters(pc[a := p])| == |Waiters(pc)| + (if Counted(p) then 1 else 0) - (if Counted(pc[a]) then 1 else 0)
  {
    var S, T := Waiters(pc), Waiters(pc[a := p]);
    assert a in S <==> Counted(pc[a]);
    assert a in T <==> Counted(p);
    assert S - {a} == T - {a} by {
      forall b | b != a ensures b in S <==> b in T { }
    }
    hide Waiters, Counted;
    SizeWithout(S, a);
    SizeWithout(T, a);
  }

  lemma SizeWithout<T>(s: set<T>, x: T)
    ensures |s| == |s - {x}| + (if x in s then 1 else 0)
  {
    if x in s { assert s == (s - {x}) + {x}; } else { assert s == s - {x}; }
  }

  lemma EnterKeepsInv(s: Sys, mv: Move)
    requires Positions(s) && Exclusive(s) && Rescued(s) && Enabled(s, mv)
    requires mv.EnterLock? || mv.EnterUnlock?
    ensures var t := Apply(s, mv); Positions(t) && Exclusive(t) && Rescued(t)
  {
    hide Exclusive, Rescued, Parking.Inv;
    assert PcInv(s, mv.a, s.pc[mv.a]);
    QuietKeepsInv(s, Apply(s, mv), mv.a);
  }

  lemma ExitKeepsInv(s: Sys, mv: Move)
    requires Positions(s) && Exclusive(s) && Rescued(s) && Enabled(s, mv)
    requires mv.ExitLock? || mv.ExitUnlock?
    ensures var t := Apply(s, mv); Positions(t) && Exclusive(t) && Rescued(t)
  {
    hide Exclusive, Rescued, Parking.Inv;
    assert PcInv(s, mv.a, s.pc[mv.a]);
    QuietKeepsInv(s, Apply(s, mv), mv.a);
  }

  lemma LocalKeepsInv(s: Sys, mv: Move)
    requires Positions(s) && Exclusive(s) && Rescued(s) && Enabled(s, mv)
    requires mv.CallLock? || mv.CallUnlock? || mv.Uncount?
    ensures var t := Apply(s, mv); Positions(t) && Exclusive(t) && Rescued(t)
  {
    hide Exclusive, Rescued, Parking.Inv;
    assert PcInv(s, mv.a, s.pc[mv.a]);
    QuietKeepsInv(s, Apply(s, mv), mv.a);
  }

  lemma LeaveKeepsInv(s: Sys, mv: Move)
    requires Positions(s) && Exclusive(s) && Rescued(s) && Enabled(s, mv)
    requires mv.ReleaseMtx? || mv.SuspendSelf?
    ensures var t := Apply(s, mv); Positions(t) && Exclusive(t) && Rescued(t)
  {
    hide Exclusive, Rescued, Parking.Inv;
    assert PcInv(s, mv.a, s.pc[mv.a]);
    QuietKeepsInv(s, Apply(s, mv), mv.a);
  }

  lemma BackKeepsInv(s: Sys, mv: Move)
    requires Positions(s) && Exclusive(s) && Rescued(s) && Enabled(s, mv)
    requires mv.SpuriousWake? || (mv.RetakeMtx? && !Queued(s.m, mv.a))
    ensures var t := Apply(s, mv); Positions(t) && Exclusive(t) && Rescued(t)
  {
    hide Exclusive, Rescued, Parking.Inv;
    assert PcInv(s, mv.a, s.pc[mv.a]);
    QuietKeepsInv(s, Apply(s, mv), mv.a);
  }

  lemma TestKeepsInv(s: Sys, a: Agent)
    requires Positions(s) && Exclusive(s) && Enabled(s, Test(a))
    ensures var t := Apply(s, Test(a)); Positions(t) && Exclusive(t) && Rescued(t)
  {
    hide Monitor.Apply, Monitor.Enabled, Rescuer;
    var t := Apply(s, Test(a));
    assert PcInv(s, a, s.pc[a]);
    forall b | b != a
      ensures Holder(t, b) == Holder(s, b)
      ensures b in t.pc ==> PcInv(t, b, t.pc[b])
    {
      if b in s.pc { assert PcInv(s, b, s.pc[b]); }
    }
    if s.isLock {
      var h :| Holder(s, h);
      assert Holder(t, h);
    } else {
      assert Holder(t, a);
    }
  }

  /** A waiter is added while the lock is held: there is nobody to strand. */
  lemma BeginWaitKeepsInv(s: Sys, t: Sys, a: Agent)
    requires Positions(s) && Exclusive(s) && s.isLock && t.isLock && a in s.pc && s.pc[a] == LWait
    requires t.pc == s.pc[a := Waiting] && t.m.stage.Keys == s.m.stage.Keys
    requires forall b | b in s.pc && b != a :: t.m.stage[b] == s.m.stage[b]
    requires WaitStage(t.m.stage[a])
    requires forall c | c in t.m.queue :: c in s.m.queue || Cor(c) == a
    ensures Positions(t) && Exclusive(t) && Rescued(t)
  {
    assert forall b :: Holder(t, b) == Holder(s, b);
    forall b | b in t.pc ensures PcInv(t, b, t.pc[b]) {
      assert PcInv(s, b, s.pc[b]);
    }
  }

  lemma CondWaitKeepsInv(s: Sys, a: Agent)
    requires Positions(s) && Exclusive(s) && Enabled(s, CondWait(a))
    ensures var t := Apply(s, CondWait(a)); Positions(t) && Exclusive(t) && Rescued(t)
  {
    assert PcInv(s, a, s.pc[a]);
    BeginWaitKeepsInv(s, Apply(s, CondWait(a)), a);
  }

  lemma ClearKeepsInv(s: Sys, a: Agent)
    requires Positions(s) && Exclusive(s) && Enabled(s, Clear(a))
    requires forall b | At(s.m, b, Inside) :: b == a
    ensures var t := Apply(s, Clear(a)); Positions(t) && Exclusive(t) && Rescued(t)
  {
    var t := Apply(s, Clear(a));
    assert PcInv(s, a, s.pc[a]) && Holder(s, a);
    forall b ensures !Holder(t, b) {
      if b != a && Holder(t, b) { assert Holder(s, b); }
    }
    forall b | b in t.pc ensures PcInv(t, b, t.pc[b]) {
      assert PcInv(s, b, s.pc[b]) && (s.pc[b] == LWait ==> At(s.m, b, Inside));
    }
    assert Rescuer(t, a);
  }

  /** At most one waiter is notified; it takes over the rescue from the notifier. */
  lemma HandRescueOver(s: Sys, t: Sys, a: Agent, r: Option<Agent>)
    requires Positions(s) && Exclusive(s) && a in s.pc && s.pc[a] == UNotify && t.isLock == s.isLock
    requires t.pc == s.pc[a := UExit] && t.m.stage.Keys == s.m.stage.Keys
    requires forall b | b in s.pc && Some(b) != r :: t.m.stage[b] == s.m.stage[b]
    requires forall c | c in t.m.queue :: c in s.m.queue
    requires r.Some? ==> Queued(s.m, r.value) && !Queued(t.m, r.value) && r.value in s.pc && WaitStage(t.m.stage[r.value])
    requires r == None ==> forall b :: !Queued(t.m, b)
    ensures Positions(t) && Exclusive(t) && Rescued(t)
  {
    assert forall b :: Holder(t, b) == Holder(s, b);
    forall b | b in t.pc ensures PcInv(t, b, t.pc[b]) {
      assert PcInv(s, b, s.pc[b]);
    }
    if r.Some? {
      assert PcInv(s, r.value, s.pc[r.value]);
      assert Rescuer(t, r.value);
    }
  }

  lemma NotifyFirstKeepsInv(s: Sys, a: Agent, woken: Option<nat>)
    requires Positions(s) && Exclusive(s) && Enabled(s, Notify(a, woken)) && s.waitings == |Waiters(s.pc)|
    requires s.waitings > 0 && s.m.queue != [] && s.m.queue[0] !in s.m.queue[1..]
    ensures var t := Apply(s, Notify(a, woken)); Positions(t) && Exclusive(t) && Rescued(t)
  {
    hide Exclusive, Waiters;
    assert Queued(s.m, Cor(s.m.queue[0]));
    SomebodyCounted(s, Cor(s.m.queue[0]));
    HandRescueOver(s, Apply(s, Notify(a, woken)), a, Some(Cor(s.m.queue[0])));
  }

  lemma NotifyKeepsInv(s: Sys, a: Agent, woken: Option<nat>)
    requires Positions(s) && Exclusive(s) && Enabled(s, Notify(a, woken)) && s.waitings == |Waiters(s.pc)|
    requires s.m.queue != [] ==> s.m.queue[0] !in s.m.queue[1..]
    ensures var t := Apply(s, Notify(a, woken)); Positions(t) && Exclusive(t) && Rescued(t)
  {
    hide Monitor.Inv, Parking.Inv, Exclusive, Waiters;
    var t := Apply(s, Notify(a, woken));
    forall b | Queued(s.m, b) ensures s.waitings > 0 { SomebodyCounted(s, b); }
    if s.waitings <= 0 {
      HandRescueOver(s, t, a, None);
    } else if s.m.queue != [] {
      NotifyFirstKeepsInv(s, a, woken);
    } else if woken.Some? {
      HandRescueOver(s, t, a, Some(Thr(woken.value)));
    } else {
      HandRescueOver(s, t, a, None);
    }
  }

  lemma SomebodyCounted(s: Sys, b: Agent)
    requires Positions(s) && Queued(s.m, b)
    ensures b in s.pc && WaitStage(s.m.stage[b]) && |Waiters(s.pc)| > 0
  {
    assert PcInv(s, b, s.pc[b]);
    SizeWithout(Waiters(s.pc), b);
  }

  lemma AroundKeepsInv(s: Sys, step: Step)
    requires Positions(s) && Exclusive(s) && Rescued(s) && Enabled(s, Around(step))
    ensures var t := Apply(s, Around(step)); Positions(t) && Exclusive(t) && Rescued(t)
  {
    var t := Apply(s, Around(step));
    assert t.m.queue == s.m.queue && t.m.stage == s.m.stage;
    assert forall b :: Holder(t, b) == Holder(s, b) && Queued(t.m, b) == Queued(s.m, b) && Rescuer(t, b) == Rescuer(s, b);
    forall b | b in t.pc ensures PcInv(t, b, t.pc[b]) {
      assert PcInv(s, b, s.pc[b]);
    }
  }

  lemma OneInside(s: Sys, a: Agent)
    requires Inv(s) && a in s.pc && s.m.stage[a] == Inside
    ensures forall b | At(s.m, b, Inside) :: b == a
    ensures !Queued(s.m, a)
  {
    assert AgentInv(s.m, a, Inside) && PcInv(s, a, s.pc[a]);
    forall b | At(s.m, b, Inside) ensures b == a {
      assert AgentInv(s.m, b, Inside);
    }
  }

  lemma CountKept(s: Sys, mv: Move)
    requires Positions(s) && Enabled(s, mv) && s.waitings == |Waiters(s.pc)|
    ensures var t := Apply(s, mv); t.waitings == |Waiters(t.pc)|
  {
    if !mv.Around? { CountAfter(s.pc, mv.a, To(s, mv)); }
  }

  lemma FirstIsOnce(s: Sys)
    requires Inv(s) && s.m.queue != []
    ensures s.m.queue[0] !in s.m.queue[1..]
  {
    hide Parking.Inv, Positions, Exclusive, Rescued;
  }

  /** Every step keeps mutual exclusion, the count of waiters, and that nobody is stranded. */
  lemma MoveKeepsInv(s: Sys, mv: Move)
    requires Inv(s) && Enabled(s, mv)
    ensures Inv(Apply(s, mv))
  {
    hide Monitor.Apply, Monitor.Sync, Parking.Inv, Rescued;
    if ActionOf(s, mv).Some? { ActionKeepsInv(s.m, ActionOf(s, mv).value); }
    CountKept(s, mv);
    match mv
    case Test(a) => TestKeepsInv(s, a);
    case CondWait(a) =>
      CondWaitKeepsInv(s, a);
    case Clear(a) =>
      assert PcInv(s, a, UClear);
      OneInside(s, a);
      ClearKeepsInv(s, a);
    case Notify(a, woken) =>
      if s.m.queue != [] { FirstIsOnce(s); }
      NotifyKeepsInv(s, a, woken);
    case Around(step) => AroundKeepsInv(s, step);
    case RetakeMtx(a) =>
      if a.Cor? { RunningIsNotQueued(s.m, a.co); }
      BackKeepsInv(s, mv);
    case ReleaseMtx(_) => LeaveKeepsInv(s, mv);
    case SuspendSelf(_) => LeaveKeepsInv(s, mv);
    case SpuriousWake(_) => BackKeepsInv(s, mv);
    case EnterLock(_) => EnterKeepsInv(s, mv);
    case EnterUnlock(_) => EnterKeepsInv(s, mv);
    case ExitLock(_) => ExitKeepsInv(s, mv);
    case ExitUnlock(_) => ExitKeepsInv(s, mv);
    case _ => LocalKeepsInv(s, mv);
  }

  // ----- whole runs

  ghost predicate Initial(s: Sys) {
    && Monitor.Inv(s.m) && s.m.queue == [] && s.m.mtx == None && !s.isLock && s.waitings == 0
    && s.pc.Keys == s.m.stage.Keys
    && (forall a | a in s.m.stage :: s.m.stage[a] == Out && s.pc[a] == Idle)
  }

  ghost function Next(s: Sys, mv: Move): Option<Sys> {
    if Enabled(s, mv) then Some(Apply(s, mv)) else None
  }

  lemma RunKeepsInv(s: Sys, run: seq<Move>)
    requires Inv(s) && Runs(Next, s, run)
    ensures Inv(Exec(Next, s, run))
  {
    hide Inv, Enabled, Apply;
    forall t, mv | Inv(t) && Next(t, mv).Some? ensures Inv(Next(t, mv).value) {
      MoveKeepsInv(t, mv);
    }
    Invariant(Next, Inv, s, run);
  }

  lemma InitialInv(s: Sys)
    requires Initial(s)
    ensures Inv(s)
  {
    assert forall a :: !Holder(s, a);
    assert Waiters(s.pc) == {};
    forall a | a in s.pc ensures PcInv(s, a, s.pc[a]) { }
  }

  /** In every reachable state at most one agent is between `lock` and `unlock`, and `isLock` is
      true exactly when some agent holds the lock. */
  lemma MutualExclusion(s: Sys, run: seq<Move>)
    requires Initial(s) && Runs(Next, s, run)
    ensures var e := Exec(Next, s, run);
      && (forall a, b | a in e.pc && b in e.pc && e.pc[a] == Crit && e.pc[b] == Crit :: a == b)
      && (e.isLock <==> exists a :: Holder(e, a))
  {
    InitialInv(s);
    RunKeepsInv(s, run);
    var e := Exec(Next, s, run);
    assert forall a | a in e.pc && e.pc[a] == Crit :: Holder(e, a);
  }

  /** The waiters that nobody has notified yet, and those notified that have not run yet. */
  ghost function Unnotified(s: Sys): set<Agent> {
    set a | a in s.pc && s.pc[a] == Waiting && Queued(s.m, a)
  }

  ghost function Notified(s: Sys): set<Agent> {
    set a | a in s.pc && s.pc[a] == Waiting && !Queued(s.m, a)
  }

  /** In every reachable state in which `mtx_` is free: `waitings_` counts the unnotified and the
      notified waiters; if the lock is free while somebody waits unnotified, some notified waiter
      has still to run; and a notified coroutine comes back whatever it had done of parking. */
  lemma NobodyStranded(s: Sys, run: seq<Move>)
    requires Initial(s) && Runs(Next, s, run) && Exec(Next, s, run).m.mtx == None
    ensures var e := Exec(Next, s, run);
      && e.waitings == |Unnotified(e)| + |Notified(e)|
      && (!e.isLock && Unnotified(e) != {} ==> Notified(e) != {})
      && (forall c | Cor(c) in Notified(e) :: ComesBack(e.m, c))
      && (forall t | Thr(t) in Notified(e) :: At(e.m, Thr(t), Signaled))
  {
    InitialInv(s);
    RunKeepsInv(s, run);
    var e := Exec(Next, s, run);
    hide Inv;
    CountedAreWaiting(e);
    RescuersAreNotified(e);
    forall c | Cor(c) in Notified(e) ensures ComesBack(e.m, c) {
      NotifiedIsOnItsWay(e, Cor(c));
    }
    forall t | Thr(t) in Notified(e) ensures At(e.m, Thr(t), Signaled) {
      NotifiedIsOnItsWay(e, Thr(t));
    }
  }

  lemma CountedAreWaiting(e: Sys)
    requires Inv(e) && e.m.mtx == None
    ensures e.waitings == |Unnotified(e)| + |Notified(e)|
  {
    forall a | a in e.pc ensures Counted(e.pc[a]) <==> e.pc[a] == Waiting {
      assert PcInv(e, a, e.pc[a]) && AgentInv(e.m, a, e.m.stage[a]);
    }
    assert Waiters(e.pc) == Unnotified(e) + Notified(e);
  }

  lemma RescuersAreNotified(e: Sys)
    requires Inv(e) && e.m.mtx == None
    ensures !e.isLock && Unnotified(e) != {} ==> Notified(e) != {}
  {
    forall a | a in e.pc ensures Rescuer(e, a) <==> a in Notified(e) {
      assert PcInv(e, a, e.pc[a]) && AgentInv(e.m, a, e.m.stage[a]);
    }
    if !e.isLock && Unnotified(e) != {} {
      var a :| a in Unnotified(e);
      assert Queued(e.m, a);
      var r :| Rescuer(e, r);
      assert r in Notified(e);
    }
  }

  lemma NotifiedIsOnItsWay(e: Sys, a: Agent)
    requires Inv(e) && a in Notified(e)
    ensures if a.Cor? then ComesBack(e.m, a.co) else At(e.m, a, Signaled)
  {
    assert PcInv(e, a, Waiting) && AgentInv(e.m, a, e.m.stage[a]);
    if a.Cor? {
      assert CorInv(e.m, a.co, e.m.w.cos[a.co], e.m.stage[a]);
      NotifiedComesBack(e.m, a.co);
    }
  }

  // ----- the schedulers under a run

  ghost function View(s: Sys): World {
    s.m.w
  }

  ghost function Part(s: Sys, mv: Move): seq<Act> {
    match ActionOf(s, mv) case Some(act) => ActsOf(s.m, act) case None => []
  }

  lemma MoveIsActs(s: Sys, mv: Move)
    requires Inv(s) && Enabled(s, mv)
    ensures Runs(Parking.Next, s.m.w, Part(s, mv)) && Exec(Parking.Next, s.m.w, Part(s, mv)) == Apply(s, mv).m.w
  {
    hide Monitor.Apply, Monitor.Enabled, Monitor.Sync, Parking.Inv, ActsOf;
    if ActionOf(s, mv).Some? { ActionIsActs(s.m, ActionOf(s, mv).value); }
  }

  lemma RunIsActs(s: Sys, run: seq<Move>)
    requires Inv(s) && Runs(Next, s, run)
    ensures var acts := Project(Next, Part, s, run);
      Runs(Parking.Next, s.m.w, acts) && Exec(Parking.Next, s.m.w, acts) == Exec(Next, s, run).m.w
  {
    hide Inv, Enabled, Apply, Part;
    forall t, mv | Inv(t) && Next(t, mv).Some?
      ensures Inv(Next(t, mv).value) && Runs(Parking.Next, View(t), Part(t, mv))
      ensures Exec(Parking.Next, View(t), Part(t, mv)) == View(Next(t, mv).value)
    {
      MoveKeepsInv(t, mv);
      MoveIsActs(t, mv);
    }
    Projects(Next, Inv, View, Parking.Next, Part, s, run);
  }

  /** A coroutine whose resume is posted when its scheduler drains the queue is switched to before that
      scheduler goes on to the coroutines that have yielded, whatever else happens meanwhile. */
  lemma PostedIsDispatched(s: Sys, k: nat, run: seq<Move>, c: Co)
    requires Inv(s) && Enabled(s, Around(Drain(k)))
    requires c in s.m.w.cos && c.sched == k && s.m.w.cos[c].posted > 0
    requires Runs(Next, Apply(s, Around(Drain(k))), run)
    requires Enabled(Exec(Next, Apply(s, Around(Drain(k))), run), Around(NextPhase(k)))
    ensures Around(Dispatch(c)) in run
  {
    var t := Apply(s, Around(Drain(k)));
    var acts := Project(Next, Part, t, run);
    MoveKeepsInv(s, Around(Drain(k)));
    RunIsActs(t, run);
    AroundIsStep(s, Drain(k));
    AroundIsStep(Exec(Next, t, run), NextPhase(k));
    hide *;
    DrainedIsDispatched(s.m.w, k, acts, c);
    var u, i := ProjectHas(Next, Part, t, run, Take(Dispatch(c)));
    OnlyAroundTakes(u, run[i], Dispatch(c));
  }

  lemma AroundIsStep(s: Sys, step: Step)
    requires Enabled(s, Around(step))
    ensures Parking.Enabled(s.m.w, step) && Apply(s, Around(step)).m.w == Parking.Apply(s.m.w, step)
  {
    hide Parking.Enabled, Parking.Apply;
  }

  lemma OnlyAroundTakes(s: Sys, mv: Move, step: Step)
    requires Take(step) in Part(s, mv)
    ensures mv == Around(step)
  {
  }
}
