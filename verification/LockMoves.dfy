/**
 The critical sections of the lock objects are moves of the protocols: an object that agrees with a
 state of its protocol agrees, after a section, with the state that the moves of the section lead to,
 and has asked for the resumes that these moves post. So what is proved of every run of the protocols
 holds of the objects.
 */
module LockMoves {
  import opened Options
  import opened Systems
  import opened Parking
  import opened Monitor
  import opened Locks
  import C = CoMutexProtocol
  import M = MutexProtocol
  import S = SharedStateProtocol

  /** The resumes of `cs` have been posted, one after the other, for entries popped from the queue. */
  function WakeAll(w: World, cs: seq<Co>): World
    decreases |cs|
  {
    if cs == [] || cs[0] !in w.cos || w.cos[cs[0]].entries == 0 then w else WakeAll(Wake(w, cs[0]), cs[1..])
  }

  /** The threads that wait in the `std::condition_variable`. */
  ghost predicate SameBlocked(blocked: set<nat>, m: Mon) {
    forall t: nat :: t in blocked <==> At(m, Thr(t), Blocked)
  }

  lemma TwoMoves<St, Mv>(next: (St, Mv) -> Option<St>, s: St, a: Mv, b: Mv)
    requires next(s, a).Some?
    ensures Runs(next, s, [a]) && Exec(next, s, [a]) == next(s, a).value
    ensures next(next(s, a).value, b).Some? ==>
      Runs(next, s, [a, b]) && Exec(next, s, [a, b]) == next(next(s, a).value, b).value
  {
    var t := next(s, a).value;
    OneMove(next, s, a);
    if next(t, b).Some? {
      OneMove(next, t, b);
      assert [a] + [b] == [a, b];
      RunsJoin(next, s, [a], [b]);
    }
  }

  // ----- CoMutex

  ghost predicate CoMutexAgrees(m: CoMutex, s: C.Sys)
    reads m, m.cond
  {
    m.isLock == s.isLock && Live(m.cond.waiters) == s.m.queue
  }

  /** The swap on the fast path, outside any section. */
  method CoMutexFastPath(m: CoMutex, ghost s: C.Sys, ghost c: Co) returns (ok: bool, ghost t: C.Sys)
    requires CoMutexAgrees(m, s) && C.Enabled(s, C.FastCas(c))
    modifies m
    ensures t == C.Apply(s, C.FastCas(c)) && CoMutexAgrees(m, t) && c in t.pc && t.pc[c] == if ok then C.Crit else C.Slow
  {
    t := C.Apply(s, C.FastCas(c));
    ok := m.SetLock(true);
  }

  lemma CoMutexLockMoves(s: C.Sys, c: Co)
    requires C.Inv(s) && C.Enabled(s, C.RetryCas(c))
    ensures var t := C.Apply(s, C.RetryCas(c));
      && t.isLock && t.m.queue == s.m.queue && c in t.pc && t.pc[c] == (if s.isLock then C.ToWait else C.Got)
      && (s.isLock ==> C.Enabled(t, C.PushWaiter(c)))
      && (s.isLock ==> var u := C.Apply(t, C.PushWaiter(c)); u.isLock && u.m.queue == s.m.queue + [c] && c in u.pc && u.pc[c] == C.Waiting)
  {
    hide Monitor.Inv;
    assert C.PcInv(s, c, s.pc[c]);
  }

  /** `lock` while it holds `mtx_`. */
  method CoMutexLock(m: CoMutex, ghost s: C.Sys, c: Co) returns (got: bool, ghost t: C.Sys)
    requires CoMutexAgrees(m, s) && C.Inv(s) && C.Enabled(s, C.RetryCas(c))
    modifies m, m.cond
    ensures var moves := if got then [C.RetryCas(c)] else [C.RetryCas(c), C.PushWaiter(c)];
      Runs(C.Next, s, moves) && t == Exec(C.Next, s, moves)
    ensures CoMutexAgrees(m, t) && m.cond.resumed == old(m.cond.resumed)
    ensures c in t.pc && t.pc[c] == if got then C.Got else C.Waiting
  {
    CoMutexLockMoves(s, c);
    TwoMoves(C.Next, s, C.RetryCas(c), C.PushWaiter(c));
    got := m.LockSection(c);
    hide C.Inv, C.Enabled, C.Apply;
    t := C.Apply(s, C.RetryCas(c));
    if !got {
      t := C.Apply(t, C.PushWaiter(c));
    }
  }

  /** `unlock` while it holds `mtx_`: the lock and the resume go to the same coroutine. */
  method CoMutexUnlock(m: CoMutex, ghost s: C.Sys, ghost c: Co) returns (ghost t: C.Sys, ghost woken: seq<Co>)
    requires CoMutexAgrees(m, s) && C.Enabled(s, C.HandOff(c))
    modifies m, m.cond
    ensures t == C.Apply(s, C.HandOff(c)) && CoMutexAgrees(m, t)
    ensures m.cond.resumed == old(m.cond.resumed) + woken && t.m.w == WakeAll(s.m.w, woken)
    ensures woken == C.Handed(s, [C.HandOff(c)])
  {
    t := C.Apply(s, C.HandOff(c));
    woken := if s.m.queue == [] then [] else [s.m.queue[0]];
    m.UnlockSection();
    assert C.Handed(t, []) == [];
  }

  // ----- Mutex

  ghost predicate CondAgrees(cond: ConditionVariable, m: Mon)
    reads cond, cond.coCv
  {
    Live(cond.coCv.waiters) == m.queue && SameBlocked(cond.blocked, m)
  }

  ghost predicate MutexAgrees(m: Mutex, s: M.Sys)
    reads m, m.cond, m.cond.coCv
  {
    m.isLock == s.isLock && m.waitings == s.waitings && CondAgrees(m.cond, s.m)
  }

  lemma UncountMove(s: M.Sys, a: Agent)
    requires M.Inv(s) && M.Enabled(s, M.Uncount(a))
    ensures var t := M.Apply(s, M.Uncount(a));
      M.Inv(t) && M.Enabled(t, M.Test(a)) && t.isLock == s.isLock && t.waitings == s.waitings - 1 && t.m == s.m
  {
    hide M.Inv, Monitor.Inv, Monitor.Apply, Monitor.Enabled;
    M.MoveKeepsInv(s, M.Uncount(a));
  }

  lemma TestMove(s: M.Sys, a: Agent)
    requires M.Inv(s) && M.Enabled(s, M.Test(a))
    ensures var t := M.Apply(s, M.Test(a));
      && t.isLock && t.m == s.m && t.waitings == s.waitings + (if s.isLock then 1 else 0)
      && M.AtPc(t, a, if s.isLock then M.LWait else M.LGot)
      && (s.isLock ==> M.Enabled(t, M.CondWait(a)))
  {
    hide Monitor.Inv;
    assert M.PcInv(s, a, s.pc[a]);
  }

  lemma CondWaitMove(s: M.Sys, a: Agent)
    requires M.Enabled(s, M.CondWait(a))
    ensures var t := M.Apply(s, M.CondWait(a));
      && t.isLock == s.isLock && t.waitings == s.waitings && a in t.pc && t.pc[a] == M.Waiting
      && t.m.queue == s.m.queue + (if a.Cor? then [a.co] else [])
      && forall b: nat :: At(t.m, Thr(b), Blocked) <==> At(s.m, Thr(b), Blocked) || a == Thr(b)
  {
  }

  lemma OneMoveFirst<St, Mv>(next: (St, Mv) -> Option<St>, s: St, a: Mv, run: seq<Mv>)
    requires next(s, a).Some? && Runs(next, next(s, a).value, run)
    ensures Runs(next, s, [a] + run) && Exec(next, s, [a] + run) == Exec(next, next(s, a).value, run)
  {
    assert ([a] + run)[1..] == run;
  }

  /** The moves of a round from `s`. */
  function RoundMoves(a: Agent, got: bool): seq<M.Move> {
    if got then [M.Test(a)] else [M.Test(a), M.CondWait(a)]
  }

  /** The threads blocked after a round. */
  lemma BlockedAfterRound(blocked: set<nat>, m: Mon, n: Mon, a: Agent, waits: bool)
    requires SameBlocked(blocked, m)
    requires forall b: nat :: At(n, Thr(b), Blocked) <==> At(m, Thr(b), Blocked) || (waits && a == Thr(b))
    ensures SameBlocked(blocked + if waits && a.Thr? then {a.id} else {}, n)
  {
  }

  lemma RoundOf(s: M.Sys, a: Agent) returns (t: M.Sys)
    requires M.Inv(s) && M.Enabled(s, M.Test(a))
    ensures Runs(M.Next, s, RoundMoves(a, !s.isLock)) && t == Exec(M.Next, s, RoundMoves(a, !s.isLock))
    ensures t.isLock && t.waitings == s.waitings + (if s.isLock then 1 else 0)
    ensures a in t.pc && t.pc[a] == if s.isLock then M.Waiting else M.LGot
    ensures t.m.queue == s.m.queue + (if s.isLock && a.Cor? then [a.co] else [])
    ensures forall b: nat :: At(t.m, Thr(b), Blocked) <==> At(s.m, Thr(b), Blocked) || (s.isLock && a == Thr(b))
  {
    TestMove(s, a);
    TwoMoves(M.Next, s, M.Test(a), M.CondWait(a));
    hide M.Inv, M.Enabled, M.Apply;
    t := M.Apply(s, M.Test(a));
    if s.isLock {
      CondWaitMove(t, a);
      t := M.Apply(t, M.CondWait(a));
    }
  }

  /** One round of the loop of `lock` while it holds `mtx_`, from the start or back from a wait. */
  method MutexRound(m: Mutex, ghost s: M.Sys, a: Agent, back: bool) returns (got: bool, ghost t: M.Sys)
    requires MutexAgrees(m, s) && M.Inv(s) && M.Enabled(s, if back then M.Uncount(a) else M.Test(a))
    modifies m, m.cond, m.cond.coCv
    ensures var moves := (if back then [M.Uncount(a)] else []) + RoundMoves(a, got);
      Runs(M.Next, s, moves) && t == Exec(M.Next, s, moves)
    ensures MutexAgrees(m, t) && m.cond.coCv.resumed == old(m.cond.coCv.resumed)
    ensures a in t.pc && t.pc[a] == if got then M.LGot else M.Waiting
  {
    hide M.Inv, M.Enabled, M.Apply;
    ghost var u := s;
    if back {
      UncountMove(s, a);
      u := M.Apply(s, M.Uncount(a));
    }
    t := RoundOf(u, a);
    BlockedAfterRound(m.cond.blocked, s.m, t.m, a, s.isLock);
    hide SameBlocked;
    got := m.LockRound(a, back);
    if back {
      OneMoveFirst(M.Next, s, M.Uncount(a), RoundMoves(a, got));
    } else {
      assert [] + RoundMoves(a, got) == RoundMoves(a, got);
    }
  }

  lemma ClearMove(s: M.Sys, a: Agent)
    requires M.Inv(s) && M.Enabled(s, M.Clear(a))
    ensures var t := M.Apply(s, M.Clear(a));
      !t.isLock && t.waitings == s.waitings && t.m == s.m && M.Inv(t) && M.AtPc(t, a, M.UNotify)
  {
    hide M.Inv, Monitor.Inv, Monitor.Apply, Monitor.Enabled;
    M.MoveKeepsInv(s, M.Clear(a));
  }

  /** What `notify_one` finds: the thread it picks, if it comes to that and one is blocked. */
  ghost predicate Picks(s: M.Sys, woken: Option<nat>) {
    s.waitings > 0 && s.m.queue == [] ==>
      if woken.Some? then At(s.m, Thr(woken.value), Blocked) else forall b: nat :: !At(s.m, Thr(b), Blocked)
  }

  lemma NotifyMove(s: M.Sys, a: Agent, woken: Option<nat>)
    requires M.Inv(s) && M.AtPc(s, a, M.UNotify) && Picks(s, woken)
    ensures M.Enabled(s, M.Notify(a, woken))
  {
    hide M.Inv, Monitor.Inv, Parking.Apply, Parking.Enabled;
    NotifierIsInside(s, a);
  }

  lemma NotifierIsInside(s: M.Sys, a: Agent)
    requires M.Inv(s) && M.AtPc(s, a, M.UNotify)
    ensures CanRun(s.m, a) && At(s.m, a, Inside)
    ensures s.m.queue != [] ==> s.m.queue[0] in s.m.w.cos && s.m.w.cos[s.m.queue[0]].entries > 0
  {
    hide Monitor.Inv;
    assert M.PcInv(s, a, s.pc[a]);
    if s.m.queue != [] { QueuedHasEntry(s.m, s.m.queue[0]); }
  }

  lemma NotifyEffect(s: M.Sys, a: Agent, woken: Option<nat>)
    requires M.Enabled(s, M.Notify(a, woken))
    ensures var u := M.Apply(s, M.Notify(a, woken));
      && u.isLock == s.isLock && u.waitings == s.waitings && a in u.pc && u.pc[a] == M.UExit
      && (if s.waitings > 0 && s.m.queue != [] then
            u.m.queue == s.m.queue[1..] && u.m.w == Wake(s.m.w, s.m.queue[0]) && u.m.stage == s.m.stage
          else
            && u.m.queue == s.m.queue && u.m.w == s.m.w
            && u.m.stage == if s.waitings > 0 && woken.Some? then s.m.stage[Thr(woken.value) := Signaled] else s.m.stage)
  {
    hide Wake;
  }

  lemma WakeOne(w: World, c: Co)
    requires c in w.cos && w.cos[c].entries > 0
    ensures WakeAll(w, [c]) == Wake(w, c) && WakeAll(w, []) == w
  {
    assert [c][1..] == [];
  }

  /** `unlock` while it holds `mtx_`. */
  method MutexUnlock(m: Mutex, ghost s: M.Sys, ghost a: Agent)
    returns (ghost t: M.Sys, ghost thread: Option<nat>, ghost woken: seq<Co>)
    requires MutexAgrees(m, s) && M.Inv(s) && M.Enabled(s, M.Clear(a))
    modifies m, m.cond, m.cond.coCv
    ensures Runs(M.Next, s, [M.Clear(a), M.Notify(a, thread)]) && t == Exec(M.Next, s, [M.Clear(a), M.Notify(a, thread)])
    ensures MutexAgrees(m, t) && a in t.pc && t.pc[a] == M.UExit
    ensures m.cond.coCv.resumed == old(m.cond.coCv.resumed) + woken && t.m.w == WakeAll(s.m.w, woken)
  {
    hide M.Inv, M.Enabled, M.Apply, Wake;
    ClearMove(s, a);
    ghost var u := M.Apply(s, M.Clear(a));
    ghost var blocked := m.cond.blocked;
    thread := m.UnlockSection();
    UnlockAgrees(s, u, a, blocked, thread);
    hide SameBlocked, Picks;
    TwoMoves(M.Next, s, M.Clear(a), M.Notify(a, thread));
    t := M.Apply(u, M.Notify(a, thread));
    woken := if s.waitings > 0 && s.m.queue != [] then [s.m.queue[0]] else [];
    if woken != [] {
      NotifyHasEntry(u, a, thread);
      WakeOne(s.m.w, s.m.queue[0]);
    }
  }

  lemma UnlockAgrees(s: M.Sys, u: M.Sys, a: Agent, blocked: set<nat>, thread: Option<nat>)
    requires SameBlocked(blocked, s.m) && u.m == s.m && u.waitings == s.waitings
    requires M.Inv(u) && M.AtPc(u, a, M.UNotify)
    requires thread.Some? <==> s.waitings > 0 && s.m.queue == [] && blocked != {}
    requires thread.Some? ==> thread.value in blocked
    ensures M.Enabled(u, M.Notify(a, thread))
    ensures var t := M.Apply(u, M.Notify(a, thread));
      && t.isLock == u.isLock && t.waitings == u.waitings && a in t.pc && t.pc[a] == M.UExit
      && SameBlocked(if thread.Some? then blocked - {thread.value} else blocked, t.m)
      && (if s.waitings > 0 && s.m.queue != [] then
            t.m.queue == s.m.queue[1..] && t.m.w == Wake(s.m.w, s.m.queue[0])
          else
            t.m.queue == s.m.queue && t.m.w == s.m.w)
  {
    hide M.Enabled, M.Apply, M.Inv;
    if blocked == {} { assert forall b: nat :: b !in blocked; }
    NotifyMove(u, a, thread);
    NotifyEffect(u, a, thread);
  }

  lemma NotifyHasEntry(s: M.Sys, a: Agent, woken: Option<nat>)
    requires M.Enabled(s, M.Notify(a, woken)) && s.waitings > 0 && s.m.queue != []
    ensures s.m.queue[0] in s.m.w.cos && s.m.w.cos[s.m.queue[0]].entries > 0
  {
  }

  /** Everybody in the queue has an entry. */
  lemma QueuedHasEntry(m: Mon, c: Co)
    requires Monitor.Inv(m) && c in m.queue
    ensures c in m.w.cos && m.w.cos[c].entries > 0
  {
    assert CorInv(m, c, m.w.cos[c], m.stage[Cor(c)]);
  }

  // ----- SharedState

  ghost predicate StateAgrees(m: SharedState, s: S.Sys)
    reads m, m.cond, m.cond.coCv
  {
    m.isReady == s.isReady && m.value == s.value && m.eptr == s.eptr && CondAgrees(m.cond, s.m)
  }

  lemma StateTestMove(s: S.Sys, a: Agent)
    requires S.Inv(s) && S.Enabled(s, S.Test(a))
    ensures var t := S.Apply(s, S.Test(a));
      && t.isReady == s.isReady && t.value == s.value && t.eptr == s.eptr && t.m == s.m
      && a in t.pc && t.pc[a] == (if s.isReady then S.WDone else S.WWait)
      && CanRun(t.m, a) && At(t.m, a, Inside) && (!s.isReady ==> S.Enabled(t, S.CondWait(a)))
  {
    hide Monitor.Inv;
    assert S.PcInv(s, a, s.pc[a]);
    InsideRuns(s, a);
  }

  /** An agent inside the monitor has the processor. */
  lemma InsideRuns(s: S.Sys, a: Agent)
    requires S.Inv(s) && At(s.m, a, Inside)
    ensures CanRun(s.m, a)
  {
    assert AgentInv(s.m, a, Inside);
    if a.Cor? { assert CorInv(s.m, a.co, s.m.w.cos[a.co], Inside); }
  }

  lemma StateWaitMove(s: S.Sys, a: Agent)
    requires S.Enabled(s, S.CondWait(a))
    ensures var t := S.Apply(s, S.CondWait(a));
      && t.isReady == s.isReady && t.value == s.value && t.eptr == s.eptr && a in t.pc && t.pc[a] == S.Waiting
      && t.m.queue == s.m.queue + (if a.Cor? then [a.co] else [])
      && forall b: nat :: At(t.m, Thr(b), Blocked) <==> At(s.m, Thr(b), Blocked) || a == Thr(b)
  {
  }

  /** One round of the loop of `wait` while it holds `mtx_`. */
  method StateRound(m: SharedState, ghost s: S.Sys, a: Agent) returns (ready: bool, ghost t: S.Sys)
    requires StateAgrees(m, s) && S.Inv(s) && S.Enabled(s, S.Test(a))
    modifies m.cond, m.cond.coCv
    ensures var moves := if ready then [S.Test(a)] else [S.Test(a), S.CondWait(a)];
      Runs(S.Next, s, moves) && t == Exec(S.Next, s, moves)
    ensures StateAgrees(m, t) && m.cond.coCv.resumed == old(m.cond.coCv.resumed)
    ensures a in t.pc && t.pc[a] == if ready then S.WDone else S.Waiting
  {
    hide S.Inv, S.Enabled, S.Apply;
    StateTestMove(s, a);
    TwoMoves(S.Next, s, S.Test(a), S.CondWait(a));
    t := S.Apply(s, S.Test(a));
    if !s.isReady {
      StateWaitMove(t, a);
      t := S.Apply(t, S.CondWait(a));
    }
    BlockedAfterRound(m.cond.blocked, s.m, t.m, a, !s.isReady);
    hide SameBlocked;
    ready := m.WaitRound(a);
  }

  /** `getValue` while it holds `mtx_`. */
  method StateGet(m: SharedState, ghost s: S.Sys, ghost a: Agent) returns (out: S.Outcome, ghost t: S.Sys)
    requires StateAgrees(m, s) && S.Enabled(s, S.Get(a))
    ensures t == S.Apply(s, S.Get(a)) && StateAgrees(m, t) && a in t.pc && t.pc[a] == S.GOut(out)
  {
    t := S.Apply(s, S.Get(a));
    out := m.GetValue();
  }

  function NotifyMoves(a: Agent, n: nat): seq<S.Move> {
    if n == 0 then [S.NotifyThreads(a)] else [S.NotifyNext(a)] + NotifyMoves(a, n - 1)
  }

  lemma NotifyNextMove(s: S.Sys, a: Agent)
    requires S.Inv(s) && S.AtPc(s, a, S.SNotify) && s.m.queue != []
    ensures S.Enabled(s, S.NotifyNext(a))
    ensures s.m.queue[0] in s.m.w.cos && s.m.w.cos[s.m.queue[0]].entries > 0
    ensures var t := S.Apply(s, S.NotifyNext(a));
      && t.isReady == s.isReady && t.value == s.value && t.eptr == s.eptr && S.AtPc(t, a, S.SNotify)
      && t.m.queue == s.m.queue[1..] && t.m.w == Wake(s.m.w, s.m.queue[0])
  {
    hide Monitor.Inv;
    assert S.PcInv(s, a, s.pc[a]);
    InsideRuns(s, a);
    QueuedHasEntry(s.m, s.m.queue[0]);
  }

  lemma NotifyThreadsMove(s: S.Sys, a: Agent)
    requires S.Inv(s) && S.AtPc(s, a, S.SNotify) && s.m.queue == []
    ensures S.Enabled(s, S.NotifyThreads(a))
    ensures var t := S.Apply(s, S.NotifyThreads(a));
      && t.isReady == s.isReady && t.value == s.value && t.eptr == s.eptr && a in t.pc && t.pc[a] == S.SOut
      && t.m.queue == [] && t.m.w == s.m.w && SameBlocked({}, t.m)
  {
    hide Monitor.Inv;
    assert S.PcInv(s, a, s.pc[a]);
    InsideRuns(s, a);
  }

  /** `notify_all` is one move for each coroutine in the queue and one for the threads. */
  lemma {:induction false} NotifyAllMoves(s: S.Sys, a: Agent)
    requires S.Inv(s) && S.AtPc(s, a, S.SNotify)
    ensures Runs(S.Next, s, NotifyMoves(a, |s.m.queue|))
    ensures var t := Exec(S.Next, s, NotifyMoves(a, |s.m.queue|));
      && t.isReady == s.isReady && t.value == s.value && t.eptr == s.eptr && a in t.pc && t.pc[a] == S.SOut
      && t.m.queue == [] && t.m.w == WakeAll(s.m.w, s.m.queue) && SameBlocked({}, t.m)
    decreases |s.m.queue|
  {
    hide S.Inv, S.Enabled, S.Apply, SameBlocked, Wake;
    var moves := NotifyMoves(a, |s.m.queue|);
    if s.m.queue == [] {
      NotifyThreadsMove(s, a);
      assert moves[1..] == [];
    } else {
      NotifyNextMove(s, a);
      S.MoveKeepsInv(s, S.NotifyNext(a));
      var t := S.Apply(s, S.NotifyNext(a));
      NotifyAllMoves(t, a);
      assert moves[1..] == NotifyMoves(a, |t.m.queue|);
    }
  }

  lemma StateSetMove(s: S.Sys, a: Agent, o: S.Result)
    requires S.Inv(s) && S.Enabled(s, S.Set(a)) && s.pc[a] == S.SIn(o)
    ensures var t := S.Apply(s, S.Set(a));
      && S.Inv(t) && S.AtPc(t, a, S.SNotify) && t.m == s.m && t.isReady
      && t.value == (if o.Value? then o.v else s.value) && t.eptr == (if o.Value? then s.eptr else Some(o.e))
  {
    hide S.Inv, Monitor.Inv;
    S.MoveKeepsInv(s, S.Set(a));
  }

  /** `setValue` or `setException` while it holds `mtx_`. */
  method StateSet(m: SharedState, ghost s: S.Sys, ghost a: Agent, o: S.Result) returns (ghost t: S.Sys)
    requires StateAgrees(m, s) && S.Inv(s) && S.Enabled(s, S.Set(a)) && s.pc[a] == S.SIn(o)
    modifies m, m.cond, m.cond.coCv
    ensures var moves := [S.Set(a)] + NotifyMoves(a, |s.m.queue|);
      Runs(S.Next, s, moves) && t == Exec(S.Next, s, moves)
    ensures StateAgrees(m, t) && a in t.pc && t.pc[a] == S.SOut
    ensures m.cond.coCv.resumed == old(m.cond.coCv.resumed) + s.m.queue && t.m.w == WakeAll(s.m.w, s.m.queue)
  {
    hide S.Inv, S.Enabled, S.Apply;
    StateSetMove(s, a, o);
    ghost var u := S.Apply(s, S.Set(a));
    NotifyAllMoves(u, a);
    OneMoveFirst(S.Next, s, S.Set(a), NotifyMoves(a, |s.m.queue|));
    t := Exec(S.Next, u, NotifyMoves(a, |s.m.queue|));
    hide SameBlocked;
    m.Set(o);
  }
}
