/** A run of `CoMutex` in which a coroutine is handed the lock, and its resume is posted, before it
    has suspended: the protocol has such runs, and the coroutine comes back all the same. */
module CoMutexRun {
  import opened Options
  import opened Systems
  import opened CoroLists
  import opened Parking
  import opened Monitor
  import opened CoMutexReturn
  import CoMutexProgress
  import P = CoMutexProtocol

  const A := Co(0, 0)
  const B := Co(1, 0)

  /** Two schedulers, each running its one coroutine; `b` is the second coroutine. */
  function Two(b: Info): World {
    World(
      map[0 := Loop(RunningYielding, {}, Some(A)), 1 := Loop(RunningYielding, {}, Some(B))],
      map[A := Info(Yielding, 0, 0, 0, 0, false), B := b])
  }

  function Both(b: Info, mtx: Option<Agent>, queue: seq<Co>, stA: Stage, stB: Stage, isLock: bool, pcA: P.Pc, pcB: P.Pc): P.Sys {
    P.Sys(Mon(Two(b), mtx, queue, map[Cor(A) := stA, Cor(B) := stB]), isLock, map[A := pcA, B := pcB])
  }

  const Up := Info(Yielding, 0, 0, 0, 0, false)
  const Entered := Info(Yielding, 1, 0, 0, 0, true)
  const Posted := Info(Yielding, 0, 0, 0, 1, true)

  /** The states of the run, in order. */
  const S0 := Both(Up, None, [], Out, Out, false, P.Idle, P.Idle)
  const S1 := Both(Up, None, [], Out, Out, true, P.Crit, P.Idle)
  const S2 := Both(Up, None, [], Out, Out, true, P.Crit, P.Slow)
  const S3 := Both(Up, Some(Cor(B)), [], Out, Inside, true, P.Crit, P.Retry)
  const S4 := Both(Up, Some(Cor(B)), [], Out, Inside, true, P.Crit, P.ToWait)
  const S5 := Both(Entered, Some(Cor(B)), [B], Out, Enlisted, true, P.Crit, P.Waiting)
  const S6 := Both(Entered, None, [B], Out, Leaving, true, P.Crit, P.Waiting)
  const S7 := Both(Entered, None, [B], Out, Leaving, true, P.UnlWant, P.Waiting)
  const S8 := Both(Entered, Some(Cor(A)), [B], Inside, Leaving, true, P.UnlIn, P.Waiting)
  const S9 := Both(Posted, Some(Cor(A)), [], Inside, Leaving, true, P.UnlOut, P.Waiting)

  ghost predicate Leads(s: P.Sys, mv: P.Move, t: P.Sys) {
    P.Enabled(s, mv) && P.Apply(s, mv) == t
  }

  lemma Onward(s: P.Sys, t: P.Sys, mv: P.Move, u: P.Sys)
    requires Leads(s, mv, t) && Reaches(P.Next, t, u)
    ensures Reaches(P.Next, s, u)
  {
    var run :| Runs(P.Next, t, run) && Exec(P.Next, t, run) == u;
    assert ([mv] + run)[1..] == run;
    assert Runs(P.Next, s, [mv] + run) && Exec(P.Next, s, [mv] + run) == u;
  }

  lemma FirstMoves()
    ensures Leads(S0, P.FastCas(A), S1) && Leads(S1, P.FastCas(B), S2) && Leads(S2, P.EnterLock(B), S3)
  {
  }

  lemma Waits()
    ensures Leads(S3, P.RetryCas(B), S4) && Leads(S4, P.PushWaiter(B), S5)
  {
  }

  lemma Releases()
    ensures Leads(S5, P.ReleaseMtx(B), S6) && Leads(S6, P.CallUnlock(A), S7)
  {
  }

  lemma Unlocks()
    ensures Leads(S7, P.EnterUnlock(A), S8)
  {
  }

  lemma HandsOver()
    ensures Leads(S8, P.HandOff(A), S9)
  {
  }

  /** From an initial state the protocol reaches one in which B owns the lock and its resume is
      posted, while B itself still runs on its way to suspend. */
  lemma ResumedBeforeSuspended()
    ensures P.Initial(S0) && Reaches(P.Next, S0, S9)
    ensures P.Owner(S9, B) && Running(S9.m.w, B) && S9.m.w.cos[B].posted == 1 && ComesBack(S9.m, B)
  {
    FirstMoves();
    Waits();
    Releases();
    Unlocks();
    HandsOver();
    hide Leads, Both;
    ReachesItself(P.Next, S9);
    Onward(S8, S9, P.HandOff(A), S9);
    Onward(S7, S8, P.EnterUnlock(A), S9);
    Onward(S6, S7, P.CallUnlock(A), S9);
    Onward(S5, S6, P.ReleaseMtx(B), S9);
    Onward(S4, S5, P.PushWaiter(B), S9);
    Onward(S3, S4, P.RetryCas(B), S9);
    Onward(S2, S3, P.EnterLock(B), S9);
    Onward(S1, S2, P.FastCas(B), S9);
    Onward(S0, S1, P.FastCas(A), S9);
    BeginsWell();
    EndsResumed();
  }

  lemma LoopsBegin()
    ensures LoopInv(Two(Up), 0, Loop(RunningYielding, {}, Some(A))) && LoopInv(Two(Up), 1, Loop(RunningYielding, {}, Some(B)))
  {
  }

  lemma CoroutinesBegin()
    ensures CoInv(Two(Up), A, Up) && CoInv(Two(Up), B, Up)
  {
    RunsFreely(Two(Up), A);
    RunsFreely(Two(Up), B);
    hide CoInv;
  }

  lemma RunsFreely(w: World, c: Co)
    requires c.sched in w.loops
    ensures CoInv(w, c, Info(Yielding, 0, 0, 0, 0, false))
  {
  }

  lemma WorldBegins()
    ensures Parking.Inv(Two(Up))
  {
    LoopsBegin();
    CoroutinesBegin();
    hide LoopInv, CoInv;
    var w := Two(Up);
    forall k | k in w.loops ensures LoopInv(w, k, w.loops[k]) { assert k == 0 || k == 1; }
    forall c | c in w.cos ensures CoInv(w, c, w.cos[c]) { assert c == A || c == B; }
  }

  lemma AgentsBegin()
    ensures CorInv(S0.m, A, Up, Out) && CorInv(S0.m, B, Up, Out) && AgentInv(S0.m, Cor(A), Out) && AgentInv(S0.m, Cor(B), Out)
  {
  }

  lemma BeginsWell()
    ensures P.Initial(S0)
  {
    WorldBegins();
    AgentsBegin();
    hide CorInv, AgentInv, Parking.Inv;
    var m := S0.m;
    forall c | c in m.w.cos ensures CorInv(m, c, m.w.cos[c], m.stage[Cor(c)]) { assert c == A || c == B; }
    forall a | a in m.stage ensures AgentInv(m, a, m.stage[a]) { assert a == Cor(A) || a == Cor(B); }
  }

  lemma EndsResumed()
    ensures P.Owner(S9, B) && Running(S9.m.w, B) && S9.m.w.cos[B].posted == 1 && ComesBack(S9.m, B)
  {
  }

  /** And from there B returns from `lock`. */
  lemma AndReturns() returns (t: P.Sys)
    ensures Reaches(P.Next, S0, t) && B in t.pc && t.pc[B] == P.Crit
  {
    ResumedBeforeSuspended();
    AllTakePart();
    hide P.Initial, Coroutines, Both;
    var run :| Runs(P.Next, S0, run) && Exec(P.Next, S0, run) == S9;
    var back;
    back, t := HandedCanReturn(S0, run, B);
    AloneReaches(back, B, t);
    ReachesOn(P.Next, S9, back, t);
    ReachesOn(P.Next, S0, S9, t);
  }

  lemma AllTakePart()
    ensures Coroutines(S0) && B in S9.pc && S9.pc[B] == P.Waiting && B !in S9.m.queue
  {
  }
}
