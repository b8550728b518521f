/**
 The scheduler on its lists takes the steps of Parking: each operation of SchedulerPass, on lists
 and queues in a fixed order, changes what a scheduler shows of its coroutines just as the step
 of the same name does. So what Parking proves of every run holds of the linked lists.
 */
module SchedulerSteps {
  import opened CoroLists
  import opened SchedulerPass
  import Parking

  type Co = Parking.Co

  function Coros(s: seq<Sleeper<Co>>): seq<Co> {
    if s == [] then [] else [s[0].coro] + Coros(s[1..])
  }

  /** `due` is the local list of `wakeUpSleep`: the sleepers popped and not posted yet. */
  ghost predicate ShowsCo(st: State<Co>, due: seq<Co>, c: Co, i: Parking.Info) {
    && c in st.lists.At(i.place)
    && i.posted == multiset(st.queue)[c]
    && i.due == multiset(due)[c]
    && i.asleep == multiset(Coros(st.sleepers))[c]
  }

  predicate Mine(w: Parking.World, k: nat, c: Co) {
    c in w.cos && c.sched == k
  }

  /** The lists and queues `st` are those of scheduler `k` in the world `w`. */
  ghost predicate Shows(st: State<Co>, due: seq<Co>, w: Parking.World, k: nat) {
    && st.lists.Valid()
    && (forall c | Mine(w, k, c) :: ShowsCo(st, due, c, w.cos[c]))
    && (forall p, c | c in st.lists.At(p) :: Mine(w, k, c))
    && (forall c | c in st.queue :: Mine(w, k, c))
    && (forall c | c in due :: Mine(w, k, c))
    && (forall c | c in Coros(st.sleepers) :: Mine(w, k, c))
  }

  /** Two sequences that differ only in how often they hold `c` hold the same other elements. */
  lemma SameOthers(s: seq<Co>, t: seq<Co>, c: Co)
    requires forall d | d != c :: multiset(s)[d] == multiset(t)[d]
    ensures forall d | d in t && d != c :: d in s
  {
    forall d | d in t && d != c ensures d in s {
      assert multiset(t)[d] > 0;
    }
  }

  /** One coroutine moves and its numbers change with the queues; the rest stays. */
  lemma Moved(st: State<Co>, due: seq<Co>, w: Parking.World, k: nat, c: Co, p: Place, i: Parking.Info, t: State<Co>, loops: map<nat, Parking.Loop>)
    requires Shows(st, due, w, k) && Mine(w, k, c)
    requires t.lists == st.lists.Move(c, p) && i.place == p
    requires i.posted == multiset(t.queue)[c] && i.due == w.cos[c].due && i.asleep == multiset(Coros(t.sleepers))[c]
    requires forall d | d != c :: multiset(t.queue)[d] == multiset(st.queue)[d]
    requires forall d | d != c :: multiset(Coros(t.sleepers))[d] == multiset(Coros(st.sleepers))[d]
    ensures Shows(t, due, Parking.World(loops, w.cos[c := i]), k)
  {
    hide Lists.Move, Lists.Valid, Coros;
    SameOthers(st.queue, t.queue, c);
    SameOthers(Coros(st.sleepers), Coros(t.sleepers), c);
    var u := Parking.World(loops, w.cos[c := i]);
    st.lists.MoveKeepsValid(c, p);
    assert ShowsCo(st, due, c, w.cos[c]);
    forall d | Mine(u, k, d) ensures ShowsCo(t, due, d, u.cos[d]) {
      if d != c { assert ShowsCo(st, due, d, w.cos[d]); }
    }
    forall q, d | d in t.lists.At(q) ensures Mine(u, k, d) {
      assert d == c || (d in st.lists.At(q) && Mine(w, k, d));
    }
  }

  /** The same without a move. */
  lemma Renumbered(st: State<Co>, due: seq<Co>, w: Parking.World, k: nat, c: Co, i: Parking.Info, t: State<Co>, due': seq<Co>)
    requires Shows(st, due, w, k) && Mine(w, k, c)
    requires t.lists == st.lists && i.place == w.cos[c].place
    requires i.posted == multiset(t.queue)[c] && i.due == multiset(due')[c] && i.asleep == multiset(Coros(t.sleepers))[c]
    requires forall d | d != c :: multiset(t.queue)[d] == multiset(st.queue)[d]
    requires forall d | d != c :: multiset(due')[d] == multiset(due)[d]
    requires forall d | d != c :: multiset(Coros(t.sleepers))[d] == multiset(Coros(st.sleepers))[d]
    ensures Shows(t, due', w.(cos := w.cos[c := i]), k)
  {
    hide Lists.Valid, Coros;
    SameOthers(st.queue, t.queue, c);
    SameOthers(due, due', c);
    SameOthers(Coros(st.sleepers), Coros(t.sleepers), c);
    var u := w.(cos := w.cos[c := i]);
    assert ShowsCo(st, due, c, w.cos[c]);
    forall d | Mine(u, k, d) ensures ShowsCo(t, due', d, u.cos[d]) {
      if d != c { assert ShowsCo(st, due, d, w.cos[d]); }
    }
    forall q, d | d in t.lists.At(q) ensures Mine(u, k, d) { assert Mine(w, k, d); }
  }

  lemma {:induction false} CorosPushed(s: seq<Sleeper<Co>>, x: Sleeper<Co>)
    ensures multiset(Coros(PushSleeper(s, x))) == multiset(Coros(s)) + multiset{x.coro}
  {
    var r := PushSleeper(s, x);
    if s == [] || !Earlier(s[0], x) {
      assert r[1..] == s;
    } else {
      assert r[0] == s[0] && r[1..] == PushSleeper(s[1..], x);
      CorosPushed(s[1..], x);
    }
  }

  /** What Parking makes of the way a coroutine gives the processor back. */
  function AfterFate(w: Parking.World, c: Co, fate: Fate): Parking.World
    requires Parking.Running(w, c) && (fate.Suspends? || !w.cos[c].enlisted)
  {
    match fate
    case Yields => Parking.Apply(w, Parking.Yield(c))
    case Ends => Parking.Apply(w, Parking.End(c))
    case Sleeps(_) => Parking.Apply(w, Parking.Sleep(c))
    case Suspends => Parking.Park(w, c)
  }

  lemma FateIsAStep(st: State<Co>, due: seq<Co>, w: Parking.World, k: nat, c: Co, fate: Fate, slot: Co -> nat)
    requires Shows(st, due, w, k) && c.sched == k && Parking.Running(w, c) && (fate.Suspends? || !w.cos[c].enlisted)
    ensures Shows(DoFate(st, c, fate, slot), due, AfterFate(w, c, fate), k)
  {
    if fate.Sleeps? {
      SleepIsAStep(st, due, w, k, c, fate.until, slot);
    } else {
      var t, u := DoFate(st, c, fate, slot), AfterFate(w, c, fate);
      assert Mine(w, k, c) && ShowsCo(st, due, c, w.cos[c]);
      hide Shows, Coros, Lists.Move;
      Moved(st, due, w, k, c, Destination(fate), u.cos[c], t, u.loops);
    }
  }

  lemma SleepIsAStep(st: State<Co>, due: seq<Co>, w: Parking.World, k: nat, c: Co, until: int, slot: Co -> nat)
    requires Shows(st, due, w, k) && c.sched == k && Parking.Running(w, c) && !w.cos[c].enlisted
    ensures Shows(DoFate(st, c, Sleeps(until), slot), due, Parking.Apply(w, Parking.Sleep(c)), k)
  {
    var t, u := DoFate(st, c, Sleeps(until), slot), Parking.Apply(w, Parking.Sleep(c));
    assert Mine(w, k, c) && ShowsCo(st, due, c, w.cos[c]);
    hide Shows, Coros, Lists.Move, PushSleeper;
    CorosPushed(st.sleepers, Sleeper(until, slot(c), c));
    Moved(st, due, w, k, c, Suspended, u.cos[c], t, u.loops);
  }

  /** `addCoroutine` puts some free coroutine in the yield list, or fails if there is none. */
  lemma AddIsAStep(st: State<Co>, due: seq<Co>, w: Parking.World, k: nat)
    requires Shows(st, due, w, k)
    ensures st.lists.free == [] ==>
      DoOp(st, AddOp) == st && forall c | Mine(w, k, c) :: !Parking.Enabled(w, Parking.Add(c))
    ensures st.lists.free != [] ==> Parking.Enabled(w, Parking.Add(st.lists.free[0]))
    ensures st.lists.free != [] ==> Shows(DoOp(st, AddOp), due, Parking.Apply(w, Parking.Add(st.lists.free[0])), k)
  {
    if st.lists.free == [] {
      forall c | Mine(w, k, c) ensures !Parking.Enabled(w, Parking.Add(c)) {
        assert ShowsCo(st, due, c, w.cos[c]);
      }
    } else {
      var c := st.lists.free[0];
      assert c in st.lists.At(Free) && Mine(w, k, c) && ShowsCo(st, due, c, w.cos[c]);
      assert w.cos[c].place == Free;
      Moved(st, due, w, k, c, Yielding, w.cos[c].(place := Yielding), DoOp(st, AddOp), w.loops);
    }
  }

  /** A resume is posted for a coroutine whose entry has been popped from a wait queue. */
  lemma PostIsAStep(st: State<Co>, due: seq<Co>, w: Parking.World, k: nat, c: Co)
    requires Shows(st, due, w, k) && Mine(w, k, c) && w.cos[c].entries > 0
    ensures Shows(DoOp(st, PostOp(c)), due, Parking.Wake(w, c), k)
  {
    assert ShowsCo(st, due, c, w.cos[c]);
    Renumbered(st, due, w, k, c, Parking.Wake(w, c).cos[c], DoOp(st, PostOp(c)), due);
  }

  /** `wakeUpSleep` takes the first sleeper. */
  lemma PopIsAStep(st: State<Co>, due: seq<Co>, w: Parking.World, k: nat)
    requires Shows(st, due, w, k) && Parking.LoopAt(w, k, Parking.Waking) && st.sleepers != []
    ensures var c := st.sleepers[0].coro;
      && Parking.Enabled(w, Parking.PopSleeper(c))
      && Shows(st.(sleepers := st.sleepers[1..]), due + [c], Parking.Apply(w, Parking.PopSleeper(c)), k)
  {
    var c := st.sleepers[0].coro;
    assert c in Coros(st.sleepers) && Mine(w, k, c);
    assert ShowsCo(st, due, c, w.cos[c]);
    var t := st.(sleepers := st.sleepers[1..]);
    assert Coros(st.sleepers) == [c] + Coros(t.sleepers);
    assert multiset(Coros(st.sleepers)) == multiset{c} + multiset(Coros(t.sleepers));
    Renumbered(st, due, w, k, c, Parking.Apply(w, Parking.PopSleeper(c)).cos[c], t, due + [c]);
  }

  /** And posts the resumes of those it took, in order, when it has taken all that are due. */
  lemma PostExpiredIsAStep(st: State<Co>, due: seq<Co>, w: Parking.World, k: nat)
    requires Shows(st, due, w, k) && Parking.LoopAt(w, k, Parking.Posting) && due != []
    ensures Parking.Enabled(w, Parking.PostExpired(due[0]))
    ensures Shows(st.(queue := st.queue + [due[0]]), due[1..], Parking.Apply(w, Parking.PostExpired(due[0])), k)
  {
    var c := due[0];
    assert c in due && Mine(w, k, c);
    assert ShowsCo(st, due, c, w.cos[c]);
    assert due == [c] + due[1..];
    assert multiset(due) == multiset{c} + multiset(due[1..]);
    Renumbered(st, due, w, k, c, Parking.Apply(w, Parking.PostExpired(c)).cos[c], st.(queue := st.queue + [c]), due[1..]);
  }

  /** Draining moves exactly the coroutines of the queue to the resume list. */
  lemma {:induction false} AfterDrain(l: Lists<Co>, q: seq<Co>, c: Co, p: Place)
    requires l.Valid()
    ensures ResumeAll(l, q).Valid()
    ensures c in ResumeAll(l, q).At(p) <==> if c in q then p == Resumed else c in l.At(p)
    decreases |q|
  {
    if q != [] {
      var m := l.Move(q[0], Resumed);
      MovedAt(l, q[0], Resumed, c, p);
      AfterDrain(m, q[1..], c, p);
      assert c in q <==> c == q[0] || c in q[1..];
    }
  }

  lemma MovedAt(l: Lists<Co>, x: Co, to: Place, c: Co, p: Place)
    requires l.Valid()
    ensures l.Move(x, to).Valid()
    ensures c in l.Move(x, to).At(p) <==> if c == x then p == to else c in l.At(p)
  {
    l.MoveKeepsValid(x, to);
  }

  lemma DrainIsAStep(st: State<Co>, w: Parking.World, k: nat)
    requires Shows(st, [], w, k) && Parking.LoopAt(w, k, Parking.Posting)
    ensures Parking.Enabled(w, Parking.Drain(k))
    ensures Shows(Drain(st), [], Parking.Apply(w, Parking.Drain(k)), k)
    ensures Parking.Apply(w, Parking.Drain(k)).loops[k].todo == set c | c in Drain(st).lists.resumed
  {
    forall c | Mine(w, k, c) ensures w.cos[c].due == 0 { assert ShowsCo(st, [], c, w.cos[c]); }
    var t, d := Drain(st), Parking.Drained(w, k);
    DrainShows(st, w, k);
    forall c ensures c in Parking.Snapshot(d, k, Resumed) <==> c in t.lists.resumed {
      InResumed(t, d, k, c);
    }
    assert Parking.Snapshot(d, k, Resumed) == set c | c in t.lists.resumed;
    SameCos(t, [], d, Parking.Apply(w, Parking.Drain(k)), k);
  }

  lemma SameCos(st: State<Co>, due: seq<Co>, w: Parking.World, u: Parking.World, k: nat)
    requires Shows(st, due, w, k) && u.cos == w.cos
    ensures Shows(st, due, u, k)
  {
    forall c | Mine(u, k, c) ensures ShowsCo(st, due, c, u.cos[c]) { assert Mine(w, k, c); }
    forall c | Mine(w, k, c) ensures Mine(u, k, c) { }
  }

  lemma DrainShows(st: State<Co>, w: Parking.World, k: nat)
    requires Shows(st, [], w, k)
    ensures Shows(Drain(st), [], Parking.Drained(w, k), k)
  {
    var t, d := Drain(st), Parking.Drained(w, k);
    DrainKeepsValid(st);
    hide Lists.Valid;
    forall c | Mine(d, k, c) ensures ShowsCo(t, [], c, d.cos[c]) {
      assert Mine(w, k, c) && ShowsCo(st, [], c, w.cos[c]);
      AfterDrain(st.lists, st.queue, c, d.cos[c].place);
    }
    forall p, c | c in t.lists.At(p) ensures Mine(d, k, c) {
      AfterDrain(st.lists, st.queue, c, p);
      assert Mine(w, k, c);
    }
  }

  lemma DrainKeepsValid(st: State<Co>)
    requires st.lists.Valid()
    ensures Drain(st).lists.Valid()
  {
    ResumeAllKeepsValid(st.lists, st.queue);
  }

  lemma InResumed(st: State<Co>, w: Parking.World, k: nat, c: Co)
    requires Shows(st, [], w, k)
    ensures c in Parking.Snapshot(w, k, Resumed) <==> c in st.lists.resumed
  {
    assert st.lists.resumed == st.lists.At(Resumed);
    if c in st.lists.At(Resumed) { assert Mine(w, k, c); }
    if Mine(w, k, c) { assert ShowsCo(st, [], c, w.cos[c]); }
  }
}
