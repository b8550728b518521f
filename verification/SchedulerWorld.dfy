/** A scheduler object in the world of Parking: its nodes are the coroutines `Co(k, id)`. */
module SchedulerWorld {
  import opened Systems
  import opened Sequences
  import opened CoroLists
  import opened IntrusiveList
  import opened SchedulerPass
  import opened Scheduler
  import opened SchedulerSteps
  import opened SchedulerRuns
  import opened Relabels
  import Rings
  import P = Parking

  function Name(k: nat): Node -> Co {
    (n: Node) => P.Co(k, n.id)
  }

  function SlotOf(c: Co): nat {
    c.slot
  }

  /** The linked lists and queues of the scheduler show the coroutines of scheduler `k`. */
  ghost predicate Shown(s: CoroutineScheduler, w: P.World, k: nat)
    reads s
  {
    Shows(MapState(Name(k), s.State()), [], w, k)
  }

  ghost function Coros(s: CoroutineScheduler): set<Node> {
    set n | n in s.coros
  }

  lemma NamesAreOwn(s: CoroutineScheduler, k: nat)
    requires s.Valid()
    ensures OneToOne(Name(k), Coros(s)) && StateWithin(s.State(), Coros(s))
  {
    forall m, n | m in Coros(s) && n in Coros(s) && Name(k)(m) == Name(k)(n) ensures m == n {
      var i :| 0 <= i < |s.coros| && s.coros[i] == m;
      var j :| 0 <= j < |s.coros| && s.coros[j] == n;
    }
    forall p ensures Within(s.lists.At(p), Coros(s)) {
      forall i | 0 <= i < |s.lists.At(p)| ensures s.lists.At(p)[i] in Coros(s) {
        assert s.lists.At(p)[i] in s.lists.At(p);
      }
    }
    assert ListsWithin(s.lists, Coros(s)) by {
      var l := s.lists;
      assert l.At(Free) == l.free && l.At(Yielding) == l.yielding && l.At(Suspended) == l.suspended && l.At(Resumed) == l.resumed;
    }
  }

  lemma RoundIsOwn(s: CoroutineScheduler, k: nat, r: Round<Node>)
    requires s.RoundOk(r)
    ensures RoundWithin(r, Coros(s)) && SameSlots(Name(k), Coros(s), Slot, SlotOf)
  {
    forall i: nat ensures OpsWithin(r.turns(i).ops, Coros(s)) { assert s.OpsOk(r.turns(i).ops); }
    forall i: nat ensures OpsWithin(r.posting(i), Coros(s)) { assert s.OpsOk(r.posting(i)); }
  }

  /** A pass of the scheduler object is a run of the world, of which the object shows its part. */
  method RunPassInWorld(s: CoroutineScheduler, r: Round<Node>, ghost k: nat, ghost w: P.World)
    returns (switched: seq<Node>, ghost u: P.World)
    requires s.Valid() && s.RoundOk(r) && Shown(s, w, k) && P.Inv(w) && P.LoopAt(w, k, P.Waking)
    requires PassFits(MapState(Name(k), s.State()), w, k, MapRound(Name(k), r), SlotOf)
    modifies s, s.nodes
    ensures s.Valid() && switched == Switched(old(s.State()), r, Slot)
    ensures s.State() == Pass(old(s.State()), r, Slot)
    ensures MapState(Name(k), s.State()) == Pass(MapState(Name(k), old(s.State())), MapRound(Name(k), r), SlotOf)
    ensures u == PassWorld(MapState(Name(k), old(s.State())), w, k, MapRound(Name(k), r), SlotOf)
    ensures Reaches(P.Next, w, u) && Shown(s, u, k) && P.Inv(u) && P.LoopAt(u, k, P.Waking)
    ensures AllSuspended(MapState(Name(k), Awake(old(s.State()), r)))
  {
    hide Shows, PassFits, Pass, PassWorld, Awake, MapState, MapRound, OneToOne, StateWithin, RoundWithin, SameSlots, Reaches, P.Inv;
    NamesAreOwn(s, k);
    RoundIsOwn(s, k, r);
    ghost var st, m := s.State(), MapRound(Name(k), r);
    MapPass(Name(k), Coros(s), st, r, Slot, SlotOf);
    PassIsARun(MapState(Name(k), st), w, k, m, SlotOf);
    u := PassWorld(MapState(Name(k), st), w, k, m, SlotOf);
    switched := s.RunPass(r);
  }

  function MapRounds(k: nat, rounds: seq<Round<Node>>): seq<Round<Co>> {
    if rounds == [] then [] else [MapRound(Name(k), rounds[0])] + MapRounds(k, rounds[1..])
  }

  /** And so are any number of passes. */
  method RunInWorld(s: CoroutineScheduler, rounds: seq<Round<Node>>, ghost k: nat, ghost w: P.World) returns (ghost u: P.World)
    requires s.Valid() && Shown(s, w, k) && P.Inv(w) && P.LoopAt(w, k, P.Waking)
    requires forall i | 0 <= i < |rounds| :: s.RoundOk(rounds[i])
    requires LoopFits(MapState(Name(k), s.State()), w, k, MapRounds(k, rounds), SlotOf)
    modifies s, s.nodes
    ensures s.Valid() && s.State() == RunLoop(old(s.State()), rounds, Slot)
    ensures Reaches(P.Next, w, u) && Shown(s, u, k) && P.Inv(u) && P.LoopAt(u, k, P.Waking)
  {
    hide Shows, Shown, PassFits, Pass, PassWorld, Awake, MapState, MapRound, Reaches, P.Inv, P.LoopAt, AllSuspended, Switched;
    u := w;
    ReachesItself(P.Next, w);
    for i := 0 to |rounds|
      invariant s.Valid() && Reaches(P.Next, w, u) && Shown(s, u, k) && P.Inv(u) && P.LoopAt(u, k, P.Waking)
      invariant LoopFits(MapState(Name(k), s.State()), u, k, MapRounds(k, rounds[i..]), SlotOf)
      invariant RunLoop(s.State(), rounds[i..], Slot) == RunLoop(old(s.State()), rounds, Slot)
    {
      assert rounds[i..][1..] == rounds[i + 1..];
      ghost var ms := MapRounds(k, rounds[i..]);
      assert ms[1..] == MapRounds(k, rounds[i + 1..]);
      ghost var v := u;
      var switched;
      switched, u := RunPassInWorld(s, rounds[i], k, u);
      ReachesOn(P.Next, w, v, u);
    }
  }

  /** In the world, scheduler `k` has `n` coroutines, all free, and is at the top of its loop. */
  ghost predicate Unused(w: P.World, k: nat, n: nat) {
    && (forall c :: Mine(w, k, c) <==> c.sched == k && c.slot < n)
    && (forall c | Mine(w, k, c) :: w.cos[c] == P.Info(Free, 0, 0, 0, 0, false))
  }

  /** A new scheduler shows coroutines that are all free. */
  method MakeScheduler(n: nat, ghost k: nat, ghost w: P.World) returns (s: CoroutineScheduler)
    requires Unused(w, k, n)
    ensures s.Valid() && fresh(s) && fresh(s.nodes) && |s.coros| == n && Shown(s, w, k)
  {
    s := new CoroutineScheduler(n);
    ghost var all := Reverse(s.coros);
    NamesAreOwn(s, k);
    assert all == s.lists.At(Free);
    NewLists(s, k, n, w, all);
  }

  lemma NewLists(s: CoroutineScheduler, k: nat, n: nat, w: P.World, all: seq<Node>)
    requires s.Valid() && |s.coros| == n && Unused(w, k, n) && OneToOne(Name(k), Coros(s))
    requires s.State() == State(Lists(all, [], [], []), [], []) && NoDup(all) && Within(all, Coros(s))
    ensures Shown(s, w, k)
  {
    MapElems(Name(k), Coros(s), all);
    forall c ensures c in Map(Name(k), all) <==> Mine(w, k, c) {
      NewListHas(s, k, n, w, all, c);
    }
    AllFreeShown(Map(Name(k), all), w, k, n);
  }

  lemma NewListHas(s: CoroutineScheduler, k: nat, n: nat, w: P.World, all: seq<Node>, c: Co)
    requires s.Valid() && |s.coros| == n && Unused(w, k, n) && OneToOne(Name(k), Coros(s))
    requires s.State() == State(Lists(all, [], [], []), [], []) && Within(all, Coros(s))
    ensures c in Map(Name(k), all) <==> Mine(w, k, c)
  {
    hide Rings.Linked, OneToOne, Unused;
    MapElems(Name(k), Coros(s), all);
    if c in Map(Name(k), all) {
      var x :| x in all && Name(k)(x) == c;
      assert x in Coros(s);
      HasSlot(s, x);
      UnusedHas(w, k, n, c);
    }
    if Mine(w, k, c) {
      UnusedHas(w, k, n, c);
      var node := s.coros[c.slot];
      IsFree(s, all, node);
      assert Name(k)(node) == c;
    }
  }

  lemma UnusedHas(w: P.World, k: nat, n: nat, c: Co)
    requires Unused(w, k, n)
    ensures Mine(w, k, c) <==> c.sched == k && c.slot < n
  {
  }

  lemma HasSlot(s: CoroutineScheduler, x: Node)
    requires s.Valid() && x in s.coros
    ensures x.id < |s.coros|
  {
    hide Rings.Linked, Lists.Partition;
    var i :| 0 <= i < |s.coros| && s.coros[i] == x;
  }

  lemma IsFree(s: CoroutineScheduler, all: seq<Node>, x: Node)
    requires s.Valid() && x in s.coros && s.lists == Lists(all, [], [], [])
    ensures x in all && x in Coros(s)
  {
    hide Rings.Linked, Numbered;
    assert s.lists.Has(x);
    var p :| x in s.lists.At(p);
  }

  lemma AllFreeShown(free: seq<Co>, w: P.World, k: nat, n: nat)
    requires Unused(w, k, n) && NoDup(free) && forall c :: c in free <==> Mine(w, k, c)
    ensures Shows(State(Lists(free, [], [], []), [], []), [], w, k)
  {
    var st := State(Lists(free, [], [], []), [], []);
    assert st.lists.At(Free) == free;
    forall p ensures NoDup(st.lists.At(p)) { }
    forall p, q, x | x in st.lists.At(p) && x in st.lists.At(q) ensures p == q { assert p == Free && q == Free; }
    forall c | Mine(w, k, c) ensures ShowsCo(st, [], c, w.cos[c]) { }
    forall p, c | c in st.lists.At(p) ensures Mine(w, k, c) { assert p == Free; }
  }
}
