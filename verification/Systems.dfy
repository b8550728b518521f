/** Transition systems: `next` says where a move leads, if it is possible, and a run is a sequence of
    moves. */
module Systems {
  import opened Options

  ghost predicate Runs<S, M>(next: (S, M) -> Option<S>, s: S, run: seq<M>)
    decreases |run|
  {
    run != [] ==> next(s, run[0]).Some? && Runs(next, next(s, run[0]).value, run[1..])
  }

  /** Where a run leads. */
  ghost function Exec<S, M>(next: (S, M) -> Option<S>, s: S, run: seq<M>): S
    requires Runs(next, s, run)
    decreases |run|
  {
    if run == [] then s else Exec(next, next(s, run[0]).value, run[1..])
  }

  /** What every move keeps holds wherever a run leads. */
  lemma {:induction false} Invariant<S(!new), M(!new)>(next: (S, M) -> Option<S>, inv: S -> bool, s: S, run: seq<M>)
    requires Runs(next, s, run) && inv(s)
    requires forall t, mv | inv(t) && next(t, mv).Some? :: inv(next(t, mv).value)
    ensures inv(Exec(next, s, run))
    decreases |run|
  {
    if run != [] {
      Invariant(next, inv, next(s, run[0]).value, run[1..]);
    }
  }

  lemma OneMove<S, M>(next: (S, M) -> Option<S>, s: S, a: M)
    requires next(s, a).Some?
    ensures Runs(next, s, [a]) && Exec(next, s, [a]) == next(s, a).value
  {
    var t, run := next(s, a).value, [a];
    assert run[0] == a && run[1..] == [];
    assert Runs(next, t, []) && Exec(next, t, []) == t;
    assert Runs(next, t, run[1..]);
    assert Runs(next, s, run);
    assert Exec(next, s, run) == Exec(next, t, run[1..]);
  }

  lemma {:induction false} RunsJoin<S, M>(next: (S, M) -> Option<S>, s: S, a: seq<M>, b: seq<M>)
    requires Runs(next, s, a) && Runs(next, Exec(next, s, a), b)
    ensures Runs(next, s, a + b) && Exec(next, s, a + b) == Exec(next, Exec(next, s, a), b)
    decreases |a|
  {
    if a == [] {
      assert a + b == b;
    } else {
      assert (a + b)[1..] == a[1..] + b;
      RunsJoin(next, next(s, a[0]).value, a[1..], b);
    }
  }

  ghost predicate Reaches<S, M(!new)>(next: (S, M) -> Option<S>, s: S, t: S) {
    exists run: seq<M> :: Runs(next, s, run) && Exec(next, s, run) == t
  }

  lemma ReachesItself<S, M(!new)>(next: (S, M) -> Option<S>, s: S)
    ensures Reaches(next, s, s)
  {
    var run: seq<M> := [];
    assert Runs(next, s, run) && Exec(next, s, run) == s;
  }

  lemma ReachesBy<S, M(!new)>(next: (S, M) -> Option<S>, s: S, a: M)
    requires next(s, a).Some?
    ensures Reaches(next, s, next(s, a).value)
  {
    OneMove(next, s, a);
  }

  lemma ReachesOn<S, M(!new)>(next: (S, M) -> Option<S>, s: S, t: S, u: S)
    requires Reaches(next, s, t) && Reaches(next, t, u)
    ensures Reaches(next, s, u)
  {
    var a: seq<M> :| Runs(next, s, a) && Exec(next, s, a) == t;
    var b: seq<M> :| Runs(next, t, b) && Exec(next, t, b) == u;
    RunsJoin(next, s, a, b);
  }

  /** The moves of one system, each as moves of another; what they are may depend on the state. */
  ghost function Project<S, M, A>(next: (S, M) -> Option<S>, part: (S, M) -> seq<A>, s: S, run: seq<M>): seq<A>
    requires Runs(next, s, run)
    decreases |run|
  {
    if run == [] then [] else part(s, run[0]) + Project(next, part, next(s, run[0]).value, run[1..])
  }

  /** If each move, as moves of the other system, does to `view` of the state what it should, then so
      does every run. */
  lemma {:induction false} Projects<S(!new), M(!new), T, A>(
    next: (S, M) -> Option<S>, inv: S -> bool, view: S -> T, step: (T, A) -> Option<T>, part: (S, M) -> seq<A>, s: S, run: seq<M>)
    requires Runs(next, s, run) && inv(s)
    requires forall t, mv | inv(t) && next(t, mv).Some? ::
      && inv(next(t, mv).value) && Runs(step, view(t), part(t, mv))
      && Exec(step, view(t), part(t, mv)) == view(next(t, mv).value)
    ensures var acts := Project(next, part, s, run);
      Runs(step, view(s), acts) && Exec(step, view(s), acts) == view(Exec(next, s, run))
    decreases |run|
  {
    if run != [] {
      var t := next(s, run[0]).value;
      Projects(next, inv, view, step, part, t, run[1..]);
      RunsJoin(step, view(s), part(s, run[0]), Project(next, part, t, run[1..]));
    }
  }

  lemma {:induction false} ProjectHas<S, M, A>(next: (S, M) -> Option<S>, part: (S, M) -> seq<A>, s: S, run: seq<M>, a: A)
    returns (t: S, i: nat)
    requires Runs(next, s, run) && a in Project(next, part, s, run)
    ensures i < |run| && a in part(t, run[i])
    decreases |run|
  {
    if a in part(s, run[0]) {
      t, i := s, 0;
    } else {
      t, i := ProjectHas(next, part, next(s, run[0]).value, run[1..], a);
      i := i + 1;
    }
  }
}
