/** Who runs in a pass, and in which order: what becomes of posted resumes and of the coroutines that run. */
module SchedulerOrder {
  import opened Sequences
  import opened CoroLists
  import opened SchedulerPass

  // ----- posted resumes

  /** The coroutines whose resumes the operations post, in order. */
  function Posts<T>(ops: seq<Op<T>>): seq<T> {
    if ops == [] then [] else (if ops[0].PostOp? then [ops[0].coro] else []) + Posts(ops[1..])
  }

  lemma {:induction false} OpsPost<T>(st: State<T>, ops: seq<Op<T>>)
    ensures DoOps(st, ops).queue == st.queue + Posts(ops) && DoOps(st, ops).sleepers == st.sleepers
    decreases |ops|
  {
    if ops != [] { OpsPost(DoOp(st, ops[0]), ops[1..]); }
  }

  /** Those of `due` in order, each behind what others post before it. */
  function Woven<T>(due: seq<T>, posting: nat -> seq<Op<T>>, i: nat): seq<T>
    decreases |due|
  {
    Posts(posting(i)) + if due == [] then [] else [due[0]] + Woven(due[1..], posting, i + 1)
  }

  lemma {:induction false} PostAllPosts<T>(st: State<T>, due: seq<T>, posting: nat -> seq<Op<T>>, i: nat)
    ensures PostAll(st, due, posting, i).queue == st.queue + Woven(due, posting, i)
    decreases |due|
  {
    OpsPost(st, posting(i));
    if due != [] {
      var t := DoOps(st, posting(i));
      PostAllPosts(t.(queue := t.queue + [due[0]]), due[1..], posting, i + 1);
    }
  }

  /** First in, first out: the queue that is drained holds what was posted, in the order it was posted. */
  lemma QueueInOrder<T>(st: State<T>, r: Round<T>)
    ensures Awake(st, r).queue == st.queue + Posts(r.top) + Woven(Expired(st.sleepers, r.now), r.posting, 0)
  {
    OpsPost(st, r.top);
    var t := DoOps(st, r.top);
    PostAllPosts(t.(sleepers := Unexpired(t.sleepers, r.now)), Expired(t.sleepers, r.now), r.posting, 0);
  }

  lemma {:induction false} ResumedReversed<T>(l: Lists<T>, q: seq<T>)
    requires NoDup(q) && forall c | c in q :: c !in l.resumed
    ensures ResumeAll(l, q).resumed == Reverse(q) + l.resumed
    decreases |q|
  {
    if q != [] {
      assert q == [q[0]] + q[1..] && q[0] !in q[1..];
      WithoutAbsent(l.resumed, q[0]);
      ResumedReversed(l.Move(q[0], Resumed), q[1..]);
    }
  }

  /** The coroutines that are resumed run in the reverse of the order in which they were posted, if they
      are suspended and posted once, as they are in every state of the protocol. */
  lemma LastPostedRunsFirst<T>(st: State<T>, r: Round<T>, slot: T -> nat)
    requires st.lists.Valid() && st.lists.resumed == [] && NoDup(Awake(st, r).queue)
    requires forall c | c in Awake(st, r).queue :: c !in Awake(st, r).lists.resumed
    ensures var posted := st.queue + Posts(r.top) + Woven(Expired(st.sleepers, r.now), r.posting, 0);
      |posted| <= |Switched(st, r, slot)| && Switched(st, r, slot)[..|posted|] == Reverse(posted)
  {
    QueueInOrder(st, r);
    AwakeOnlyAddsYielding(st, r);
    ResumedReversed(Awake(st, r).lists, Awake(st, r).queue);
    ReadyLists(st, r);
    hide Awake, Ready, AfterResumed;
    var q := Awake(st, r).queue;
    assert Ready(st, r).lists.resumed == Reverse(q);
    ReverseLength(q);
  }

  lemma {:induction false} ReverseLength<T>(s: seq<T>)
    ensures |Reverse(s)| == |s|
  {
    if s != [] { ReverseLength(s[1..]); }
  }

  // ----- what becomes of a coroutine

  /** Operations move coroutines from the free list to the yield list, and no others. */
  lemma {:induction false} OpsMoveOnlyFree<T>(st: State<T>, ops: seq<Op<T>>, d: T, p: Place)
    requires st.lists.Valid() && d in st.lists.At(p)
    ensures var l := DoOps(st, ops).lists; l.Valid() && (d in l.At(p) || (p == Free && d in l.yielding))
    decreases |ops|
  {
    if ops != [] {
      var t := DoOp(st, ops[0]);
      if ops[0].AddOp? && st.lists.free != [] {
        assert st.lists.free[0] in st.lists.At(Free);
        st.lists.MoveKeepsValid(st.lists.free[0], Yielding);
        Moved(st.lists, st.lists.free[0], Yielding, d, p);
      }
      if d in t.lists.At(p) {
        OpsMoveOnlyFree(t, ops[1..], d, p);
      } else {
        OpsMoveOnlyFree(t, ops[1..], d, Yielding);
      }
    }
  }

  lemma Moved<T>(l: Lists<T>, x: T, to: Place, d: T, p: Place)
    requires l.Valid() && d in l.At(p)
    ensures l.Move(x, to).Valid() && d in l.Move(x, to).At(if d == x then to else p)
  {
    l.MoveKeepsValid(x, to);
  }

  /** After its turn a coroutine that yields is the first in the yield list, one that suspends or sleeps is
      suspended, and one that ends is the first that `addCoroutine` takes; every other coroutine is where
      it was, but for free ones that were added. */
  lemma AfterTurn<T>(st: State<T>, c: T, turn: Turn<T>, slot: T -> nat, d: T, p: Place)
    requires st.lists.Valid() && (c in st.lists.resumed || c in st.lists.yielding) && d in st.lists.At(p)
    ensures var l := DoTurn(st, c, turn, slot).lists;
      && l.Valid()
      && (turn.fate.Yields? ==> l.yielding != [] && l.yielding[0] == c)
      && (turn.fate.Suspends? || turn.fate.Sleeps? ==> c in l.suspended)
      && (turn.fate.Ends? ==> l.free != [] && l.free[0] == c)
      && (d != c ==> d in l.At(p) || (p == Free && d in l.yielding))
  {
    hide Lists.Valid, Lists.Move, DoOps;
    var home := if c in st.lists.resumed then Resumed else Yielding;
    assert c in st.lists.At(home);
    OpsMoveOnlyFree(st, turn.ops, c, home);
    OpsMoveOnlyFree(st, turn.ops, d, p);
    var o := DoOps(st, turn.ops).lists;
    if d != c { Moved(o, c, Destination(turn.fate), d, if d in o.At(p) then p else Yielding); }
    o.MoveKeepsValid(c, Destination(turn.fate));
    FirstThere(o, c, Destination(turn.fate));
    assert forall l: Lists<T> :: l.At(Yielding) == l.yielding;
  }

  lemma FirstThere<T>(l: Lists<T>, c: T, p: Place)
    ensures var m := l.Move(c, p).At(p); m != [] && m[0] == c
  {
  }

  /** Where a coroutine is that has had its turn, when others have had theirs. */
  ghost predicate Ended<T>(l: Lists<T>, c: T, fate: Fate) {
    match fate
    case Yields => c in l.yielding
    case Suspends => c in l.suspended
    case Sleeps(_) => c in l.suspended
    case Ends => c in l.free || c in l.yielding
  }

  /** A coroutine that is in neither snapshot any more stays where its turn has left it. */
  lemma {:induction false} StaysEnded<T>(st: State<T>, todo: seq<T>, turns: nat -> Turn<T>, slot: T -> nat, i: nat, c: T, fate: Fate)
    requires st.lists.Valid() && NoDup(todo) && c !in todo && Ended(st.lists, c, fate)
    requires st.lists.resumed == todo || (st.lists.resumed == [] && EndsWith(st.lists.yielding, todo))
    ensures Ended(RunAll(st, todo, turns, slot, i).lists, c, fate)
    decreases |todo|
  {
    hide DoTurn;
    if todo != [] {
      var d, rest := todo[0], todo[1..];
      assert todo == [d] + rest && NoDup(rest) && d !in rest;
      NextTurn(st, d, rest, turns(i), slot);
      StillEnded(st, d, turns(i), slot, c, fate);
      StaysEnded(DoTurn(st, d, turns(i), slot), rest, turns, slot, i + 1, c, fate);
    }
  }

  lemma NextTurn<T>(st: State<T>, d: T, rest: seq<T>, turn: Turn<T>, slot: T -> nat)
    requires st.lists.Valid()
    requires st.lists.resumed == [d] + rest || (st.lists.resumed == [] && EndsWith(st.lists.yielding, [d] + rest))
    ensures var r := DoTurn(st, d, turn, slot).lists;
      r.Valid() && (r.resumed == rest || (r.resumed == [] && EndsWith(r.yielding, rest)))
    ensures d in st.lists.resumed || d in st.lists.yielding
  {
    hide DoTurn, Lists.Valid;
    if st.lists.resumed == [d] + rest {
      ResumedTurn(st, d, rest, turn, slot);
    } else {
      EndsWithHas(st.lists.yielding, [d] + rest);
      YieldingTurn(st, d, rest, turn, slot);
    }
  }

  lemma StillEnded<T>(st: State<T>, d: T, turn: Turn<T>, slot: T -> nat, c: T, fate: Fate)
    requires st.lists.Valid() && (d in st.lists.resumed || d in st.lists.yielding) && c != d && Ended(st.lists, c, fate)
    ensures Ended(DoTurn(st, d, turn, slot).lists, c, fate)
  {
    hide DoTurn, Lists.Valid;
    var p := match fate
      case Yields => Yielding
      case Suspends => Suspended
      case Sleeps(_) => Suspended
      case Ends => if c in st.lists.yielding then Yielding else Free;
    assert c in st.lists.At(p);
    AfterTurn(st, d, turn, slot, c, p);
    var l := DoTurn(st, d, turn, slot).lists;
    assert l.At(p) == match p case Yielding => l.yielding case Suspended => l.suspended case _ => l.free;
  }

  /** Each coroutine of a snapshot has the turn that comes with its place in the pass, and ends where that
      turn leaves it, whatever the others do. */
  lemma {:induction false} EachItsOwnTurn<T>(st: State<T>, todo: seq<T>, turns: nat -> Turn<T>, slot: T -> nat, i: nat, k: nat)
    requires st.lists.Valid() && NoDup(todo) && k < |todo|
    requires st.lists.resumed == todo || (st.lists.resumed == [] && EndsWith(st.lists.yielding, todo))
    ensures Ended(RunAll(st, todo, turns, slot, i).lists, todo[k], turns(i + k).fate)
    decreases |todo|
  {
    hide DoTurn;
    var d, rest := todo[0], todo[1..];
    assert todo == [d] + rest && NoDup(rest) && d !in rest;
    NextTurn(st, d, rest, turns(i), slot);
    var t := DoTurn(st, d, turns(i), slot);
    if k == 0 {
      EndsByFate(st, d, turns(i), slot);
      StaysEnded(t, rest, turns, slot, i + 1, d, turns(i).fate);
    } else {
      EachItsOwnTurn(t, rest, turns, slot, i + 1, k - 1);
    }
  }

  lemma EndsByFate<T>(st: State<T>, c: T, turn: Turn<T>, slot: T -> nat)
    requires st.lists.Valid() && (c in st.lists.resumed || c in st.lists.yielding)
    ensures Ended(DoTurn(st, c, turn, slot).lists, c, turn.fate)
  {
    hide DoTurn, Lists.Valid;
    var p := if c in st.lists.resumed then Resumed else Yielding;
    assert c in st.lists.At(p);
    AfterTurn(st, c, turn, slot, c, p);
  }

  /** Nobody comes out of suspension while a pass runs its coroutines. */
  lemma {:induction false} StaysSuspended<T>(st: State<T>, todo: seq<T>, turns: nat -> Turn<T>, slot: T -> nat, i: nat, d: T)
    requires st.lists.Valid() && NoDup(todo) && d in st.lists.suspended
    requires st.lists.resumed == todo || (st.lists.resumed == [] && EndsWith(st.lists.yielding, todo))
    ensures d in RunAll(st, todo, turns, slot, i).lists.suspended
    decreases |todo|
  {
    hide DoTurn;
    if todo != [] {
      var c, rest := todo[0], todo[1..];
      assert todo == [c] + rest;
      assert NoDup(rest) && c !in rest;
      assert d in st.lists.At(Suspended);
      if st.lists.resumed == todo {
        ResumedTurn(st, c, rest, turns(i), slot);
        assert c in st.lists.At(Resumed);
      } else {
        EndsWithHas(st.lists.yielding, todo);
        YieldingTurn(st, c, rest, turns(i), slot);
        assert c in st.lists.At(Yielding);
      }
      AfterTurn(st, c, turns(i), slot, d, Suspended);
      var t := DoTurn(st, c, turns(i), slot);
      assert t.lists.At(Suspended) == t.lists.suspended;
      StaysSuspended(t, rest, turns, slot, i + 1, d);
    }
  }

  /** A pass switches to no coroutine that is suspended after the drain: not to one that suspended itself,
      or sleeps and is not due, without a resume. */
  lemma SuspendedAreNotRun<T>(st: State<T>, r: Round<T>, slot: T -> nat, d: T)
    requires st.lists.Valid() && d in Drain(Awake(st, r)).lists.suspended
    ensures d !in Switched(st, r, slot)
  {
    hide Awake;
    AwakeOnlyAddsYielding(st, r);
    ResumeAllKeepsValid(Awake(st, r).lists, Awake(st, r).queue);
    var a := Drain(Awake(st, r));
    assert d in a.lists.At(Suspended);
    OpsMoveOnlyFree(a, r.drained, d, Suspended);
    ReadyLists(st, r);
    ResumedLists(st, r, slot);
    hide Ready, Drain, DoOps, AfterResumed;
    SuspendedThroughTurns(st, r, slot, d);
    NotRun(Ready(st, r).lists, Resumed, d);
    NotRun(AfterResumed(st, r, slot).lists, Yielding, d);
  }

  lemma NotRun<T>(l: Lists<T>, p: Place, d: T)
    requires l.Valid() && d in l.suspended && p != Suspended
    ensures d !in l.At(p)
  {
    assert d in l.At(Suspended);
  }

  lemma SuspendedThroughTurns<T>(st: State<T>, r: Round<T>, slot: T -> nat, d: T)
    requires st.lists.Valid() && d in Ready(st, r).lists.suspended
    ensures d in AfterResumed(st, r, slot).lists.suspended
  {
    hide Ready, RunAll;
    ReadyLists(st, r);
    var b := Ready(st, r);
    var todo := b.lists.resumed;
    assert NoDup(b.lists.At(Resumed));
    StaysSuspended(b, todo, r.turns, slot, 0, d);
    ResumePhase(b, todo, r.turns, slot, 0, |todo|);
    assert todo[..|todo|] == todo;
    var t := RunAll(b, todo, r.turns, slot, 0);
    assert d in t.lists.At(Suspended);
    OpsMoveOnlyFree(t, r.resumed, d, Suspended);
  }
}
