/**
 One pass of the scheduler loop on values: what `run` does to the four lists, the queue of
 posted resumes and the sleepers, whatever the coroutines it switches to do. Scheduler.dfy has
 the same pass on the linked lists, proved equal to this one.
 */
module SchedulerPass {
  import opened Sequences
  import opened CoroLists
  import Parking

  /** A coroutine asleep until `at`; `slot` is its index in `coros_`, which breaks ties. */
  datatype Sleeper<T> = Sleeper(at: int, slot: nat, coro: T)

  datatype State<T(==)> = State(lists: Lists<T>, queue: seq<T>, sleepers: seq<Sleeper<T>>)

  /** Something a running coroutine, or another thread meanwhile, asks the scheduler for. It does not
      see `EnlistOp`, the running coroutine entering the wait queue of a lock, nor `ElsewhereOp`, what
      another scheduler or a coroutine of it does. */
  datatype Op<T> = AddOp | PostOp(coro: T) | EnlistOp | ElsewhereOp(act: Parking.Act)

  /** How a coroutine gives the processor back. */
  datatype Fate = Yields | Suspends | Sleeps(until: int) | Ends

  /** Everything that happens from one `switchTo` until it returns. */
  datatype Turn<T> = Turn(ops: seq<Op<T>>, fate: Fate)

  /**
   What a pass meets with. `now` is the time, and `turns(i)` what its `i`-th switch turns out to do. While
   it runs no coroutine, others ask for `top` before the sleepers are looked at (what the event loop calls
   is among it), for `posting(i)` when `i` of those that are due are posted, for `drained` before the
   coroutines to resume are listed, and for `resumed` before those that have yielded are.
   */
  datatype Round<T> = Round(
    now: int, top: seq<Op<T>>, posting: nat -> seq<Op<T>>, drained: seq<Op<T>>, resumed: seq<Op<T>>, turns: nat -> Turn<T>)

  // ----- sleepers

  predicate Earlier<T>(a: Sleeper<T>, b: Sleeper<T>) {
    a.at < b.at || (a.at == b.at && a.slot <= b.slot)
  }

  ghost predicate Ordered<T>(s: seq<Sleeper<T>>) {
    forall i, j | 0 <= i < j < |s| :: Earlier(s[i], s[j])
  }

  function PushSleeper<T>(s: seq<Sleeper<T>>, x: Sleeper<T>): (r: seq<Sleeper<T>>)
    ensures forall i | 0 <= i < |r| :: r[i] == x || r[i] in s
  {
    if s == [] || !Earlier(s[0], x) then [x] + s
    else [s[0]] + PushSleeper(s[1..], x)
  }

  lemma {:induction false} PushKeepsOrdered<T>(s: seq<Sleeper<T>>, x: Sleeper<T>)
    requires Ordered(s)
    ensures Ordered(PushSleeper(s, x)) && multiset(PushSleeper(s, x)) == multiset(s) + multiset{x}
  {
    if s == [] || !Earlier(s[0], x) {
    } else {
      PushKeepsOrdered(s[1..], x);
      assert s == [s[0]] + s[1..];
      var r := PushSleeper(s[1..], x);
      assert forall i | 0 <= i < |r| :: Earlier(s[0], r[i]);
    }
  }

  lemma OrderedTail<T>(s: seq<Sleeper<T>>)
    requires Ordered(s) && s != []
    ensures Ordered(s[1..])
  {
  }

  /** The coroutines whose time has come, in the order the heap yields them. */
  function Expired<T>(s: seq<Sleeper<T>>, now: int): seq<T> {
    if s == [] || s[0].at > now then [] else [s[0].coro] + Expired(s[1..], now)
  }

  function Unexpired<T>(s: seq<Sleeper<T>>, now: int): seq<Sleeper<T>> {
    if s == [] || s[0].at > now then s else Unexpired(s[1..], now)
  }

  /** A wake-up at time `now` takes exactly the sleepers with a time up to `now`, earliest first, and of
      those with the same time the lower slot first. */
  lemma {:induction false} WakesExactlyTheDue<T>(s: seq<Sleeper<T>>, now: int)
    requires Ordered(s)
    ensures var k := |Expired(s, now)|;
      && k <= |s| && Unexpired(s, now) == s[k..]
      && (forall i | 0 <= i < k :: s[i].at <= now && Expired(s, now)[i] == s[i].coro)
      && (forall i | k <= i < |s| :: s[i].at > now)
      && (forall i, j | 0 <= i < j < |s| :: s[i].at < s[j].at || (s[i].at == s[j].at && s[i].slot <= s[j].slot))
  {
    if s == [] {
    } else if s[0].at > now {
      assert forall i | 0 < i < |s| :: Earlier(s[0], s[i]);
    } else {
      var t := s[1..];
      WakesExactlyTheDue(t, now);
      var k := |Expired(t, now)|;
      assert t[k..] == s[k + 1..];
      assert forall i | 0 < i < |s| :: s[i] == t[i - 1];
    }
  }

  // ----- one turn

  function DoOp<T>(st: State<T>, op: Op<T>): State<T> {
    match op
    case AddOp => if st.lists.free == [] then st else st.(lists := st.lists.Move(st.lists.free[0], Yielding))
    case PostOp(c) => st.(queue := st.queue + [c])
    case EnlistOp => st
    case ElsewhereOp(_) => st
  }

  function DoOps<T>(st: State<T>, ops: seq<Op<T>>): State<T>
    decreases |ops|
  {
    if ops == [] then st else DoOps(DoOp(st, ops[0]), ops[1..])
  }

  /** The list a coroutine goes to when it gives the processor back. */
  function Destination(fate: Fate): Place {
    match fate
    case Yields => Yielding
    case Suspends => Suspended
    case Sleeps(_) => Suspended
    case Ends => Free
  }

  /** `slot` gives the index of each coroutine in `coros_`. */
  function DoFate<T>(st: State<T>, c: T, fate: Fate, slot: T -> nat): State<T> {
    State(st.lists.Move(c, Destination(fate)), st.queue,
          if fate.Sleeps? then PushSleeper(st.sleepers, Sleeper(fate.until, slot(c), c)) else st.sleepers)
  }

  lemma {:induction false} Pushed<T>(s: seq<Sleeper<T>>, x: Sleeper<T>)
    ensures x in PushSleeper(s, x) && forall y | y in s :: y in PushSleeper(s, x)
  {
    if s != [] && Earlier(s[0], x) {
      Pushed(s[1..], x);
      assert s == [s[0]] + s[1..];
    }
  }

  lemma ExpiredIff<T>(s: seq<Sleeper<T>>, now: int, c: T)
    requires Ordered(s)
    ensures c in Expired(s, now) <==> exists x :: x in s && x.coro == c && x.at <= now
  {
    WakesExactlyTheDue(s, now);
    var k := |Expired(s, now)|;
    if x :| x in s && x.coro == c && x.at <= now {
      var i :| 0 <= i < |s| && s[i] == x;
      assert Expired(s, now)[i] == c;
    }
    if c in Expired(s, now) {
      var i :| 0 <= i < k && Expired(s, now)[i] == c;
      assert s[i] in s;
    }
  }

  /** A coroutine that goes to sleep until `until` is among those woken at a time `now` exactly if `until`
      has come by then, and this changes nothing for the others. */
  lemma AsleepUntil<T>(st: State<T>, c: T, until: int, slot: T -> nat, now: int)
    requires Ordered(st.sleepers) && forall x | x in st.sleepers :: x.coro != c
    ensures var r := DoFate(st, c, Sleeps(until), slot).sleepers;
      && Ordered(r) && (exists x :: x in r && x.coro == c && x.at == until && x.slot == slot(c))
      && (c in Expired(r, now) <==> until <= now)
      && (forall d | d != c :: d in Expired(r, now) <==> d in Expired(st.sleepers, now))
  {
    var x := Sleeper(until, slot(c), c);
    var r := PushSleeper(st.sleepers, x);
    PushKeepsOrdered(st.sleepers, x);
    Pushed(st.sleepers, x);
    ExpiredIff(r, now, c);
    forall d | d != c ensures d in Expired(r, now) <==> d in Expired(st.sleepers, now) {
      ExpiredIff(r, now, d);
      ExpiredIff(st.sleepers, now, d);
    }
  }

  function DoTurn<T>(st: State<T>, c: T, turn: Turn<T>, slot: T -> nat): State<T> {
    DoFate(DoOps(st, turn.ops), c, turn.fate, slot)
  }

  /** Switches to each coroutine of `todo` in turn, of which the first is the `i`-th of the pass. */
  function RunAll<T>(st: State<T>, todo: seq<T>, turns: nat -> Turn<T>, slot: T -> nat, i: nat): State<T>
    decreases |todo|
  {
    if todo == [] then st else RunAll(DoTurn(st, todo[0], turns(i), slot), todo[1..], turns, slot, i + 1)
  }

  lemma {:induction false} RunAllSnoc<T>(st: State<T>, todo: seq<T>, turns: nat -> Turn<T>, slot: T -> nat, i: nat, k: nat)
    requires k < |todo|
    ensures RunAll(st, todo[..k + 1], turns, slot, i) ==
      DoTurn(RunAll(st, todo[..k], turns, slot, i), todo[k], turns(i + k), slot)
    decreases k
  {
    hide DoTurn;
    if k > 0 {
      var t := DoTurn(st, todo[0], turns(i), slot);
      RunAllSnoc(t, todo[1..], turns, slot, i + 1, k - 1);
      assert todo[..k + 1][1..] == todo[1..][..k] && todo[..k][1..] == todo[1..][..k - 1];
    } else {
      assert todo[..1] == [todo[0]];
    }
  }

  lemma {:induction false} DoOpsSnoc<T>(st: State<T>, ops: seq<Op<T>>, k: nat)
    requires k < |ops|
    ensures DoOps(st, ops[..k + 1]) == DoOp(DoOps(st, ops[..k]), ops[k])
    decreases k
  {
    if k > 0 {
      DoOpsSnoc(DoOp(st, ops[0]), ops[1..], k - 1);
      assert ops[..k + 1][1..] == ops[1..][..k] && ops[..k][1..] == ops[1..][..k - 1];
    } else {
      assert ops[..1] == [ops[0]];
    }
  }

  // ----- one pass

  /** Posts the coroutines of `due`, of which `i` have been posted before. */
  function PostAll<T>(st: State<T>, due: seq<T>, posting: nat -> seq<Op<T>>, i: nat): State<T>
    decreases |due|
  {
    var t := DoOps(st, posting(i));
    if due == [] then t else PostAll(t.(queue := t.queue + [due[0]]), due[1..], posting, i + 1)
  }

  function WakeUp<T>(st: State<T>, now: int, posting: nat -> seq<Op<T>>): State<T> {
    PostAll(st.(sleepers := Unexpired(st.sleepers, now)), Expired(st.sleepers, now), posting, 0)
  }

  function ResumeAll<T>(l: Lists<T>, q: seq<T>): Lists<T>
    decreases |q|
  {
    if q == [] then l else ResumeAll(l.Move(q[0], Resumed), q[1..])
  }

  function Drain<T>(st: State<T>): State<T> {
    st.(lists := ResumeAll(st.lists, st.queue), queue := [])
  }

  /** When the resume queue is about to be drained, and when the resume list is about to be run. */
  function Awake<T>(st: State<T>, r: Round<T>): State<T> {
    WakeUp(DoOps(st, r.top), r.now, r.posting)
  }

  function Ready<T>(st: State<T>, r: Round<T>): State<T> {
    DoOps(Drain(Awake(st, r)), r.drained)
  }

  /** When the yield list is about to be run. */
  function AfterResumed<T>(st: State<T>, r: Round<T>, slot: T -> nat): State<T> {
    var d := Ready(st, r);
    DoOps(RunAll(d, d.lists.resumed, r.turns, slot, 0), r.resumed)
  }

  function Pass<T>(st: State<T>, r: Round<T>, slot: T -> nat): State<T> {
    var a := AfterResumed(st, r, slot);
    RunAll(a, a.lists.yielding, r.turns, slot, |Ready(st, r).lists.resumed|)
  }

  /** The coroutines one pass switches to, in order. */
  function Switched<T>(st: State<T>, r: Round<T>, slot: T -> nat): seq<T> {
    Ready(st, r).lists.resumed + AfterResumed(st, r, slot).lists.yielding
  }

  /** The loop of `run`, for as many passes as it is not stopped. */
  function RunLoop<T>(st: State<T>, rounds: seq<Round<T>>, slot: T -> nat): State<T>
    decreases |rounds|
  {
    if rounds == [] then st else RunLoop(Pass(st, rounds[0], slot), rounds[1..], slot)
  }

  // ----- what holds of every pass

  ghost predicate EndsWith<T>(s: seq<T>, t: seq<T>) {
    |t| <= |s| && s[|s| - |t|..] == t
  }

  /** A coroutine is removed from the list it is in, and from no other. */
  lemma OnlyAt<T>(l: Lists<T>, c: T, home: Place)
    requires l.Valid() && c in l.At(home)
    ensures forall q | q != home :: Without(l.At(q), c) == l.At(q)
  {
    forall q | q != home ensures Without(l.At(q), c) == l.At(q) {
      assert c !in l.At(q);
      WithoutAbsent(l.At(q), c);
    }
  }

  /** The run lists after a coroutine has moved from list `home` to list `p`. */
  lemma MoveBetween<T>(l: Lists<T>, c: T, home: Place, p: Place)
    requires l.Valid() && c in l.At(home)
    ensures l.Move(c, p).Valid()
    ensures p != Resumed ==> l.Move(c, p).resumed == (if home == Resumed then Without(l.resumed, c) else l.resumed)
    ensures var y := if home == Yielding then Without(l.yielding, c) else l.yielding;
      l.Move(c, p).yielding == if p == Yielding then [c] + y else y
  {
    OnlyAt(l, c, home);
    l.MoveKeepsValid(c, p);
    var m := l.Move(c, p);
    assert m.At(Resumed) == m.resumed && m.At(Yielding) == m.yielding;
    assert l.At(Resumed) == l.resumed && l.At(Yielding) == l.yielding;
  }

  lemma OpOnlyAddsYielding<T>(st: State<T>, op: Op<T>)
    requires st.lists.Valid()
    ensures var r := DoOp(st, op).lists;
      r.Valid() && r.resumed == st.lists.resumed && EndsWith(r.yielding, st.lists.yielding)
  {
    hide Lists.Valid;
    if op.AddOp? && st.lists.free != [] {
      assert st.lists.free[0] in st.lists.At(Free);
      MoveBetween(st.lists, st.lists.free[0], Free, Yielding);
    }
  }

  /** Operations that arrive during a turn only put new coroutines in front of the yield list. */
  lemma {:induction false} OpsOnlyAddYielding<T>(st: State<T>, ops: seq<Op<T>>)
    requires st.lists.Valid()
    ensures var r := DoOps(st, ops).lists;
      r.Valid() && r.resumed == st.lists.resumed && EndsWith(r.yielding, st.lists.yielding)
    decreases |ops|
  {
    hide Lists.Valid, DoOp;
    if ops != [] {
      var t := DoOp(st, ops[0]);
      OpOnlyAddsYielding(st, ops[0]);
      OpsOnlyAddYielding(t, ops[1..]);
      EndsWithTransitive(DoOps(st, ops).lists.yielding, t.lists.yielding, st.lists.yielding);
    }
  }

  lemma EndsWithTransitive<T>(a: seq<T>, b: seq<T>, c: seq<T>)
    requires EndsWith(a, b) && EndsWith(b, c)
    ensures EndsWith(a, c)
  {
    assert a[|a| - |c|..] == a[|a| - |b|..][|b| - |c|..];
  }

  /** The turn of the coroutine that is first in the resume list. */
  lemma ResumedTurn<T>(st: State<T>, c: T, rest: seq<T>, turn: Turn<T>, slot: T -> nat)
    requires st.lists.Valid() && st.lists.resumed == [c] + rest
    ensures var r := DoTurn(st, c, turn, slot).lists;
      r.Valid() && r.resumed == rest && EndsWith(r.yielding, st.lists.yielding)
  {
    var o := DoOps(st, turn.ops).lists;
    OpsOnlyAddYielding(st, turn.ops);
    assert c in o.At(Resumed);
    MoveBetween(o, c, Resumed, Destination(turn.fate));
    EndsWithTransitive(DoTurn(st, c, turn, slot).lists.yielding, o.yielding, st.lists.yielding);
  }

  /** The turn of a coroutine in the yield list, with the rest of the snapshot right behind it. */
  lemma YieldingTurn<T>(st: State<T>, c: T, rest: seq<T>, turn: Turn<T>, slot: T -> nat)
    requires st.lists.Valid() && st.lists.resumed == [] && EndsWith(st.lists.yielding, [c] + rest)
    ensures var r := DoTurn(st, c, turn, slot).lists;
      r.Valid() && r.resumed == [] && EndsWith(r.yielding, rest)
  {
    hide Lists.Valid, DoOps, Lists.Move, EndsWith;
    var o := DoOps(st, turn.ops).lists;
    OpsOnlyAddYielding(st, turn.ops);
    EndsWithTransitive(o.yielding, st.lists.yielding, [c] + rest);
    var newer := BeforeLast(o.yielding, c, rest);
    MovedFromYielding(o, newer, c, rest, Destination(turn.fate));
  }

  lemma MovedFromYielding<T>(l: Lists<T>, newer: seq<T>, c: T, rest: seq<T>, p: Place)
    requires l.Valid() && l.resumed == [] && l.yielding == newer + [c] + rest && p != Resumed
    ensures var r := l.Move(c, p); r.Valid() && r.resumed == [] && EndsWith(r.yielding, rest)
  {
    hide Lists.Valid, Lists.Move, EndsWith, Without, Lists.At;
    RemovedInPlace(l, newer, c, rest);
    MoveBetween(l, c, Yielding, p);
    FrontAndLast(c, newer, rest);
  }

  lemma FrontAndLast<T>(c: T, newer: seq<T>, rest: seq<T>)
    ensures EndsWith(newer + rest, rest) && EndsWith([c] + (newer + rest), rest)
  {
    EndsWithLast(newer, rest);
    EndsWithLast([c] + newer, rest);
    assert [c] + (newer + rest) == [c] + newer + rest;
  }

  lemma EndsWithItself<T>(a: seq<T>)
    ensures EndsWith(a, a)
  {
  }

  lemma EndsWithLast<T>(a: seq<T>, b: seq<T>)
    ensures EndsWith(a + b, b)
  {
  }

  lemma BeforeLast<T>(y: seq<T>, c: T, rest: seq<T>) returns (newer: seq<T>)
    requires EndsWith(y, [c] + rest)
    ensures y == newer + [c] + rest
  {
    newer := y[..|y| - |rest| - 1];
    assert y == newer + ([c] + rest);
  }

  lemma RemovedInPlace<T>(l: Lists<T>, newer: seq<T>, c: T, rest: seq<T>)
    requires l.Valid() && l.yielding == newer + [c] + rest
    ensures c in l.At(Yielding) && Without(l.yielding, c) == newer + rest
  {
    assert NoDup(l.At(Yielding)) && l.yielding[|newer|] == c;
    assert forall i | 0 <= i < |newer| :: l.yielding[i] == newer[i];
    WithoutMiddle(newer, c, rest);
  }

  /** Of the resumed snapshot, each coroutine is still in the resume list, first, when its turn
      comes, whatever the earlier ones did; the list is empty afterwards. */
  lemma {:induction false} ResumePhase<T>(st: State<T>, todo: seq<T>, turns: nat -> Turn<T>, slot: T -> nat, i: nat, k: nat)
    requires st.lists.Valid() && st.lists.resumed == todo && k <= |todo|
    ensures var r := RunAll(st, todo[..k], turns, slot, i).lists;
      r.Valid() && r.resumed == todo[k..] && EndsWith(r.yielding, st.lists.yielding)
    decreases k
  {
    hide Lists.Valid, DoTurn, EndsWith;
    EndsWithItself(st.lists.yielding);
    if k > 0 {
      var t := DoTurn(st, todo[0], turns(i), slot);
      ResumedTurn(st, todo[0], todo[1..], turns(i), slot);
      assert todo[..k][1..] == todo[1..][..k - 1] && todo[1..][k - 1..] == todo[k..];
      ResumePhase(t, todo[1..], turns, slot, i + 1, k - 1);
      EndsWithTransitive(RunAll(st, todo[..k], turns, slot, i).lists.yielding, t.lists.yielding, st.lists.yielding);
    }
  }

  /** Of the yield snapshot, each coroutine is still in the yield list when its turn comes, with
      the rest of the snapshot behind it, whatever the earlier ones did. */
  lemma {:induction false} YieldPhase<T>(st: State<T>, todo: seq<T>, turns: nat -> Turn<T>, slot: T -> nat, i: nat, k: nat)
    requires st.lists.Valid() && st.lists.resumed == [] && EndsWith(st.lists.yielding, todo) && k <= |todo|
    ensures var r := RunAll(st, todo[..k], turns, slot, i).lists;
      r.Valid() && r.resumed == [] && EndsWith(r.yielding, todo[k..])
    decreases k
  {
    hide Lists.Valid, DoTurn;
    if k > 0 {
      assert todo == [todo[0]] + todo[1..];
      YieldingTurn(st, todo[0], todo[1..], turns(i), slot);
      YieldPhase(DoTurn(st, todo[0], turns(i), slot), todo[1..], turns, slot, i + 1, k - 1);
      assert todo[..k][1..] == todo[1..][..k - 1] && todo[1..][k - 1..] == todo[k..];
    }
  }

  lemma {:induction false} ResumeAllKeepsValid<T>(l: Lists<T>, q: seq<T>)
    requires l.Valid()
    ensures ResumeAll(l, q).Valid()
    decreases |q|
  {
    if q != [] {
      l.MoveKeepsValid(q[0], Resumed);
      ResumeAllKeepsValid(l.Move(q[0], Resumed), q[1..]);
    }
  }

  lemma {:induction false} PostAllOnlyAddsYielding<T>(st: State<T>, due: seq<T>, posting: nat -> seq<Op<T>>, i: nat)
    requires st.lists.Valid()
    ensures var r := PostAll(st, due, posting, i).lists;
      r.Valid() && r.resumed == st.lists.resumed && EndsWith(r.yielding, st.lists.yielding)
    decreases |due|
  {
    hide Lists.Valid, DoOps, EndsWith;
    OpsOnlyAddYielding(st, posting(i));
    if due != [] {
      var t := DoOps(st, posting(i));
      PostAllOnlyAddsYielding(t.(queue := t.queue + [due[0]]), due[1..], posting, i + 1);
      EndsWithTransitive(PostAll(st, due, posting, i).lists.yielding, t.lists.yielding, st.lists.yielding);
    }
  }

  /** Up to the drain, coroutines are only added. */
  lemma AwakeOnlyAddsYielding<T>(st: State<T>, r: Round<T>)
    requires st.lists.Valid()
    ensures var a := Awake(st, r).lists;
      a.Valid() && a.resumed == st.lists.resumed && EndsWith(a.yielding, st.lists.yielding)
  {
    hide Lists.Valid, DoOps, EndsWith, PostAll;
    var t := DoOps(st, r.top);
    OpsOnlyAddYielding(st, r.top);
    PostAllOnlyAddsYielding(t.(sleepers := Unexpired(t.sleepers, r.now)), Expired(t.sleepers, r.now), r.posting, 0);
    EndsWithTransitive(Awake(st, r).lists.yielding, t.lists.yielding, st.lists.yielding);
  }

  lemma EndsWithHas<T>(a: seq<T>, b: seq<T>)
    requires EndsWith(a, b)
    ensures forall c | c in b :: c in a
  {
    forall c | c in b ensures c in a { assert c in a[|a| - |b|..]; }
  }

  /** When the resume list is about to be run: it is as the drain has left it. */
  lemma ReadyLists<T>(st: State<T>, r: Round<T>)
    requires st.lists.Valid()
    ensures var d := Drain(Awake(st, r)).lists; var y := Ready(st, r).lists;
      y.Valid() && y.resumed == d.resumed && EndsWith(y.yielding, d.yielding)
  {
    hide Lists.Valid, DoOps, EndsWith, Awake;
    AwakeOnlyAddsYielding(st, r);
    ResumeAllKeepsValid(Awake(st, r).lists, Awake(st, r).queue);
    OpsOnlyAddYielding(Drain(Awake(st, r)), r.drained);
  }

  /** When the yield list is about to be run: the resume list is empty, and nobody has left the yield
      list since the drain. */
  lemma ResumedLists<T>(st: State<T>, r: Round<T>, slot: T -> nat)
    requires st.lists.Valid()
    ensures var d := Drain(Awake(st, r)).lists; var a := AfterResumed(st, r, slot).lists;
      a.Valid() && a.resumed == [] && EndsWith(a.yielding, d.yielding)
  {
    hide Lists.Valid, DoOps, EndsWith, Drain, Awake, Ready, RunAll;
    var d := Ready(st, r);
    var todo := d.lists.resumed;
    ReadyLists(st, r);
    ResumePhase(d, todo, r.turns, slot, 0, |todo|);
    assert todo[..|todo|] == todo;
    var b := RunAll(d, todo, r.turns, slot, 0);
    OpsOnlyAddYielding(b, r.resumed);
    var a := AfterResumed(st, r, slot).lists;
    EndsWithTransitive(a.yielding, b.lists.yielding, d.lists.yielding);
    EndsWithTransitive(a.yielding, d.lists.yielding, Drain(Awake(st, r)).lists.yielding);
  }

  /** A pass leaves the resume list empty, and switches to every coroutine that was in the resume or
      the yield list after the drain, whatever is asked for meanwhile. */
  lemma PassServesEverybody<T>(st: State<T>, r: Round<T>, slot: T -> nat)
    requires st.lists.Valid()
    ensures var d := Drain(Awake(st, r)).lists;
      && AfterResumed(st, r, slot).lists.resumed == []
      && Pass(st, r, slot).lists.Valid() && Pass(st, r, slot).lists.resumed == []
      && (forall c | c in d.resumed || c in d.yielding :: c in Switched(st, r, slot))
      && NoDup(Ready(st, r).lists.resumed) && NoDup(AfterResumed(st, r, slot).lists.yielding)
  {
    hide DoOps, RunAll, Drain, Awake, Ready, AfterResumed;
    ReadyLists(st, r);
    ResumedLists(st, r, slot);
    var a := AfterResumed(st, r, slot);
    var y := a.lists.yielding;
    YieldPhase(a, y, r.turns, slot, |Ready(st, r).lists.resumed|, |y|);
    assert y[..|y|] == y;
    assert NoDup(Ready(st, r).lists.At(Resumed)) && NoDup(a.lists.At(Yielding));
    EndsWithHas(y, Drain(Awake(st, r)).lists.yielding);
  }

  // ----- passes in which everybody yields

  function Reverse<T>(s: seq<T>): seq<T> {
    if s == [] then [] else Reverse(s[1..]) + [s[0]]
  }

  lemma {:induction false} ReverseAppend<T>(s: seq<T>, x: T)
    ensures Reverse(s + [x]) == [x] + Reverse(s)
  {
    if s != [] {
      ReverseAppend(s[1..], x);
      assert (s + [x])[1..] == s[1..] + [x];
    } else {
      assert (s + [x])[1..] == [];
    }
  }

  lemma {:induction false} ReverseTwice<T>(s: seq<T>)
    ensures Reverse(Reverse(s)) == s
  {
    if s != [] {
      ReverseAppend(Reverse(s[1..]), s[0]);
      ReverseTwice(s[1..]);
    }
  }

  ghost predicate AllYield<T(!new)>(turns: nat -> Turn<T>) {
    forall i :: turns(i) == Turn([], Yields)
  }

  lemma TurnYields<T(!new)>(st: State<T>, newer: seq<T>, c: T, rest: seq<T>, turn: Turn<T>, slot: T -> nat)
    requires st.lists.Valid() && turn == Turn([], Yields) && st.lists.yielding == newer + [c] + rest
    ensures DoTurn(st, c, turn, slot) == st.(lists := st.lists.(yielding := [c] + newer + rest))
  {
    RemovedInPlace(st.lists, newer, c, rest);
    OnlyAt(st.lists, c, Yielding);
    MovedToFront(st.lists, newer, c, rest);
  }

  lemma MovedToFront<T>(l: Lists<T>, newer: seq<T>, c: T, rest: seq<T>)
    requires Without(l.yielding, c) == newer + rest
    requires forall q | q != Yielding :: Without(l.At(q), c) == l.At(q)
    ensures l.Move(c, Yielding) == l.(yielding := [c] + newer + rest)
  {
    assert [c] + (newer + rest) == [c] + newer + rest;
    assert l.At(Free) == l.free && l.At(Suspended) == l.suspended && l.At(Resumed) == l.resumed;
  }

  lemma YieldTurnKeepsValid<T>(st: State<T>, c: T, turn: Turn<T>, slot: T -> nat)
    requires st.lists.Valid() && turn.ops == []
    ensures DoTurn(st, c, turn, slot).lists.Valid()
  {
    st.lists.MoveKeepsValid(c, Destination(turn.fate));
  }

  lemma {:induction false} EveryTurnYields<T(!new)>(st: State<T>, newer: seq<T>, todo: seq<T>, turns: nat -> Turn<T>, slot: T -> nat, i: nat)
    requires st.lists.Valid() && AllYield(turns) && st.lists.yielding == newer + todo
    ensures RunAll(st, todo, turns, slot, i).lists.yielding == Reverse(todo) + newer
    ensures RunAll(st, todo, turns, slot, i) ==
      st.(lists := st.lists.(yielding := RunAll(st, todo, turns, slot, i).lists.yielding))
    decreases |todo|
  {
    hide DoTurn, Lists.Valid;
    if todo == [] {
      assert newer + todo == newer && Reverse(todo) + newer == newer;
    } else {
      var c, rest := todo[0], todo[1..];
      var t := DoTurn(st, c, turns(i), slot);
      assert turns(i) == Turn([], Yields);
      assert newer + [c] + rest == newer + todo;
      TurnYields(st, newer, c, rest, turns(i), slot);
      YieldTurnKeepsValid(st, c, turns(i), slot);
      EveryTurnYields(t, [c] + newer, rest, turns, slot, i + 1);
      assert Reverse(rest) + ([c] + newer) == Reverse(todo) + newer;
    }
  }

  /** A pass in which nobody asks for anything. */
  ghost predicate Quiet<T(!new)>(r: Round<T>) {
    r.top == [] && (forall i :: r.posting(i) == []) && r.drained == [] && r.resumed == [] && AllYield(r.turns)
  }

  /** If there is nothing to resume and every coroutine yields, a pass runs the yield list in its
      order and leaves it reversed: the next such pass runs the other way round. */
  lemma YieldersAlternate<T(!new)>(st: State<T>, r: Round<T>, slot: T -> nat)
    requires st.lists.Valid() && Quiet(r)
    requires st.lists.resumed == [] && st.queue == [] && Expired(st.sleepers, r.now) == []
    ensures Switched(st, r, slot) == st.lists.yielding
    ensures Pass(st, r, slot) == st.(lists := st.lists.(yielding := Reverse(st.lists.yielding)))
    ensures RunLoop(st, [r, r], slot) == st
  {
    OnePass(st, r, slot);
    var p := Pass(st, r, slot);
    PassServesEverybody(st, r, slot);
    OnePass(p, r, slot);
    ReverseTwice(st.lists.yielding);
    TwoPasses(st, r, slot);
  }

  lemma TwoPasses<T>(st: State<T>, r: Round<T>, slot: T -> nat)
    ensures RunLoop(st, [r, r], slot) == Pass(Pass(st, r, slot), r, slot)
  {
    hide Pass;
    var rs := [r, r];
    var p := Pass(st, r, slot);
    var q := Pass(p, r, slot);
    assert rs[1..] == [r] && [r][1..] == [];
    assert RunLoop(q, [], slot) == q;
    assert RunLoop(p, [r], slot) == RunLoop(q, [r][1..], slot);
    assert RunLoop(st, rs, slot) == RunLoop(p, rs[1..], slot);
  }

  lemma OnePass<T(!new)>(st: State<T>, r: Round<T>, slot: T -> nat)
    requires st.lists.Valid() && Quiet(r)
    requires st.lists.resumed == [] && st.queue == [] && Expired(st.sleepers, r.now) == []
    ensures Switched(st, r, slot) == st.lists.yielding
    ensures Pass(st, r, slot) == st.(lists := st.lists.(yielding := Reverse(st.lists.yielding)))
  {
    assert Unexpired(st.sleepers, r.now) == st.sleepers;
    assert r.posting(0) == [];
    assert Awake(st, r) == st;
    assert Ready(st, r) == st;
    var y := st.lists.yielding;
    assert [] + y == y;
    EveryTurnYields(st, [], y, r.turns, slot, 0);
    assert Reverse(y) + [] == Reverse(y);
  }
}
