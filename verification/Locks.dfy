/**
 The objects behind the lock protocols, and what each critical section of them does: the wait
 queue with its notify loop, `CoMutex`, `Mutex` and `SharedState`. LockMoves proves that the
 sections are moves of the protocols.
 */
module Locks {
  import opened Options
  import opened Parking
  import opened Monitor
  import SharedStateProtocol

  datatype Waiter = Waiter(co: Co, isCanceled: bool)

  /** The coroutines that still wait, in the order they came. */
  function Live(ws: seq<Waiter>): seq<Co> {
    if ws == [] then [] else (if ws[0].isCanceled then [] else [ws[0].co]) + Live(ws[1..])
  }

  lemma {:induction false} LiveSnoc(ws: seq<Waiter>, w: Waiter)
    ensures Live(ws + [w]) == Live(ws) + if w.isCanceled then [] else [w.co]
  {
    if ws != [] {
      LiveSnoc(ws[1..], w);
      assert (ws + [w])[1..] == ws[1..] + [w];
    }
  }

  /** Which of the waiting coroutines a notify wakes. */
  function Woken(queue: seq<Co>, isAll: bool): seq<Co> {
    if isAll || queue == [] then queue else queue[..1]
  }

  class CoConditionVariable {
    var waiters: seq<Waiter>
    /** The coroutines whose scheduler has been asked to resume them, in order. */
    var resumed: seq<Co>

    constructor ()
      ensures waiters == [] && resumed == []
    {
      waiters, resumed := [], [];
    }

    /** The first half of `wait`: what comes before the lock is released. */
    method Push(co: Co)
      modifies `waiters
      ensures Live(waiters) == Live(old(waiters)) + [co]
    {
      LiveSnoc(waiters, Waiter(co, false));
      waiters := waiters + [Waiter(co, false)];
    }

    /** Wakes the first waiter that is not canceled, or all of them in order, and drops exactly the
        entries up to the last one it woke, or all entries if nobody is left to wake. */
    method NotifyNolock(isAll: bool) returns (notifyCount: nat, ghost dropped: nat)
      modifies this
      ensures notifyCount == |Woken(Live(old(waiters)), isAll)|
      ensures resumed == old(resumed) + Woken(Live(old(waiters)), isAll)
      ensures Live(waiters) == Live(old(waiters))[notifyCount..]
      ensures dropped <= |old(waiters)| && waiters == old(waiters)[dropped..]
      ensures isAll || notifyCount == 0 ==> waiters == []
      ensures !isAll && notifyCount == 1 ==> dropped > 0 && !old(waiters)[dropped - 1].isCanceled
    {
      notifyCount, dropped := 0, 0;
      ghost var queue := Live(waiters);
      while waiters != []
        invariant isAll || notifyCount == 0
        invariant notifyCount <= |queue| && Live(waiters) == queue[notifyCount..]
        invariant resumed == old(resumed) + queue[..notifyCount]
        invariant dropped <= |old(waiters)| && waiters == old(waiters)[dropped..]
        decreases |waiters|
      {
        var front := waiters[0];
        dropped := dropped + 1;
        if front.isCanceled {
          waiters := waiters[1..];
          continue;
        }
        resumed := resumed + [front.co];
        waiters := waiters[1..];
        notifyCount := notifyCount + 1;
        if !isAll {
          break;
        }
      }
    }
  }

  class CoMutex {
    var isLock: bool
    const cond: CoConditionVariable

    constructor ()
      ensures !isLock && Live(cond.waiters) == [] && cond.resumed == []
    {
      isLock := false;
      cond := new CoConditionVariable();
    }

    /** The compare-and-swap. */
    method SetLock(newV: bool) returns (ok: bool)
      modifies `isLock
      ensures ok == (old(isLock) == !newV) && isLock == newV
    {
      ok := isLock == !newV;
      if ok {
        isLock := newV;
      }
    }

    /** `lock` while it holds `mtx_`: either the lock is taken, or the coroutine is the last in the queue. */
    method LockSection(co: Co) returns (got: bool)
      modifies this, cond
      ensures got == !old(isLock) && isLock && cond.resumed == old(cond.resumed)
      ensures Live(cond.waiters) == Live(old(cond.waiters)) + if got then [] else [co]
    {
      got := SetLock(true);
      if got {
        return;
      }
      cond.Push(co);
    }

    /** `unlock` while it holds `mtx_`: the lock goes to the first in the queue, or is free. */
    method UnlockSection()
      modifies this, cond
      ensures var queue := Live(old(cond.waiters));
        if queue == [] then !isLock && Live(cond.waiters) == [] && cond.resumed == old(cond.resumed)
        else isLock == old(isLock) && Live(cond.waiters) == queue[1..] && cond.resumed == old(cond.resumed) + [queue[0]]
    {
      var notifyCount, dropped := cond.NotifyNolock(false);
      if notifyCount == 0 {
        var ok := SetLock(false);
      }
    }
  }

  /** `ConditionVariable`: coroutines in their queue, threads in a `std::condition_variable`. */
  class ConditionVariable {
    const coCv: CoConditionVariable
    var blocked: set<nat>

    constructor ()
      ensures fresh(coCv) && coCv.waiters == [] && coCv.resumed == [] && blocked == {}
    {
      coCv := new CoConditionVariable();
      blocked := {};
    }

    method WaitBegins(a: Agent)
      modifies this, coCv
      ensures coCv.resumed == old(coCv.resumed)
      ensures a.Cor? ==> Live(coCv.waiters) == Live(old(coCv.waiters)) + [a.co] && blocked == old(blocked)
      ensures a.Thr? ==> coCv.waiters == old(coCv.waiters) && blocked == old(blocked) + {a.id}
    {
      match a {
        case Cor(co) => coCv.Push(co);
        case Thr(id) => blocked := blocked + {id};
      }
    }

    /** One coroutine, the first, or, if none waits, one thread, any, if one is blocked. */
    method NotifyOne() returns (ghost thread: Option<nat>)
      modifies this, coCv
      ensures Live(coCv.waiters) == Live(old(coCv.waiters))[|Woken(Live(old(coCv.waiters)), false)|..]
      ensures coCv.resumed == old(coCv.resumed) + Woken(Live(old(coCv.waiters)), false)
      ensures thread.Some? <==> Live(old(coCv.waiters)) == [] && old(blocked) != {}
      ensures thread.Some? ==> thread.value in old(blocked) && blocked == old(blocked) - {thread.value}
      ensures thread == None ==> blocked == old(blocked)
    {
      thread := None;
      var notifyCount, dropped := coCv.NotifyNolock(false);
      if notifyCount == 0 && blocked != {} {
        var t: nat :| t in blocked;
        blocked := blocked - {t};
        thread := Some(t);
      }
    }

    method NotifyAll()
      modifies this, coCv
      ensures coCv.waiters == [] && blocked == {}
      ensures coCv.resumed == old(coCv.resumed) + Live(old(coCv.waiters))
    {
      var notifyCount, dropped := coCv.NotifyNolock(true);
      blocked := {};
    }
  }

  class Mutex {
    var isLock: bool
    var waitings: int
    const cond: ConditionVariable

    constructor ()
      ensures !isLock && waitings == 0 && Live(cond.coCv.waiters) == [] && cond.blocked == {}
    {
      isLock, waitings := false, 0;
      cond := new ConditionVariable();
    }

    /** One round of the loop of `lock`: `back` says that the agent comes from a wait. */
    method LockRound(a: Agent, back: bool) returns (got: bool)
      modifies this, cond, cond.coCv
      ensures got == !old(isLock) && isLock
      ensures waitings == old(waitings) - (if back then 1 else 0) + (if got then 0 else 1)
      ensures Live(cond.coCv.waiters) == Live(old(cond.coCv.waiters)) + if got || a.Thr? then [] else [a.co]
      ensures cond.blocked == old(cond.blocked) + if got || a.Cor? then {} else {a.id}
      ensures cond.coCv.resumed == old(cond.coCv.resumed)
    {
      if back {
        waitings := waitings - 1;
      }
      if isLock {
        waitings := waitings + 1;
        cond.WaitBegins(a);
        return false;
      }
      isLock := true;
      got := true;
    }

    method UnlockSection() returns (ghost thread: Option<nat>)
      modifies this, cond, cond.coCv
      ensures !isLock && waitings == old(waitings)
      ensures var queue, blocked := Live(old(cond.coCv.waiters)), old(cond.blocked);
        if waitings > 0 && queue != [] then
          Live(cond.coCv.waiters) == queue[1..] && cond.coCv.resumed == old(cond.coCv.resumed) + [queue[0]] && cond.blocked == blocked
        else
          && Live(cond.coCv.waiters) == queue && cond.coCv.resumed == old(cond.coCv.resumed)
          && cond.blocked == if thread.Some? then blocked - {thread.value} else blocked
      ensures thread.Some? <==> waitings > 0 && Live(old(cond.coCv.waiters)) == [] && old(cond.blocked) != {}
      ensures thread.Some? ==> thread.value in old(cond.blocked)
    {
      isLock := false;
      thread := None;
      if waitings > 0 {
        thread := cond.NotifyOne();
      }
    }
  }

  class SharedState {
    var isReady: bool
    var value: int
    var eptr: Option<int>
    const cond: ConditionVariable

    constructor ()
      ensures !isReady && eptr == None && cond.coCv.waiters == [] && cond.blocked == {}
    {
      isReady, value, eptr := false, 0, None;
      cond := new ConditionVariable();
    }

    /** `setValue`, `setException`: nobody is left waiting. */
    method Set(o: SharedStateProtocol.Result)
      modifies this, cond, cond.coCv
      ensures isReady && cond.coCv.waiters == [] && cond.blocked == {}
      ensures value == (if o.Value? then o.v else old(value)) && eptr == if o.Value? then old(eptr) else Some(o.e)
      ensures cond.coCv.resumed == old(cond.coCv.resumed) + Live(old(cond.coCv.waiters))
    {
      match o {
        case Value(v) => value := v;
        case Exception(e) => eptr := Some(e);
      }
      isReady := true;
      cond.NotifyAll();
    }

    /** One round of the loop of `wait`. */
    method WaitRound(a: Agent) returns (ready: bool)
      modifies cond, cond.coCv
      ensures ready == isReady
      ensures Live(cond.coCv.waiters) == Live(old(cond.coCv.waiters)) + if ready || a.Thr? then [] else [a.co]
      ensures cond.blocked == old(cond.blocked) + if ready || a.Cor? then {} else {a.id}
      ensures cond.coCv.resumed == old(cond.coCv.resumed)
    {
      ready := isReady;
      if !ready {
        cond.WaitBegins(a);
      }
    }

    method GetValue() returns (out: SharedStateProtocol.Outcome)
      ensures out.NotReady? <==> !isReady
      ensures isReady ==> out.r == if eptr.Some? then SharedStateProtocol.Exception(eptr.value) else SharedStateProtocol.Value(value)
    {
      if !isReady {
        return SharedStateProtocol.NotReady;
      }
      if eptr.Some? {
        return SharedStateProtocol.Got(SharedStateProtocol.Exception(eptr.value));
      }
      out := SharedStateProtocol.Got(SharedStateProtocol.Value(value));
    }
  }
}
