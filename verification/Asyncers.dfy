/** `Asyncer`: a handler posted to the event loop, called there once, or with an error. */
module Asyncers {
  import opened Options
  import opened Handlers

  /** The event of an asyncer: whether it is registered with the poller. */
  datatype AsyncEvent = AsyncEvent(readNotify: bool)

  datatype Stage = Fresh | Queued | Over(msg: Msg)

  /**
   Calling the handler is the last thing every method does, so a method returns the call that is
   due instead of making it: the owner of the asyncer makes it next, and what the handler does to
   this asyncer are the operations that follow.
   */
  class Asyncer {
    var used: bool
    var done: bool
    /** Whose handler is stored in `handler_`. */
    var handler: Option<nat>
    var event: Option<AsyncEvent>
    /** How many handlers have been passed in; a handler is known by its number. */
    var issued: nat
    ghost var log: seq<Call>
    ghost var stage: Stage

    /** Exactly one call for the first handler once it is over, and none before; exactly one for
        each later handler; the event is registered just as long as the first call is due. */
    ghost predicate Valid()
      reads this
    {
      && (stage == Fresh <==> !used) && (used <==> issued > 0)
      && handler == (if used then Some(0) else None)
      && event == (if used then Some(AsyncEvent(stage == Queued)) else None)
      && (used ==> done == stage.Over?)
      && Served(log, issued, if stage.Over? then [stage.msg] else [], AsyncerReused)
      && (stage.Over? ==> stage.msg in {Success, AsyncerCanceled})
    }

    /** `done_` is not initialised by the source: `garbage` is whatever is found there. */
    constructor (garbage: bool)
      ensures Valid() && stage == Fresh && log == [] && issued == 0
    {
      used, done := false, garbage;
      handler, event := None, None;
      issued, log, stage := 0, [], Fresh;
    }

    method AsyncDo() returns (due: Option<Call>)
      requires Valid()
      modifies this
      ensures Valid() && issued == old(issued) + 1
      ensures stage == if old(stage) == Fresh then Queued else old(stage)
      ensures due == if old(stage) == Fresh then None else Some(Call(old(issued), AsyncerReused))
      ensures log == if due.Some? then old(log) + [due.value] else old(log)
    {
      if used {
        due := Some(Call(issued, AsyncerReused));
        ServedNext(log, issued, if stage.Over? then [stage.msg] else [], AsyncerReused);
        log := log + [due.value];
        issued := issued + 1;
        return;
      }
      used := true;
      done := false;
      due := CancelNow();
      handler := Some(0);
      event := Some(AsyncEvent(true));
      stage, issued := Queued, 1;
    }

    /** The event callback, run by the loop if the event is registered at that time. */
    method Fire() returns (due: Option<Call>)
      requires Valid()
      modifies this
      ensures Valid() && issued == old(issued)
      ensures stage == if old(stage) == Queued then Over(Success) else old(stage)
      ensures due == if old(stage) == Queued then Some(Call(0, Success)) else None
      ensures log == if due.Some? then old(log) + [due.value] else old(log)
    {
      if event == None || !event.value.readNotify {
        return None;
      }
      event := Some(AsyncEvent(false));
      if !done {
        done := true;
        ServedFirst(log, issued, Success, AsyncerReused);
        due := Some(Call(handler.value, Success));
        log, stage := log + [due.value], Over(Success);
      } else {
        due := None;
      }
    }

    method Cancel() returns (due: Option<Call>)
      requires Valid()
      modifies this
      ensures Valid() && issued == old(issued)
      ensures stage == if old(stage) == Queued then Over(AsyncerCanceled) else old(stage)
      ensures due == if old(stage) == Queued then Some(Call(0, AsyncerCanceled)) else None
      ensures log == if due.Some? then old(log) + [due.value] else old(log)
    {
      due := CancelNow();
    }

    /** `Cancel`, which `AsyncDo` also calls on its way, when there is nothing to cancel yet. */
    method CancelNow() returns (due: Option<Call>)
      requires Valid() || (event == None && stage == Fresh)
      modifies this
      ensures old(event) == None ==> due == None && unchanged(this)
      ensures old(event) != None ==> Valid() && issued == old(issued)
      ensures stage == if old(stage) == Queued then Over(AsyncerCanceled) else old(stage)
      ensures due == if old(stage) == Queued then Some(Call(0, AsyncerCanceled)) else None
      ensures log == if due.Some? then old(log) + [due.value] else old(log)
    {
      if event == None {
        return None;
      }
      event := Some(AsyncEvent(false));
      if !done {
        done := true;
        ServedFirst(log, issued, AsyncerCanceled, AsyncerReused);
        due := Some(Call(handler.value, AsyncerCanceled));
        log, stage := log + [due.value], Over(AsyncerCanceled);
      } else {
        due := None;
      }
    }

    /** `~Asyncer`. */
    method Destroy() returns (due: Option<Call>)
      requires Valid()
      modifies this
      ensures Valid() && stage == if old(stage) == Queued then Over(AsyncerCanceled) else old(stage)
      ensures issued == old(issued) && due == if old(stage) == Queued then Some(Call(0, AsyncerCanceled)) else None
      ensures log == if due.Some? then old(log) + [due.value] else old(log)
    {
      due := None;
      if !done && handler != None {
        ServedFirst(log, issued, AsyncerCanceled, AsyncerReused);
        due := Some(Call(handler.value, AsyncerCanceled));
        log, stage := log + [due.value], Over(AsyncerCanceled);
        done := true;
      }
      if event != None {
        event := Some(AsyncEvent(false));
      }
    }
  }

  datatype Op = DoOp | FireOp | CancelOp

  /** Any sequence of operations, whether from outside or from within handlers, followed by the
      destruction: every handler has been called exactly once, all but the first with the
      message that the asyncer cannot be reused. */
  method Lifetime(ops: seq<Op>, garbage: bool) returns (calls: seq<Call>, issued: nat)
    ensures forall t: nat :: 0 < t < issued ==> CallsOf(calls, t) == [AsyncerReused]
    ensures issued > 0 ==> CallsOf(calls, 0) in {[Success], [AsyncerCanceled]}
    ensures forall t: nat :: t >= issued ==> CallsOf(calls, t) == []
    ensures issued == |Given(ops)|
  {
    var a := new Asyncer(garbage);
    calls := [];
    for i := 0 to |ops|
      invariant a.Valid() && a.log == calls && a.issued == |Given(ops[..i])|
    {
      var due;
      assert ops[..i + 1][..i] == ops[..i];
      match ops[i] {
        case DoOp => due := a.AsyncDo();
        case FireOp => due := a.Fire();
        case CancelOp => due := a.Cancel();
      }
      calls := calls + if due.Some? then [due.value] else [];
    }
    assert ops[..|ops|] == ops;
    var due := a.Destroy();
    calls := calls + if due.Some? then [due.value] else [];
    issued := a.issued;
    assert calls == a.log;
  }

  ghost function Given(ops: seq<Op>): seq<Op> {
    if ops == [] then []
    else Given(ops[..|ops| - 1]) + if ops[|ops| - 1].DoOp? then [DoOp] else []
  }
}
