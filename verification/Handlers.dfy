/** The handlers of one-shot operations, and a record of which of them has been called with what. */
module Handlers {

  /** The argument of a handler; the source's empty message is `Success`. */
  datatype Msg =
    | Success
    | AsyncerReused
    | AsyncerCanceled
    | TimerReused
    | TimerCanceled
    | Finished
    | Failed(text: string)

  /** A call of the handler that was passed in the `ticket`-th place. */
  datatype Call = Call(ticket: nat, msg: Msg)

  /** What the handler with ticket `t` has been called with so far. */
  ghost function CallsOf(log: seq<Call>, t: nat): seq<Msg> {
    if log == [] then []
    else
      var last := log[|log| - 1];
      CallsOf(log[..|log| - 1], t) + if last.ticket == t then [last.msg] else []
  }

  lemma CallAdded(log: seq<Call>, c: Call)
    ensures forall t: nat :: CallsOf(log + [c], t) == CallsOf(log, t) + if c.ticket == t then [c.msg] else []
  {
    assert (log + [c])[..|log|] == log;
  }

  /** The first handler has been called with the messages `first`; each other of the `issued`
      handlers has been called exactly once, with `reused`; no one else has been called. */
  ghost predicate Served(log: seq<Call>, issued: nat, first: seq<Msg>, reused: Msg) {
    forall t: nat :: CallsOf(log, t) == if t == 0 then first else if t < issued then [reused] else []
  }

  lemma ServedBegins(log: seq<Call>, reused: Msg)
    requires Served(log, 0, [], reused)
    ensures Served(log, 1, [], reused)
  {
  }

  lemma ServedFirst(log: seq<Call>, issued: nat, msg: Msg, reused: Msg)
    requires Served(log, issued, [], reused)
    ensures Served(log + [Call(0, msg)], issued, [msg], reused)
  {
    CallAdded(log, Call(0, msg));
  }

  lemma ServedNext(log: seq<Call>, issued: nat, first: seq<Msg>, reused: Msg)
    requires Served(log, issued, first, reused) && issued > 0
    ensures Served(log + [Call(issued, reused)], issued + 1, first, reused)
  {
    CallAdded(log, Call(issued, reused));
    assert CallsOf(log, issued) == [];
  }
}
