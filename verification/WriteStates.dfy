/**
 The write path of a connection on values: what each operation does to the writes, their handlers and
 the bytes, with everything the handlers do in turn. TcpWrites.dfy has the class, proved equal to it.
 */
module WriteStates {
  import opened Options
  import opened Handlers
  import opened Buffers

  /** What a handler does to the connection when it is called. */
  datatype Act = PushAct(data: seq<Byte>) | FinishAct(errMsg: Msg)

  datatype Handler = Handler(body: seq<Act>)

  /** A write handler that is still to be called, with its number among all that were passed in. */
  datatype Stored = Stored(ticket: nat, handler: Handler)

  /** What `write` on the socket reports: how much of what it is offered it takes, an error (with a
      count of -1), or that it cannot take anything now (a count of -1, and no error). */
  datatype SocketResult = Takes(n: nat) | Fails(text: string) | Again

  datatype Op =
    | WriteOp(h: Handler)
    | FireOp
    | ReadyOp(result: SocketResult)
    | PushOp(data: seq<Byte>)
    | FinishOp(errMsg: Msg)
    | ResetOp

  /**
   `given` are the write handlers passed in, in order; `queued` is the one whose asyncer has still to
   run, `armed` the one that waits for the socket, `gone` those that nobody will call any more.
   `size` is the length of the write buffer, `accepted` what the socket took in this cycle, `sent`
   what had been pushed when success was last reported in it.
   */
  datatype St = St(
    finished: bool, writeDone: bool, given: seq<Handler>, queued: Option<Stored>, armed: Option<Stored>, gone: set<nat>,
    calls: seq<Call>, finishCalls: seq<Msg>, pushed: seq<Byte>, size: nat, accepted: seq<Byte>, sent: seq<Byte>)

  function Min(a: nat, b: nat): nat {
    if a < b then a else b
  }

  function Pushed(st: St, data: seq<Byte>): St {
    if st.size + |data| < MaxSize then st.(pushed := st.pushed + data, size := st.size + |data|) else st
  }

  function Called(st: St, s: Stored, msg: Msg): St {
    st.(calls := st.calls + [Call(s.ticket, msg)])
  }

  /** What the acts of a handler from the `i`-th on do; `fin` is what the finish handler does. */
  function Body(st: St, acts: seq<Act>, i: nat, fin: seq<Act>): (r: St)
    requires i <= |acts|
    ensures st.finished ==> r.finished
    decreases if st.finished then 0 else 1, |acts| - i, 1
  {
    if i == |acts| then st
    else
      var t := match acts[i] case PushAct(data) => Pushed(st, data) case FinishAct(errMsg) => Finish(st, errMsg, fin);
      Body(t, acts, i + 1, fin)
  }

  /** The first `Finish` of a cycle: the queued handler is called, then the armed one, unless an earlier
      write of the cycle is done, and then the finish handler; a further one does nothing. */
  function Finish(st: St, errMsg: Msg, fin: seq<Act>): (r: St)
    ensures r.finished
    decreases if st.finished then 0 else 1, 0, 0
  {
    if st.finished then st
    else
      var c := EndArmed(EndQueued(st.(finished := true), fin), fin);
      Body(c.(finishCalls := c.finishCalls + [errMsg]), fin, 0, fin)
  }

  function Length(s: Option<Stored>): nat {
    if s == None then 0 else |s.value.handler.body|
  }

  function EndQueued(st: St, fin: seq<Act>): (r: St)
    requires st.finished
    ensures r.finished
    decreases 0, Length(st.queued), 2
  {
    if st.queued == None then st
    else Body(Called(st.(queued := None), st.queued.value, AsyncerCanceled), st.queued.value.handler.body, 0, fin)
  }

  function EndArmed(st: St, fin: seq<Act>): (r: St)
    requires st.finished
    ensures r.finished
    decreases 0, Length(st.armed), 2
  {
    if st.armed == None then st
    else if st.writeDone then st.(armed := None, gone := st.gone + {st.armed.value.ticket})
    else Body(Called(st.(armed := None, writeDone := true), st.armed.value, Finished), st.armed.value.handler.body, 0, fin)
  }

  /** `AsyncWrite`: a finished connection calls the handler at once; else a write that is still queued is
      canceled, and the new one is queued. */
  function Written(st: St, h: Handler, fin: seq<Act>): St {
    var s := Stored(|st.given|, h);
    var a := st.(given := st.given + [h]);
    if st.finished then Body(Called(a, s, Finished), h.body, 0, fin)
    else
      var b := if a.queued == None then a
        else Body(Called(a.(queued := None), a.queued.value, AsyncerCanceled), a.queued.value.handler.body, 0, fin);
      b.(queued := Some(s))
  }

  /** The asyncer runs: the queued write is armed, and one that was armed is gone. */
  function Fired(st: St): St {
    if st.queued == None then st
    else st.(queued := None, armed := st.queued, gone := st.gone + if st.armed == None then {} else {st.armed.value.ticket})
  }

  /** The write event runs, with what the socket reports if there is anything to offer. */
  function Ready(st: St, result: SocketResult, fin: seq<Act>): St
    requires |st.accepted| <= |st.pushed|
  {
    var unread := st.pushed[|st.accepted|..];
    if st.armed == None then st
    else
      var s, a := st.armed.value, st.(armed := None, writeDone := true);
      if unread == [] then Body(Called(a.(sent := st.pushed), s, Success), s.handler.body, 0, fin)
      else match result
        case Again => st
        case Fails(text) => Finish(Body(Called(a, s, Failed(text)), s.handler.body, 0, fin), Failed(text), fin)
        case Takes(n) =>
          var c := Min(Min(n, 1024), |unread|);
          st.(accepted := st.accepted + unread[..c], size := if c == |unread| then 0 else st.size)
  }

  /** `Reset`, for a connection that is not finished and has no write armed. */
  function Reset(st: St): St {
    st.(finished := false, writeDone := false, pushed := [], size := 0, accepted := [], sent := [])
  }

  /** The destructor: it reports to a queued handler, and drops an armed one. */
  function Destroyed(st: St): St {
    var a := if st.queued == None then st else Called(st.(queued := None), st.queued.value, AsyncerCanceled);
    if a.armed == None then a else a.(armed := None, gone := a.gone + {a.armed.value.ticket})
  }

  function After(st: St, op: Op, fin: seq<Act>): St
    requires |st.accepted| <= |st.pushed|
  {
    match op
    case WriteOp(h) => Written(st, h, fin)
    case FireOp => Fired(st)
    case ReadyOp(result) => Ready(st, result, fin)
    case PushOp(data) => Pushed(st, data)
    case FinishOp(errMsg) => Finish(st, errMsg, fin)
    case ResetOp => Reset(st)
  }

  predicate Finishes(h: Handler) {
    exists i | 0 <= i < |h.body| :: h.body[i].FinishAct?
  }

  /** The operations a connection is fit for: no write over a queued one whose handler finishes the
      connection when it is canceled, no reset of a finished connection or with a write armed, and a
      socket that does not report -1 without an error. */
  predicate Fit(st: St, op: Op) {
    match op
    case WriteOp(_) => st.finished || st.queued == None || !Finishes(st.queued.value.handler)
    case ReadyOp(result) => !result.Again? || st.armed == None || st.accepted == st.pushed
    case ResetOp => !st.finished && st.armed == None
    case _ => true
  }

  // ----- what bodies leave alone

  /** The bytes pushed and the room for them are all that a body changes on a finished connection. */
  lemma {:induction false} FinishedBody(st: St, acts: seq<Act>, i: nat, fin: seq<Act>)
    requires i <= |acts| && st.finished
    ensures var r := Body(st, acts, i, fin); r == st.(pushed := r.pushed, size := r.size) && st.pushed <= r.pushed
    decreases |acts| - i
  {
    if i < |acts| {
      var t := match acts[i] case PushAct(data) => Pushed(st, data) case FinishAct(errMsg) => Finish(st, errMsg, fin);
      FinishedBody(t, acts, i + 1, fin);
    }
  }

  lemma EndsClear(st: St, fin: seq<Act>)
    requires st.finished
    ensures EndQueued(st, fin).queued == None && EndQueued(st, fin).armed == st.armed && EndQueued(st, fin).writeDone == st.writeDone
    ensures EndQueued(st, fin).finishCalls == st.finishCalls && EndArmed(st, fin).finishCalls == st.finishCalls
    ensures EndArmed(st, fin).armed == None && EndArmed(st, fin).queued == st.queued
  {
    hide Body;
    if st.queued.Some? {
      FinishedBody(Called(st.(queued := None), st.queued.value, AsyncerCanceled), st.queued.value.handler.body, 0, fin);
    }
    if st.armed.Some? && !st.writeDone {
      FinishedBody(Called(st.(armed := None, writeDone := true), st.armed.value, Finished), st.armed.value.handler.body, 0, fin);
    }
  }

  /** What finishing does to the writes and their calls. */
  function Finishing(st: St, errMsg: Msg): St {
    if st.finished then st
    else
      var a := st.(finished := true, finishCalls := st.finishCalls + [errMsg]);
      var b := if st.queued == None then a else Called(a.(queued := None), st.queued.value, AsyncerCanceled);
      if st.armed == None then b
      else if st.writeDone then b.(armed := None, gone := st.gone + {st.armed.value.ticket})
      else Called(b.(armed := None, writeDone := true), st.armed.value, Finished)
  }

  lemma FinishIsFinishing(st: St, errMsg: Msg, fin: seq<Act>)
    ensures var r := Finish(st, errMsg, fin);
      r == Finishing(st, errMsg).(pushed := r.pushed, size := r.size) && st.pushed <= r.pushed
  {
    if !st.finished {
      var a := st.(finished := true);
      if a.queued.Some? {
        FinishedBody(Called(a.(queued := None), a.queued.value, AsyncerCanceled), a.queued.value.handler.body, 0, fin);
      }
      var b := EndQueued(a, fin);
      if b.armed.Some? && !b.writeDone {
        FinishedBody(Called(b.(armed := None, writeDone := true), b.armed.value, Finished), b.armed.value.handler.body, 0, fin);
      }
      var c := EndArmed(b, fin);
      FinishedBody(c.(finishCalls := c.finishCalls + [errMsg]), fin, 0, fin);
    }
  }

  // ----- every handler is called once

  /** The write with this number is over: its handler has had its call. */
  predicate Settled(st: St, t: nat) {
    && t < |st.given| && t !in st.gone
    && (st.queued == None || st.queued.value.ticket != t) && (st.armed == None || st.armed.value.ticket != t)
  }

  predicate Known(st: St, s: Option<Stored>) {
    s.Some? ==> s.value.ticket < |st.given| && st.given[s.value.ticket] == s.value.handler && s.value.ticket !in st.gone
  }

  /** Each handler has been called exactly once if its write is over, and else not at all; the stored
      handlers are those passed in under their numbers; success was reported with all bytes sent. */
  ghost predicate Books(st: St) {
    && (forall t: nat :: |CallsOf(st.calls, t)| == if Settled(st, t) then 1 else 0)
    && Known(st, st.queued) && Known(st, st.armed)
    && (st.queued.Some? && st.armed.Some? ==> st.queued.value.ticket != st.armed.value.ticket)
    && (forall t | t in st.gone :: t < |st.given|)
    && st.sent <= st.accepted <= st.pushed
    && |st.finishCalls| == (if st.finished then 1 else 0)
    && (st.finished ==> st.queued == None && st.armed == None)
  }

  /** A stored handler is called. */
  lemma CallSettles(st: St, a: St, s: Stored, msg: Msg)
    requires Books(st) && Settled(a, s.ticket) && !Settled(st, s.ticket) && a.calls == st.calls
    requires forall t: nat | t != s.ticket :: Settled(a, t) == Settled(st, t)
    ensures forall t: nat :: |CallsOf(Called(a, s, msg).calls, t)| == if Settled(Called(a, s, msg), t) then 1 else 0
  {
    CallAdded(st.calls, Call(s.ticket, msg));
  }

  lemma MorePushed(st: St, pushed: seq<Byte>, size: nat)
    requires Books(st) && st.pushed <= pushed
    ensures Books(st.(pushed := pushed, size := size))
  {
    var r := st.(pushed := pushed, size := size);
    forall t: nat ensures Settled(r, t) == Settled(st, t) { }
  }

  lemma QueuedCalled(st: St, msg: Msg)
    requires Books(st) && st.queued.Some?
    ensures Books(Called(st.(queued := None), st.queued.value, msg))
  {
    CallSettles(st, st.(queued := None), st.queued.value, msg);
  }

  lemma ArmedCalled(st: St, msg: Msg, writeDone: bool)
    requires Books(st) && st.armed.Some?
    ensures Books(Called(st.(armed := None, writeDone := writeDone), st.armed.value, msg))
  {
    CallSettles(st, st.(armed := None, writeDone := writeDone), st.armed.value, msg);
  }

  lemma ArmedLost(st: St)
    requires Books(st) && st.armed.Some?
    ensures Books(st.(armed := None, gone := st.gone + {st.armed.value.ticket}))
  {
    var r := st.(armed := None, gone := st.gone + {st.armed.value.ticket});
    forall t: nat ensures Settled(r, t) == Settled(st, t) { }
  }

  lemma NowFinished(st: St, errMsg: Msg)
    requires Books(st) && !st.finished && st.queued == None && st.armed == None
    ensures Books(st.(finished := true, finishCalls := st.finishCalls + [errMsg]))
  {
    var r := st.(finished := true, finishCalls := st.finishCalls + [errMsg]);
    forall t: nat ensures Settled(r, t) == Settled(st, t) { }
  }

  lemma FinishingKeepsBooks(st: St, errMsg: Msg)
    requires Books(st)
    ensures Books(Finishing(st, errMsg))
  {
    if !st.finished {
      var b := st;
      if st.queued.Some? {
        b := Called(st.(queued := None), st.queued.value, AsyncerCanceled);
        QueuedCalled(st, AsyncerCanceled);
      }
      var c := b;
      if b.armed.Some? {
        if b.writeDone {
          c := b.(armed := None, gone := b.gone + {b.armed.value.ticket});
          ArmedLost(b);
        } else {
          c := Called(b.(armed := None, writeDone := true), b.armed.value, Finished);
          ArmedCalled(b, Finished, true);
        }
      }
      NowFinished(c, errMsg);
      assert Finishing(st, errMsg) == c.(finished := true, finishCalls := c.finishCalls + [errMsg]);
    }
  }

  /** The first error with which the acts from the `i`-th on finish the connection. */
  function FirstFinish(acts: seq<Act>, i: nat): Option<Msg>
    requires i <= |acts|
    decreases |acts| - i
  {
    if i == |acts| then None else if acts[i].FinishAct? then Some(acts[i].errMsg) else FirstFinish(acts, i + 1)
  }

  /** All a body does is push bytes, and finish the connection, with the first error it finishes it with. */
  lemma {:induction false} BodyIs(st: St, acts: seq<Act>, i: nat, fin: seq<Act>)
    requires i <= |acts|
    ensures var r, e := Body(st, acts, i, fin), FirstFinish(acts, i);
      && st.pushed <= r.pushed
      && r == (if e == None then st else Finishing(st, e.value)).(pushed := r.pushed, size := r.size)
    decreases |acts| - i
  {
    if i < |acts| {
      match acts[i]
      case PushAct(data) => BodyIs(Pushed(st, data), acts, i + 1, fin);
      case FinishAct(errMsg) =>
        FinishIsFinishing(st, errMsg, fin);
        FinishedBody(Finish(st, errMsg, fin), acts, i + 1, fin);
    }
  }

  lemma BodyKeepsBooks(st: St, acts: seq<Act>, fin: seq<Act>)
    requires Books(st)
    ensures Books(Body(st, acts, 0, fin))
  {
    hide Books, Body, Finishing;
    BodyIs(st, acts, 0, fin);
    var r, e := Body(st, acts, 0, fin), FirstFinish(acts, 0);
    if e.Some? {
      FinishingKeepsBooks(st, e.value);
      SamePushed(st, e.value);
      MorePushed(Finishing(st, e.value), r.pushed, r.size);
    } else {
      MorePushed(st, r.pushed, r.size);
    }
  }

  lemma SamePushed(st: St, errMsg: Msg)
    ensures Finishing(st, errMsg).pushed == st.pushed
  {
  }

  lemma FinishKeepsBooks(st: St, errMsg: Msg, fin: seq<Act>)
    requires Books(st)
    ensures Books(Finish(st, errMsg, fin))
  {
    hide Books, Finish, Finishing;
    FinishIsFinishing(st, errMsg, fin);
    FinishingKeepsBooks(st, errMsg);
    SamePushed(st, errMsg);
    MorePushed(Finishing(st, errMsg), Finish(st, errMsg, fin).pushed, Finish(st, errMsg, fin).size);
  }

  lemma {:induction false} NoFinish(acts: seq<Act>, i: nat)
    requires i <= |acts| && forall k | i <= k < |acts| :: !acts[k].FinishAct?
    ensures FirstFinish(acts, i) == None
    decreases |acts| - i
  {
    if i < |acts| { NoFinish(acts, i + 1); }
  }

  lemma {:induction false} FinishesSomewhere(acts: seq<Act>, i: nat)
    requires i <= |acts|
    ensures FirstFinish(acts, i).Some? <==> exists k | i <= k < |acts| :: acts[k].FinishAct?
    decreases |acts| - i
  {
    if i < |acts| {
      FinishesSomewhere(acts, i + 1);
      if acts[i].FinishAct? { assert i <= i < |acts| && acts[i].FinishAct?; }
    }
  }

  /** A handler that is called leaves the writes alone, unless it finishes the connection. */
  lemma BodyLeaves(st: St, h: Handler, fin: seq<Act>)
    requires !st.finished && st.queued == None
    ensures var r := Body(st, h.body, 0, fin);
      && r.finished == Finishes(h) && r.queued == None && r.given == st.given
      && (!r.finished ==> r.armed == st.armed && r.writeDone == st.writeDone)
  {
    hide Body;
    BodyIs(st, h.body, 0, fin);
    FinishesSomewhere(h.body, 0);
  }

  /** A new handler is queued. */
  lemma NewQueued(st: St, h: Handler)
    requires Books(st) && !st.finished && st.queued == None
    ensures Books(st.(given := st.given + [h], queued := Some(Stored(|st.given|, h))))
  {
    var r := st.(given := st.given + [h], queued := Some(Stored(|st.given|, h)));
    forall t: nat ensures Settled(r, t) == Settled(st, t) { }
  }

  /** A new handler is called at once. */
  lemma NewCalled(st: St, h: Handler)
    requires Books(st) && st.finished
    ensures Books(Called(st.(given := st.given + [h]), Stored(|st.given|, h), Finished))
  {
    CallSettles(st, st.(given := st.given + [h]), Stored(|st.given|, h), Finished);
  }

  lemma WrittenKeepsBooks(st: St, h: Handler, fin: seq<Act>)
    requires Books(st) && Fit(st, WriteOp(h))
    ensures Books(Written(st, h, fin))
  {
    hide Books, Body;
    var a := st.(given := st.given + [h]);
    if st.finished {
      NewCalled(st, h);
      BodyKeepsBooks(Called(a, Stored(|st.given|, h), Finished), h.body, fin);
    } else if st.queued == None {
      NewQueued(st, h);
    } else {
      var q := st.queued.value;
      var b := Called(st.(queued := None), q, AsyncerCanceled);
      var c := Called(a.(queued := None), q, AsyncerCanceled);
      var r := Body(c, q.handler.body, 0, fin);
      QueuedCalled(st, AsyncerCanceled);
      NoFinish(q.handler.body, 0);
      BodyIs(c, q.handler.body, 0, fin);
      MorePushed(b, r.pushed, r.size);
      NewQueued(b.(pushed := r.pushed, size := r.size), h);
    }
  }

  lemma FiredKeepsBooks(st: St)
    requires Books(st)
    ensures Books(Fired(st))
  {
    forall t: nat ensures Settled(Fired(st), t) == Settled(st, t) { }
  }

  lemma TakenKeepsBooks(st: St, c: nat, size: nat)
    requires Books(st) && c <= |st.pushed| - |st.accepted|
    ensures Books(st.(accepted := st.accepted + st.pushed[|st.accepted|..][..c], size := size))
  {
    var r := st.(accepted := st.accepted + st.pushed[|st.accepted|..][..c], size := size);
    forall t: nat ensures Settled(r, t) == Settled(st, t) { }
  }

  lemma SentKeepsBooks(st: St)
    requires Books(st) && st.accepted == st.pushed
    ensures Books(st.(sent := st.pushed))
  {
    forall t: nat ensures Settled(st.(sent := st.pushed), t) == Settled(st, t) { }
  }

  lemma ReadyKeepsBooks(st: St, result: SocketResult, fin: seq<Act>)
    requires Books(st) && Fit(st, ReadyOp(result)) && |st.accepted| <= |st.pushed|
    ensures Books(Ready(st, result, fin))
  {
    var unread := st.pushed[|st.accepted|..];
    if st.armed.Some? {
      var s, a := st.armed.value, st.(armed := None, writeDone := true);
      if unread == [] {
        assert st.accepted == st.pushed;
        SentKeepsBooks(st);
        ArmedCalled(st.(sent := st.pushed), Success, true);
        BodyKeepsBooks(Called(a.(sent := st.pushed), s, Success), s.handler.body, fin);
      } else if result.Fails? {
        var b := Called(a, s, Failed(result.text));
        ArmedCalled(st, Failed(result.text), true);
        BodyKeepsBooks(b, s.handler.body, fin);
        FinishKeepsBooks(Body(b, s.handler.body, 0, fin), Failed(result.text), fin);
      } else if result.Takes? {
        var c := Min(Min(result.n, 1024), |unread|);
        TakenKeepsBooks(st, c, if c == |unread| then 0 else st.size);
      }
    }
  }

  lemma ResetKeepsBooks(st: St)
    requires Books(st) && Fit(st, ResetOp)
    ensures Books(Reset(st))
  {
    forall t: nat ensures Settled(Reset(st), t) == Settled(st, t) { }
  }

  lemma AfterKeepsBooks(st: St, op: Op, fin: seq<Act>)
    requires Books(st) && Fit(st, op)
    ensures |st.accepted| <= |st.pushed| && Books(After(st, op, fin))
  {
    assert st.accepted <= st.pushed;
    hide Books, Written, Fired, Ready, Finish, Reset, Fit;
    match op
    case WriteOp(h) => WrittenKeepsBooks(st, h, fin);
    case FireOp => FiredKeepsBooks(st);
    case ReadyOp(result) => ReadyKeepsBooks(st, result, fin);
    case PushOp(data) => MorePushed(st, Pushed(st, data).pushed, Pushed(st, data).size);
    case FinishOp(errMsg) => FinishKeepsBooks(st, errMsg, fin);
    case ResetOp => ResetKeepsBooks(st);
  }

  // ----- which handlers are never called

  /** The write that an operation loses: an armed one that another replaces, or that `Finish` finds when an
      earlier write of the cycle is done. */
  function Lost(st: St, op: Op): set<nat> {
    if st.armed == None then {}
    else if (op.FireOp? && st.queued.Some?) || (op.FinishOp? && !st.finished && st.writeDone) then {st.armed.value.ticket}
    else {}
  }

  lemma BodyLoses(st: St, acts: seq<Act>, fin: seq<Act>)
    ensures Body(st, acts, 0, fin).gone == st.gone + if FirstFinish(acts, 0) == None then {} else Lost(st, FinishOp(Success))
    ensures FirstFinish(acts, 0) == None ==>
      Body(st, acts, 0, fin).armed == st.armed && Body(st, acts, 0, fin).finished == st.finished
    ensures st.armed == None ==> Body(st, acts, 0, fin).armed == None
  {
    hide Body;
    BodyIs(st, acts, 0, fin);
  }

  /** A handler is never called if and only if an operation loses it. */
  lemma GoneIsLost(st: St, op: Op, fin: seq<Act>)
    requires Books(st) && Fit(st, op)
    ensures |st.accepted| <= |st.pushed| && After(st, op, fin).gone == st.gone + Lost(st, op)
  {
    assert st.accepted <= st.pushed;
    hide Body, Finish;
    match op
    case WriteOp(h) =>
      var a := st.(given := st.given + [h]);
      if st.finished {
        BodyLoses(Called(a, Stored(|st.given|, h), Finished), h.body, fin);
      } else if st.queued.Some? {
        NoFinish(st.queued.value.handler.body, 0);
        BodyLoses(Called(a.(queued := None), st.queued.value, AsyncerCanceled), st.queued.value.handler.body, fin);
      }
    case ReadyOp(result) => ReadyLoses(st, result, fin);
    case FinishOp(errMsg) => FinishIsFinishing(st, errMsg, fin);
    case _ =>
  }

  lemma ReadyLoses(st: St, result: SocketResult, fin: seq<Act>)
    requires |st.accepted| <= |st.pushed|
    ensures Ready(st, result, fin).gone == st.gone
  {
    hide Body, Finish;
    if st.armed.Some? {
      var s, a := st.armed.value, st.(armed := None, writeDone := true);
      BodyLoses(Called(a.(sent := st.pushed), s, Success), s.handler.body, fin);
      if result.Fails? {
        var b := Called(a, s, Failed(result.text));
        BodyLoses(b, s.handler.body, fin);
        FinishIsFinishing(Body(b, s.handler.body, 0, fin), Failed(result.text), fin);
      }
    }
  }

  // ----- whole lives

  const Start := St(false, false, [], None, None, {}, [], [], [], 1024, [], [])

  predicate AllFit(st: St, ops: seq<Op>, fin: seq<Act>)
    decreases |ops|
  {
    ops == [] || (Fit(st, ops[0]) && |st.accepted| <= |st.pushed| && AllFit(After(st, ops[0], fin), ops[1..], fin))
  }

  function AfterAll(st: St, ops: seq<Op>, fin: seq<Act>): St
    requires AllFit(st, ops, fin)
    decreases |ops|
  {
    if ops == [] then st else AfterAll(After(st, ops[0], fin), ops[1..], fin)
  }

  lemma {:induction false} AllKeepBooks(st: St, ops: seq<Op>, fin: seq<Act>)
    requires Books(st) && AllFit(st, ops, fin)
    ensures Books(AfterAll(st, ops, fin))
    decreases |ops|
  {
    hide Books, After, Fit;
    if ops != [] {
      AfterKeepsBooks(st, ops[0], fin);
      AllKeepBooks(After(st, ops[0], fin), ops[1..], fin);
    }
  }

  lemma StartIsBooked()
    ensures Books(Start)
  {
  }

  /** Any life of a connection over any number of cycles, with any number of writes in each, ended by
      `Finish`: each handler passed in has been called exactly once, but for those that an operation
      lost, which have not; the finish handler exactly once; the socket got a prefix of the bytes
      pushed, and all of those pushed when success was last reported. */
  lemma EveryHandlerOnce(ops: seq<Op>, last: Msg, fin: seq<Act>)
    requires AllFit(Start, ops, fin)
    ensures var e := Finish(AfterAll(Start, ops, fin), last, fin);
      && (forall t: nat | t < |e.given| :: |CallsOf(e.calls, t)| == if t in e.gone then 0 else 1)
      && (forall t: nat | t >= |e.given| :: CallsOf(e.calls, t) == [])
      && |e.finishCalls| == 1 && e.sent <= e.accepted <= e.pushed
  {
    StartIsBooked();
    AllKeepBooks(Start, ops, fin);
    FinishKeepsBooks(AfterAll(Start, ops, fin), last, fin);
    hide AfterAll, Finish;
    var e := Finish(AfterAll(Start, ops, fin), last, fin);
    forall t: nat ensures Settled(e, t) <==> t < |e.given| && t !in e.gone { }
  }

  /** The same life, ended by the destructor: it loses an armed handler, and no other. */
  lemma EveryHandlerOnceDestroyed(ops: seq<Op>, fin: seq<Act>)
    requires AllFit(Start, ops, fin)
    ensures var b := AfterAll(Start, ops, fin); var e := Destroyed(b);
      && (forall t: nat | t < |e.given| :: |CallsOf(e.calls, t)| == if t in e.gone then 0 else 1)
      && e.given == b.given && e.gone == b.gone + if b.armed == None then {} else {b.armed.value.ticket}
  {
    StartIsBooked();
    AllKeepBooks(Start, ops, fin);
    hide AfterAll;
    var b := AfterAll(Start, ops, fin);
    if b.queued.Some? { QueuedCalled(b, AsyncerCanceled); }
    var c := if b.queued == None then b else Called(b.(queued := None), b.queued.value, AsyncerCanceled);
    if c.armed.Some? { ArmedLost(c); }
    var e := Destroyed(b);
    forall t: nat ensures Settled(e, t) <==> t < |e.given| && t !in e.gone { }
  }

  /** How many writes the connection has begun in its cycle, when it has begun `n` of them before the
      operation: a finished connection begins none, and one that is queued at a reset counts anew. */
  function Begun(st: St, op: Op, n: nat): nat {
    if op.WriteOp? && !st.finished then n + 1
    else if op.ResetOp? then (if st.queued == None then 0 else 1)
    else n
  }

  /** At most one write is begun between two resets. */
  predicate OnePerCycle(st: St, ops: seq<Op>, fin: seq<Act>, n: nat)
    requires AllFit(st, ops, fin)
    decreases |ops|
  {
    ops == [] || (Begun(st, ops[0], n) <= 1 && OnePerCycle(After(st, ops[0], fin), ops[1..], fin, Begun(st, ops[0], n)))
  }

  /** No handler is lost, and none is about to be, when `n` writes have been begun in the cycle. */
  predicate Calm(st: St, n: nat) {
    && st.gone == {} && (st.queued == None || st.armed == None)
    && (st.queued.Some? || st.armed.Some? ==> !st.writeDone && n > 0)
    && (st.writeDone && !st.finished ==> n > 0)
    && (st.finished ==> st.queued == None && st.armed == None)
  }

  lemma BodyStaysCalm(st: St, acts: seq<Act>, fin: seq<Act>, n: nat)
    requires Calm(st, n)
    ensures Calm(Body(st, acts, 0, fin), n)
  {
    hide Body;
    BodyIs(st, acts, 0, fin);
  }

  lemma FinishStaysCalm(st: St, errMsg: Msg, fin: seq<Act>, n: nat)
    requires Calm(st, n)
    ensures Calm(Finish(st, errMsg, fin), n)
  {
    hide Finish;
    FinishIsFinishing(st, errMsg, fin);
  }

  lemma StaysCalm(st: St, op: Op, fin: seq<Act>, n: nat)
    requires Calm(st, n) && Fit(st, op) && Begun(st, op, n) <= 1 && |st.accepted| <= |st.pushed|
    ensures Calm(After(st, op, fin), Begun(st, op, n))
  {
    hide Body, Finish;
    match op
    case WriteOp(h) =>
      if st.finished { BodyStaysCalm(Called(st.(given := st.given + [h]), Stored(|st.given|, h), Finished), h.body, fin, n); }
    case ReadyOp(result) =>
      if st.armed.Some? {
        var s, a := st.armed.value, st.(armed := None, writeDone := true);
        BodyStaysCalm(Called(a.(sent := st.pushed), s, Success), s.handler.body, fin, n);
        if result.Fails? {
          var b := Called(a, s, Failed(result.text));
          BodyStaysCalm(b, s.handler.body, fin, n);
          FinishStaysCalm(Body(b, s.handler.body, 0, fin), Failed(result.text), fin, n);
        }
      }
    case FinishOp(errMsg) => FinishStaysCalm(st, errMsg, fin, n);
    case _ =>
  }

  lemma {:induction false} AllStayCalm(st: St, ops: seq<Op>, fin: seq<Act>, n: nat) returns (m: nat)
    requires Calm(st, n) && AllFit(st, ops, fin) && OnePerCycle(st, ops, fin, n)
    ensures Calm(AfterAll(st, ops, fin), m)
    decreases |ops|
  {
    hide Calm, After, Fit, Begun;
    m := n;
    if ops != [] {
      StaysCalm(st, ops[0], fin, n);
      m := AllStayCalm(After(st, ops[0], fin), ops[1..], fin, Begun(st, ops[0], n));
    }
  }

  /** If at most one write is begun in each cycle, no handler is lost: each is called exactly once, over
      any number of cycles. */
  lemma OneWriteIsNeverLost(ops: seq<Op>, last: Msg, fin: seq<Act>)
    requires AllFit(Start, ops, fin) && OnePerCycle(Start, ops, fin, 0)
    ensures var e := Finish(AfterAll(Start, ops, fin), last, fin);
      forall t: nat | t < |e.given| :: |CallsOf(e.calls, t)| == 1
  {
    var n := AllStayCalm(Start, ops, fin, 0);
    FinishStaysCalm(AfterAll(Start, ops, fin), last, fin, n);
    EveryHandlerOnce(ops, last, fin);
  }

  // ----- who is called with what

  /** The call that an operation makes first, if it makes any: what the handlers do may add others. */
  lemma FirstCall(st: St, op: Op, fin: seq<Act>)
    requires |st.accepted| <= |st.pushed|
    ensures var r := After(st, op, fin).calls;
      match op
      case WriteOp(_) =>
        if st.finished then r == st.calls + [Call(|st.given|, Finished)]
        else if st.queued.Some? then st.calls + [Call(st.queued.value.ticket, AsyncerCanceled)] <= r
        else r == st.calls
      case ReadyOp(result) =>
        if st.armed == None then r == st.calls
        else if |st.accepted| == |st.pushed| then st.calls + [Call(st.armed.value.ticket, Success)] <= r
        else if result.Fails? then st.calls + [Call(st.armed.value.ticket, Failed(result.text))] <= r
        else r == st.calls
      case FinishOp(_) =>
        r == st.calls + (if st.queued.Some? && !st.finished then [Call(st.queued.value.ticket, AsyncerCanceled)] else [])
               + (if st.armed.Some? && !st.finished && !st.writeDone then [Call(st.armed.value.ticket, Finished)] else [])
      case _ => r == st.calls
  {
    hide Body, Finish;
    match op
    case WriteOp(h) =>
      var a := st.(given := st.given + [h]);
      if st.finished {
        FinishedBody(Called(a, Stored(|st.given|, h), Finished), h.body, 0, fin);
      } else if st.queued.Some? {
        BodyOnlyCalls(Called(a.(queued := None), st.queued.value, AsyncerCanceled), st.queued.value.handler.body, fin);
      }
    case ReadyOp(result) =>
      if st.armed.Some? {
        var s, a := st.armed.value, st.(armed := None, writeDone := true);
        BodyOnlyCalls(Called(a.(sent := st.pushed), s, Success), s.handler.body, fin);
        if result.Fails? {
          var b := Called(a, s, Failed(result.text));
          BodyOnlyCalls(b, s.handler.body, fin);
          FinishOnlyCalls(Body(b, s.handler.body, 0, fin), Failed(result.text), fin);
        }
      }
    case FinishOp(errMsg) => FinishIsFinishing(st, errMsg, fin);
    case _ =>
  }

  lemma FinishOnlyCalls(st: St, errMsg: Msg, fin: seq<Act>)
    ensures st.calls <= Finish(st, errMsg, fin).calls
  {
    hide Finish;
    FinishIsFinishing(st, errMsg, fin);
  }

  lemma BodyOnlyCalls(st: St, acts: seq<Act>, fin: seq<Act>)
    ensures st.calls <= Body(st, acts, 0, fin).calls && Body(st, acts, 0, fin).accepted == st.accepted
    ensures st.armed == None ==> Body(st, acts, 0, fin).armed == None
  {
    hide Body;
    BodyIs(st, acts, 0, fin);
  }

  /** A finish that is the first of its cycle, and an error of the socket, finish the connection, with their
      error, unless the handler that is called before has finished it. */
  lemma FinishedWith(st: St, op: Op, fin: seq<Act>)
    requires |st.accepted| <= |st.pushed| && !st.finished
    ensures op.FinishOp? ==> After(st, op, fin).finished && After(st, op, fin).finishCalls == st.finishCalls + [op.errMsg]
    ensures op.ReadyOp? && op.result.Fails? && st.armed.Some? && |st.accepted| < |st.pushed| ==>
      After(st, op, fin).finished
      && (!Finishes(st.armed.value.handler) ==> After(st, op, fin).finishCalls == st.finishCalls + [Failed(op.result.text)])
  {
    hide Body, Finish;
    if op.FinishOp? {
      FinishIsFinishing(st, op.errMsg, fin);
    } else if op.ReadyOp? && op.result.Fails? && st.armed.Some? {
      var s := st.armed.value;
      var b := Called(st.(armed := None, writeDone := true), s, Failed(op.result.text));
      BodyIs(b, s.handler.body, 0, fin);
      FinishesSomewhere(s.handler.body, 0);
      FinishIsFinishing(Body(b, s.handler.body, 0, fin), Failed(op.result.text), fin);
    }
  }

  function AllPushes(acts: seq<Act>): seq<Byte> {
    if acts == [] then [] else (if acts[0].PushAct? then acts[0].data else []) + AllPushes(acts[1..])
  }

  /** A handler that is called pushes all that it says, in order, if there is room, up to where it finishes
      the connection. */
  lemma {:induction false} BodyPushes(st: St, acts: seq<Act>, i: nat, fin: seq<Act>)
    requires i <= |acts| && FirstFinish(acts, i) == None && st.size + |AllPushes(acts[i..])| < MaxSize
    ensures Body(st, acts, i, fin).pushed == st.pushed + AllPushes(acts[i..])
    decreases |acts| - i
  {
    if i == |acts| {
      assert acts[i..] == [];
    } else {
      assert acts[i..][1..] == acts[i + 1..];
      BodyPushes(Pushed(st, acts[i].data), acts, i + 1, fin);
    }
  }

  // ----- a write that is armed ends

  /** A socket that can be written again and again, and takes so many bytes each time. */
  function Takings(ns: seq<nat>): seq<Op> {
    if ns == [] then [] else [ReadyOp(Takes(ns[0]))] + Takings(ns[1..])
  }

  lemma {:induction false} NothingArmed(st: St, ns: seq<nat>, fin: seq<Act>)
    requires st.armed == None && |st.accepted| <= |st.pushed|
    ensures AllFit(st, Takings(ns), fin) && AfterAll(st, Takings(ns), fin) == st
    decreases |ns|
  {
    if ns != [] {
      assert Takings(ns)[1..] == Takings(ns[1..]);
      NothingArmed(st, ns[1..], fin);
    }
  }

  /** A write that is armed succeeds, with all the bytes pushed and in their order, when the socket takes at
      least one byte each time and can be written often enough. */
  lemma {:induction false} ArmedWriteSucceeds(st: St, ns: seq<nat>, fin: seq<Act>)
    requires st.armed.Some? && st.accepted <= st.pushed
    requires |ns| > |st.pushed| - |st.accepted| && forall n | n in ns :: n > 0
    ensures AllFit(st, Takings(ns), fin)
    ensures var e := AfterAll(st, Takings(ns), fin);
      e.accepted == st.pushed && e.sent == st.pushed && st.calls + [Call(st.armed.value.ticket, Success)] <= e.calls
    decreases |ns|
  {
    hide Body, Finish;
    assert Takings(ns)[0] == ReadyOp(Takes(ns[0])) && Takings(ns)[1..] == Takings(ns[1..]);
    var t := Ready(st, Takes(ns[0]), fin);
    var unread := st.pushed[|st.accepted|..];
    if unread == [] {
      assert st.accepted == st.pushed;
      SuccessNow(st, Takes(ns[0]), fin);
      NothingArmed(t, ns[1..], fin);
    } else {
      assert ns[0] in ns;
      forall n | n in ns[1..] ensures n > 0 { assert n in ns; }
      TakesNext(st, ns[0], fin);
      ArmedWriteSucceeds(t, ns[1..], fin);
    }
  }

  lemma SuccessNow(st: St, result: SocketResult, fin: seq<Act>)
    requires st.armed.Some? && st.accepted == st.pushed
    ensures var t := Ready(st, result, fin);
      && t.armed == None && t.accepted == st.pushed <= t.pushed && t.sent == st.pushed
      && st.calls + [Call(st.armed.value.ticket, Success)] <= t.calls
  {
    hide Body, Finish;
    var s, a := st.armed.value, st.(armed := None, writeDone := true);
    BodyIs(Called(a.(sent := st.pushed), s, Success), s.handler.body, 0, fin);
  }

  /** The socket gets the next bytes in the order of the pushes, as many as it takes, up to 1024. */
  lemma TakesNext(st: St, n: nat, fin: seq<Act>)
    requires st.armed.Some? && st.accepted <= st.pushed && st.accepted != st.pushed
    ensures var t := Ready(st, Takes(n), fin);
      && t.accepted <= t.pushed == st.pushed && t.armed == st.armed && t.calls == st.calls
      && |t.accepted| - |st.accepted| == Min(n, Min(1024, |st.pushed| - |st.accepted|))
  {
  }

  /** A first write of a cycle that is done, with nothing to send. */
  lemma FirstWriteDone(h: Handler, fin: seq<Act>)
    requires h.body == []
    ensures Fired(Written(Start, h, fin)) == Start.(given := [h], armed := Some(Stored(0, h)))
    ensures Ready(Fired(Written(Start, h, fin)), Takes(0), fin) == Start.(given := [h], writeDone := true, calls := [Call(0, Success)])
  {
  }

  /** If the connection finishes with a second write of the cycle armed, its handler is not called. */
  lemma SecondWriteLost(h: Handler, last: Msg, fin: seq<Act>)
    requires h.body == []
    ensures var st := Fired(Written(Start.(given := [h], writeDone := true, calls := [Call(0, Success)]), h, fin));
      var e := Finish(st, last, fin);
      e.finished && |e.given| == 2 && e.gone == {1} && e.calls == [Call(0, Success)]
  {
    var st := Fired(Written(Start.(given := [h], writeDone := true, calls := [Call(0, Success)]), h, fin));
    FinishIsFinishing(st, last, fin);
  }

  /** A write that is still queued at a reset counts in the cycle after it: if another one is begun there,
      and armed when the first is done, its handler can be lost. */
  lemma QueuedOverReset(h: Handler, last: Msg, fin: seq<Act>)
    requires h.body == []
    ensures var first := Ready(Fired(Reset(Written(Start, h, fin))), Takes(0), fin);
      var e := Finish(Fired(Written(first, h, fin)), last, fin);
      Fit(Written(Start, h, fin), ResetOp) && e.gone == {1} && e.calls == [Call(0, Success)]
  {
    hide Finish;
    var first := Ready(Fired(Reset(Written(Start, h, fin))), Takes(0), fin);
    assert first == Start.(given := [h], writeDone := true, calls := [Call(0, Success)], size := 0);
    FinishIsFinishing(Fired(Written(first, h, fin)), last, fin);
  }
}
