/** The write path of `TcpConnection`: `AsyncWrite`, the write event, `Finish` and `Reset`. */
module TcpWrites {
  import opened Options
  import opened Handlers
  import opened Buffers
  import opened WriteStates
  import Asyncers

  datatype WriteEvent = WriteEvent(writeNotify: bool)

  class TcpConnection {
    const writeBuffer: Buffer
    const finishHandler: Handler
    var finished: bool
    var writeDone: bool
    var userWriteHandler: Option<Stored>
    /** What the lambda given to the asyncer has captured. */
    var posted: Option<Stored>
    var event: Option<WriteEvent>
    var asyncer: Asyncers.Asyncer?
    /** How many write handlers have been passed in; the calls of write handlers, by their number, and
        of the finish handler; the bytes the socket has accepted since the last `Reset`. */
    var writes: nat
    var calls: seq<Call>
    var finishCalls: seq<Msg>
    var accepted: seq<Byte>
    ghost var given: seq<Handler>
    ghost var queued: Option<Stored>
    ghost var armed: Option<Stored>
    ghost var gone: set<nat>
    ghost var sent: seq<Byte>
    /** `Finish` has begun, and not called the finish handler yet. */
    ghost var finishing: bool
    /** A failed write has put the read index of the buffer where no byte is. */
    ghost var derailed: bool

    ghost function State(): St
      reads this, writeBuffer
    {
      St(finished, writeDone, given, queued, armed, gone, calls, finishCalls,
         writeBuffer.pushed, |writeBuffer.buffer|, accepted, sent)
    }

    ghost predicate WriteRegistered()
      reads this
    {
      event.Some? && event.value.writeNotify
    }

    /** What holds also while a handler is being called. */
    ghost predicate Inner()
      reads this, writeBuffer, asyncer
    {
      Buffering() && Linked() && (finished && !finishing ==> queued == None && armed == None && event == None)
    }

    /** The buffer, and what the socket got of it. */
    ghost predicate Buffering()
      reads this, writeBuffer
    {
      && writeBuffer.Writable() && (derailed || writeBuffer.Valid())
      && accepted == writeBuffer.popped && accepted <= writeBuffer.pushed
      && (derailed ==> armed == None)
    }

    /** Flags, handlers, events and asyncer agree with what is queued and armed. */
    ghost predicate Linked()
      reads this, asyncer
    {
      LinkedWhen(queued.Some?)
    }

    /** The same, where the asyncer has still to run or not. */
    ghost predicate LinkedWhen(waiting: bool)
      reads this, asyncer
    {
      && |given| == writes && (event == None ==> finished) && (finishing ==> finished)
      && (asyncer == null ==> queued == None)
      && (asyncer != null ==> asyncer.Valid() && (asyncer.stage.Queued? <==> waiting))
      && (queued.Some? ==> posted == queued)
      && (armed.Some? ==> userWriteHandler == armed && WriteRegistered())
      && (userWriteHandler.Some? && !writeDone ==> armed == userWriteHandler)
    }

    /** Between operations: the write event is registered exactly while a write is armed. */
    ghost predicate Valid()
      reads this, writeBuffer, asyncer
    {
      Inner() && !finishing && (derailed ==> finished) && (WriteRegistered() <==> armed.Some?)
    }

    constructor (finishHandler: Handler)
      ensures Valid() && State() == WriteStates.Start && this.finishHandler == finishHandler
      ensures fresh(writeBuffer) && asyncer == null
    {
      this.finishHandler := finishHandler;
      writeBuffer := new Buffer();
      finished, writeDone, userWriteHandler, posted := false, false, None, None;
      event, asyncer := Some(WriteEvent(false)), null;
      writes, calls, finishCalls, accepted := 0, [], [], [];
      given, queued, armed, gone, sent := [], None, None, {}, [];
      finishing, derailed := false, false;
    }

    method WriteBufferPush(data: seq<Byte>) returns (ok: bool)
      requires Inner()
      modifies writeBuffer
      ensures Inner() && State() == Pushed(old(State()), data)
      ensures ok == (|old(writeBuffer.buffer)| + |data| < MaxSize)
    {
      ok := writeBuffer.Push(data);
    }

    /** The operations that a handler makes while it is called. */
    method RunBody(h: Handler)
      requires Inner()
      modifies this, writeBuffer, asyncer
      ensures Inner() && State() == Body(old(State()), h.body, 0, finishHandler.body)
      ensures finishing == old(finishing) && asyncer == old(asyncer) && derailed == old(derailed)
      ensures finished == old(finished) ==> event == old(event) && userWriteHandler == old(userWriteHandler)
      ensures asyncer != null && old(asyncer.stage.Fresh?) ==> asyncer.stage.Fresh?
      decreases if finished then 0 else 1, 1
    {
      hide Buffering, Linked, State;
      for i := 0 to |h.body|
        invariant Inner() && Body(State(), h.body, i, finishHandler.body) == Body(old(State()), h.body, 0, finishHandler.body)
        invariant finishing == old(finishing) && asyncer == old(asyncer) && derailed == old(derailed)
        invariant old(finished) ==> finished
        invariant asyncer != null && old(asyncer.stage.Fresh?) ==> asyncer.stage.Fresh?
        invariant finished == old(finished) ==> event == old(event) && userWriteHandler == old(userWriteHandler)
      {
        match h.body[i] {
          case PushAct(data) => var ok := WriteBufferPush(data);
          case FinishAct(errMsg) => Finish(errMsg);
        }
      }
    }

    /** The first call finishes the connection and calls what has still to be called; a call while
        the first one is under way, or later, changes nothing. */
    method Finish(errMsg: Msg)
      requires Inner()
      modifies this, writeBuffer, asyncer
      ensures Inner() && State() == WriteStates.Finish(old(State()), errMsg, finishHandler.body)
      ensures finished && finishing == old(finishing) && asyncer == old(asyncer) && derailed == old(derailed)
      ensures old(finished) ==> unchanged(this) && unchanged(writeBuffer)
      ensures asyncer != null && old(asyncer.stage.Fresh?) ==> asyncer.stage.Fresh?
      decreases if finished then 0 else 1, 0
    {
      hide Buffering, Linked;
      if finished {
        return;
      }
      BeginFinish();
      EndsClear(State(), finishHandler.body);
      EndsClear(EndQueued(State(), finishHandler.body), finishHandler.body);
      CancelAsyncer();
      FinishArmed();
      Close(errMsg);
      RunBody(finishHandler);
    }

    method BeginFinish()
      requires Inner() && !finished
      modifies `finished, `finishing
      ensures Inner() && finished && finishing && !old(finishing) && State() == old(State()).(finished := true)
    {
      hide Buffer.Valid;
      finished, finishing := true, true;
    }

    method Close(errMsg: Msg)
      requires Inner() && finished && finishing && queued == None && armed == None
      modifies `event, `finishing, `finishCalls
      ensures Inner() && finished && !finishing && State() == old(State()).(finishCalls := old(finishCalls) + [errMsg])
    {
      hide Buffer.Valid;
      event := None;
      finishing := false;
      finishCalls := finishCalls + [errMsg];
    }

    /** `asyncer_->Cancel()`, and the lambda given to the asyncer if it is called with an error. */
    method CancelAsyncer()
      requires Inner() && finished && finishing
      modifies this, writeBuffer, asyncer
      ensures Inner() && finished && finishing && State() == EndQueued(old(State()), finishHandler.body)
      ensures asyncer == old(asyncer) && derailed == old(derailed)
      ensures asyncer != null && old(asyncer.stage.Fresh?) ==> asyncer.stage.Fresh?
      decreases 0, 3
    {
      if asyncer != null {
        var due := asyncer.Cancel();
        if due.Some? {
          queued := None;
          CallHandler(posted.value, due.value.msg);
        }
      }
    }

    /** The armed write: its handler is called, or it is gone if `writeDone` stands already. */
    method FinishArmed()
      requires Inner() && finished && finishing
      modifies this, writeBuffer, asyncer
      ensures Inner() && finished && finishing && State() == EndArmed(old(State()), finishHandler.body)
      ensures asyncer == old(asyncer) && derailed == old(derailed)
      ensures asyncer != null && old(asyncer.stage.Fresh?) ==> asyncer.stage.Fresh?
      decreases 0, 3
    {
      if !writeDone && userWriteHandler.Some? {
        writeDone := true;
        armed := None;
        CallHandler(userWriteHandler.value, Finished);
      } else if armed.Some? {
        gone := gone + {armed.value.ticket};
        armed := None;
      }
    }

    /** The call of a write handler is entered in the record, and made. */
    method CallHandler(s: Stored, msg: Msg)
      requires Inner()
      modifies this, writeBuffer, asyncer
      ensures Inner() && State() == Body(Called(old(State()), s, msg), s.handler.body, 0, finishHandler.body)
      ensures finishing == old(finishing) && asyncer == old(asyncer) && derailed == old(derailed)
      ensures finished == old(finished) ==> event == old(event) && userWriteHandler == old(userWriteHandler)
      ensures asyncer != null && old(asyncer.stage.Fresh?) ==> asyncer.stage.Fresh?
      decreases if finished then 0 else 1, 2
    {
      hide Buffer.Valid, Body;
      calls := calls + [Call(s.ticket, msg)];
      RunBody(s.handler);
    }

    /** All is well afterwards exactly if no write is canceled whose handler finishes the connection. */
    method AsyncWrite(h: Handler)
      requires Valid()
      modifies this, writeBuffer, asyncer
      ensures Valid() <==> Fit(old(State()), WriteOp(h))
      ensures State() == Written(old(State()), h, finishHandler.body)
      ensures asyncer == old(asyncer) || fresh(asyncer)
    {
      hide Body, Buffering, Linked;
      if finished {
        Refuse(h);
      } else {
        QueuedMayFinish(h);
        var s := Stored(writes, h);
        Take(h);
        ReplaceAsyncer();
        Post(s);
      }
    }

    /** The connection keeps the number of the handler. */
    method Take(h: Handler)
      requires Valid()
      modifies `writes, `given
      ensures Valid() && writes == old(writes) + 1 && State() == old(State()).(given := old(given) + [h])
      ensures old(writes) == |old(given)|
    {
      hide Buffer.Valid;
      writes, given := writes + 1, given + [h];
    }

    method Refuse(h: Handler)
      requires Valid() && finished
      modifies this, writeBuffer, asyncer
      ensures Valid() && State() == Written(old(State()), h, finishHandler.body) && asyncer == old(asyncer)
    {
      hide Body, Buffering, Linked;
      Take(h);
      CallHandler(Stored(writes - 1, h), Finished);
    }

    method Post(s: Stored)
      requires Inner() && !finishing && queued == None && asyncer != null && asyncer.stage.Fresh? && !derailed
      requires !finished ==> (WriteRegistered() <==> armed.Some?)
      modifies `posted, `queued, asyncer
      ensures (Valid() <==> !finished) && State() == old(State()).(queued := Some(s))
    {
      hide Buffer.Valid;
      var due := asyncer.AsyncDo();
      posted, queued := Some(s), Some(s);
    }

    lemma QueuedMayFinish(h: Handler)
      requires Valid() && !finished
      ensures Fit(State(), WriteOp(h)) <==> queued == None || !Finishes(queued.value.handler)
    {
    }

    /** A new asyncer takes the place of the old one, whose destruction calls a handler it still holds. */
    method ReplaceAsyncer()
      requires Inner() && !finished
      modifies this, writeBuffer, asyncer
      ensures Inner() && finishing == old(finishing) && fresh(asyncer) && asyncer.stage.Fresh? && derailed == old(derailed)
      ensures queued == None && (!finished ==> event == old(event) && armed == old(armed))
      ensures finished == (old(queued).Some? && Finishes(old(queued).value.handler))
      ensures State() == if old(queued) == None then old(State())
        else Body(Called(old(State()).(queued := None), old(queued).value, AsyncerCanceled), old(queued).value.handler.body, 0, finishHandler.body)
    {
      hide Body, Buffer.Valid;
      ghost var st, q := State(), queued;
      var replaced := asyncer;
      asyncer := new Asyncers.Asyncer(false);
      queued := None;
      if replaced != null {
        var due := replaced.Destroy();
        if due.Some? {
          BodyLeaves(Called(st.(queued := None), q.value, AsyncerCanceled), q.value.handler, finishHandler.body);
          CallHandler(posted.value, due.value.msg);
        }
      }
    }

    /** The loop runs the asyncer, if it is still registered: the write event is armed. */
    method FireAsyncer()
      requires Valid()
      modifies this, asyncer
      ensures Valid() && State() == Fired(old(State())) && asyncer == old(asyncer)
    {
      hide Buffer.Valid;
      if asyncer == null {
        return;
      }
      var due := asyncer.Fire();
      if due.Some? {
        Arm();
      }
    }

    /** The lambda given to the asyncer, without an error. */
    method Arm()
      requires Buffering() && LinkedWhen(false) && queued.Some? && !finished && !finishing && !derailed
      requires WriteRegistered() <==> armed.Some?
      modifies `gone, `queued, `armed, `userWriteHandler, `event
      ensures Valid() && State() == Fired(old(State()))
    {
      hide Buffer.Valid, Asyncers.Asyncer.Valid;
      gone := gone + if armed.Some? then {armed.value.ticket} else {};
      queued, armed := None, queued;
      userWriteHandler := posted;
      event := Some(WriteEvent(true));
    }

    /** The loop finds the socket writable and runs the write event, if it is registered. Success is
        reported when nothing is left to write; what the socket accepts is what comes next in the
        order of the pushes. All is well afterwards exactly if the socket was not asked in vain: a
        count of -1 without an error moves the read index back. */
    method WriteReady(result: SocketResult)
      requires Valid()
      modifies this, writeBuffer, asyncer
      ensures Valid() <==> Fit(old(State()), ReadyOp(result))
      ensures State() == Ready(old(State()), result, finishHandler.body) && asyncer == old(asyncer)
      ensures !Fit(old(State()), ReadyOp(result)) ==> writeBuffer.readIndex == Add64(old(writeBuffer.readIndex), AsUnsigned(-1))
    {
      hide Body, WriteStates.Finish, Linked;
      if !(event.Some? && event.value.writeNotify) {
        return;
      }
      ArmedIsStored();
      var buf := new Byte[1024](_ => 0);
      var count := writeBuffer.Read(buf, 1024);
      if count == 0 {
        Succeed();
        return;
      }
      match result {
        case Takes(n) => Accept(buf, Min(n, count));
        case Fails(text) => Fail(text);
        case Again => StepBack();
      }
    }

    lemma ArmedIsStored()
      requires Valid() && armed.Some?
      ensures userWriteHandler == armed && !derailed && writeBuffer.Unread() == State().pushed[|accepted|..]
    {
    }

    method Succeed()
      requires Valid() && armed.Some? && userWriteHandler == armed && writeBuffer.Unread() == []
      modifies this, writeBuffer, asyncer
      ensures Valid() && asyncer == old(asyncer)
      ensures State() == Body(Called(old(State()).(armed := None, writeDone := true, sent := old(writeBuffer.pushed)), old(armed).value, Success),
        old(armed).value.handler.body, 0, finishHandler.body)
    {
      hide Body, Buffer.Valid;
      ghost var st := State();
      writeDone := true;
      event := Some(WriteEvent(false));
      armed, sent := None, writeBuffer.pushed;
      BodyLoses(Called(State(), st.armed.value, Success), st.armed.value.handler.body, finishHandler.body);
      CallHandler(userWriteHandler.value, Success);
    }

    /** A count of -1 without an error: the last byte written is unread once more, or the index is out
        of range. */
    method StepBack()
      requires Valid() && armed.Some? && !derailed && |writeBuffer.Unread()| > 0
      modifies writeBuffer
      ensures !Valid() && State() == old(State())
      ensures writeBuffer.readIndex == Add64(old(writeBuffer.readIndex), AsUnsigned(-1))
    {
      ghost var before := |writeBuffer.Unread()|;
      AdvanceFollowsCount(writeBuffer.readIndex, writeBuffer.writeIndex, -1);
      var r := writeBuffer.UpdateReadIndex(AsUnsigned(-1));
      if writeBuffer.InRange() {
        assert |writeBuffer.Unread()| == before + 1;
      }
    }

    method Accept(buf: array<Byte>, count: nat)
      requires Valid() && armed.Some? && !derailed && count <= buf.Length && count <= |writeBuffer.Unread()|
      requires buf[..count] == writeBuffer.Unread()[..count]
      modifies this`accepted, writeBuffer
      ensures Valid()
      ensures State() == old(State()).(accepted := old(accepted) + buf[..count],
        size := if count == |old(writeBuffer.Unread())| then 0 else |old(writeBuffer.buffer)|)
    {
      ghost var unread := writeBuffer.Unread();
      assert writeBuffer.pushed == accepted + buf[..count] + unread[count..] by {
        assert unread == buf[..count] + unread[count..];
      }
      var r := writeBuffer.UpdateReadIndex(AsUnsigned(count));
      accepted := accepted + buf[..count];
      writeBuffer.popped := accepted;
    }

    /** An error of the socket: the handler is called with it, and the connection finished. */
    method Fail(text: string)
      requires Valid() && armed.Some? && userWriteHandler == armed && !derailed && |writeBuffer.Unread()| > 0
      modifies this, writeBuffer, asyncer
      ensures Valid() && asyncer == old(asyncer)
      ensures State() == WriteStates.Finish(Body(Called(old(State()).(armed := None, writeDone := true), old(armed).value, Failed(text)),
        old(armed).value.handler.body, 0, finishHandler.body), Failed(text), finishHandler.body)
    {
      hide Body, WriteStates.Finish, Buffering, Linked;
      Derail();
      CallHandler(userWriteHandler.value, Failed(text));
      Finish(Failed(text));
    }

    /** The count of -1 is passed on before the error is looked at. */
    method Derail()
      requires Valid() && armed.Some? && !derailed && |writeBuffer.Unread()| > 0
      modifies `writeDone, `armed, `derailed, writeBuffer
      ensures Inner() && !finishing && State() == old(State()).(armed := None, writeDone := true)
    {
      var r := writeBuffer.UpdateReadIndex(AsUnsigned(-1));
      derailed := true;
      writeDone := true;
      armed := None;
    }

    /** Begins a new cycle. All is well afterwards exactly if the connection is not finished, for it
        has no event any more, and no write is armed, for its handler is dropped. */
    method Reset()
      requires Valid()
      modifies `finished, `writeDone, `userWriteHandler, `accepted, `sent, writeBuffer
      ensures Valid() <==> Fit(old(State()), ResetOp)
      ensures State() == WriteStates.Reset(old(State()))
      ensures !finished && !writeDone && userWriteHandler == None && writeBuffer.pushed == [] && accepted == []
    {
      hide Asyncers.Asyncer.Valid;
      finished, writeDone, userWriteHandler := false, false, None;
      accepted, sent := [], [];
      writeBuffer.Reset();
    }

    /** `~TcpConnection` destroys the asyncer, which reports to a handler it still holds; a handler
        that waits for the write event is dropped without a call. */
    method Destroy()
      requires Valid()
      modifies this, asyncer
      ensures event == None && State() == Destroyed(old(State()))
    {
      hide Buffer.Valid, Asyncers.Asyncer.Valid;
      if asyncer != null {
        var due := asyncer.Destroy();
        if due.Some? {
          queued := None;
          calls := calls + [Call(posted.value.ticket, due.value.msg)];
        }
      }
      event := None;
      gone, armed := gone + (if armed.Some? then {armed.value.ticket} else {}), None;
    }

    lemma AcceptedFitsPushed()
      requires Valid()
      ensures |accepted| <= |writeBuffer.pushed|
    {
    }

    /** An operation that the connection is fit for. */
    method Perform(op: WriteStates.Op)
      requires Valid() && Fit(State(), op)
      modifies this, writeBuffer, asyncer
      ensures Valid() && (asyncer == old(asyncer) || fresh(asyncer))
      ensures |old(accepted)| <= |old(writeBuffer.pushed)| && State() == After(old(State()), op, finishHandler.body)
    {
      hide Buffering, Linked, Written, Ready, WriteStates.Finish;
      AcceptedFitsPushed();
      match op {
        case WriteOp(h) => AsyncWrite(h);
        case FireOp => FireAsyncer();
        case ReadyOp(result) => WriteReady(result);
        case PushOp(data) => var ok := WriteBufferPush(data);
        case FinishOp(errMsg) => Finish(errMsg);
        case ResetOp => Reset();
      }
    }
  }

  /** Any life of a connection that it is fit for, over any number of cycles with any number of writes
      in each, ended by `Finish`: each write handler has been called exactly once, but for those an
      operation lost, which have not been called; the finish handler exactly once. The socket got a
      prefix of the bytes pushed, and all of those pushed until success was last reported. */
  method Lifetime(finishHandler: Handler, ops: seq<WriteStates.Op>, last: Msg) returns (c: TcpConnection)
    requires AllFit(WriteStates.Start, ops, finishHandler.body)
    ensures c.Inner() && c.State() == WriteStates.Finish(AfterAll(WriteStates.Start, ops, finishHandler.body), last, finishHandler.body)
    ensures forall t: nat | t < c.writes :: |CallsOf(c.calls, t)| == if t in c.gone then 0 else 1
    ensures forall t: nat | t >= c.writes :: CallsOf(c.calls, t) == []
    ensures |c.finishCalls| == 1 && c.sent <= c.accepted <= c.writeBuffer.pushed
  {
    c := new TcpConnection(finishHandler);
    for i := 0 to |ops|
      invariant c.Valid() && fresh(c) && fresh(c.writeBuffer) && (c.asyncer != null ==> fresh(c.asyncer))
      invariant c.finishHandler == finishHandler && AllFit(c.State(), ops[i..], finishHandler.body)
      invariant AfterAll(c.State(), ops[i..], finishHandler.body) == AfterAll(WriteStates.Start, ops, finishHandler.body)
    {
      assert ops[i..][1..] == ops[i + 1..];
      c.Perform(ops[i]);
    }
    c.Finish(last);
    EveryHandlerOnce(ops, last, finishHandler.body);
  }

  /** A `Reset` while a write is armed: the event stays on, and there is no handler to call. */
  method ResetDropsHandler(finishHandler: Handler, h: Handler) returns (c: TcpConnection)
    ensures !c.Valid() && c.WriteRegistered() && c.userWriteHandler == None
    ensures c.writes == 1 && c.calls == []
  {
    c := new TcpConnection(finishHandler);
    c.AsyncWrite(h);
    c.FireAsyncer();
    c.Reset();
  }

  /** A second write in a cycle is gone if the connection finishes while it is armed: `writeDone` still
      stands from the first one. */
  method SecondWriteGone(finishHandler: Handler, last: Msg) returns (c: TcpConnection)
    ensures c.finished && c.writes == 2 && c.gone == {1} && c.calls == [Call(0, Success)]
  {
    hide TcpConnection.Buffering, Written, Fired, Ready, WriteStates.Finish;
    var h := Handler([]);
    FirstWriteDone(h, finishHandler.body);
    SecondWriteLost(h, last, finishHandler.body);
    c := new TcpConnection(finishHandler);
    c.AsyncWrite(h);
    c.FireAsyncer();
    c.WriteReady(Takes(0));
    c.AsyncWrite(h);
    c.FireAsyncer();
    c.Finish(last);
  }
}
