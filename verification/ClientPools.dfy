/** `ClientPool`: a fixed number of connections, each connecting, idle, or checked out by a caller. */
module ClientPools {
  import opened Options

  /** `hasEvent` is false once `Finish` has dropped the event of the socket for good. */
  datatype Connection = Connection(finished: bool, hasEvent: bool)

  class Client {
    var connection: Option<Connection>

    constructor ()
      ensures connection == None
    {
      connection := None;
    }

    ghost predicate Live()
      reads this
    {
      connection == Some(Connection(false, true))
    }

    ghost predicate Dead()
      reads this
    {
      connection == Some(Connection(true, false))
    }

    /** `Finish` of the connection; `call` says whether the disconnected handler is called next. */
    method Finish() returns (call: bool)
      requires connection.Some?
      modifies this
      ensures call == !old(connection.value.finished)
      ensures connection == if call then Some(Connection(true, false)) else old(connection)
    {
      call := !connection.value.finished;
      if call {
        connection := Some(Connection(true, false));
      }
    }

    method Reset()
      requires connection.Some?
      modifies this
      ensures connection == Some(Connection(false, old(connection.value.hasEvent)))
    {
      connection := Some(Connection(false, connection.value.hasEvent));
    }
  }

  class ClientPool {
    const maxSize: nat
    var inited: bool
    var clients: set<Client>
    var allClients: set<Client>
    /** Clients that callers hold: those whose connection is counted by the pool, and those whose
        connection has finished and has been replaced. */
    ghost var checkedOut: set<Client>
    ghost var replaced: set<Client>

    ghost function Connecting(): set<Client>
      reads this
    {
      allClients - clients - checkedOut
    }

    /** The pool counts exactly `maxSize` clients; each is either connecting, or idle with a live
        connection, or checked out with a live connection. */
    ghost predicate Valid()
      reads this, allClients, replaced
    {
      && Counted()
      && (forall c | c in clients :: c.Live())
      && (forall c | c in checkedOut :: c.Live())
      && (forall c | c in Connecting() :: c.connection == None)
      && (forall c | c in replaced :: c.Dead())
    }

    ghost predicate Counted()
      reads this
    {
      && |allClients| == (if inited then maxSize else 0)
      && clients <= allClients && checkedOut <= allClients && clients !! checkedOut
      && replaced !! allClients
    }

    constructor (maxSize: nat)
      ensures Valid() && this.maxSize == maxSize && !inited && checkedOut == {} && replaced == {} && allClients == {}
    {
      this.maxSize := maxSize;
      inited, clients, allClients := false, {}, {};
      checkedOut, replaced := {}, {};
    }

    method Init() returns (errMsg: string)
      requires Valid()
      modifies this
      ensures Valid() && inited && (errMsg == "" <==> !old(inited))
      ensures checkedOut == old(checkedOut) && replaced == old(replaced) && clients == old(clients)
      ensures fresh(allClients - old(allClients))
    {
      if inited {
        return "ClientPool has been inited";
      }
      inited := true;
      errMsg := "";
      for i := 0 to maxSize
        invariant |allClients| == i && clients == {} && checkedOut == {} && inited
        invariant replaced == old(replaced) && fresh(allClients)
        invariant forall c | c in allClients :: c.connection == None
        invariant unchanged(replaced)
      {
        var c := InitClient();
      }
    }

    /** A new client that begins to connect. Connecting itself reports nothing: the outcome comes
        later, as one call of the connected or of the disconnected handler. */
    method InitClient() returns (client: Client)
      modifies `allClients
      ensures fresh(client) && client.connection == None && allClients == old(allClients) + {client}
      ensures client !in old(allClients)
    {
      client := new Client();
      allClients := allClients + {client};
    }

    /** The connected handler of a client that was connecting. */
    method Connected(client: Client)
      requires Valid() && client in Connecting()
      modifies this, client
      ensures Valid() && clients == old(clients) + {client} && client.Live()
      ensures allClients == old(allClients) && checkedOut == old(checkedOut) && replaced == old(replaced) && inited == old(inited)
    {
      client.connection := Some(Connection(false, true));
      client.Reset();
      clients := clients + {client};
    }

    /** The disconnected handler: on an error the client is replaced. */
    method Disconnected(client: Client, errMsg: string) returns (ghost fresher: Client?)
      modifies this
      ensures inited == old(inited)
      ensures errMsg == "" ==> unchanged(this)
      ensures errMsg != "" ==> fresher != null && fresh(fresher) && fresher.connection == None
      ensures errMsg != "" ==> clients == old(clients) - {client} && checkedOut == old(checkedOut) - {client}
      ensures errMsg != "" ==> allClients == old(allClients) + {fresher} - {client}
      ensures errMsg != "" ==> replaced == old(replaced) + if client in old(checkedOut) then {client} else {}
    {
      fresher := null;
      if errMsg == "" {
        return;
      }
      fresher := InitClient();
      clients := clients - {client};
      allClients := allClients - {client};
      if client in checkedOut {
        checkedOut, replaced := checkedOut - {client}, replaced + {client};
      }
    }

    /** A connection attempt fails: the disconnected handler gets the reason. */
    method ConnectFailed(client: Client, errMsg: string)
      requires Valid() && client in Connecting() && errMsg != ""
      modifies this
      ensures Valid() && client !in allClients && clients == old(clients) && fresh(allClients - old(allClients))
      ensures checkedOut == old(checkedOut) && replaced == old(replaced) && inited == old(inited)
    {
      ghost var fresher := Disconnected(client, errMsg);
      SameNumber(old(allClients), client, fresher);
    }

    /** Fails exactly when nobody is idle. */
    method Get() returns (client: Client?)
      modifies `clients, `checkedOut
      ensures client == null <==> old(clients) == {}
      ensures client == null ==> clients == old(clients) && checkedOut == old(checkedOut)
      ensures client != null ==> client in old(clients)
      ensures client != null ==> clients == old(clients) - {client} && checkedOut == old(checkedOut) + {client}
      ensures old(Valid()) ==> Valid() && (client != null ==> client.Live())
    {
      if clients == {} {
        return null;
      }
      var c :| c in clients;
      clients := clients - {c};
      checkedOut := checkedOut + {c};
      client := c;
    }

    /** A caller gives a client back. Without an error the pool stays sound exactly if the
        connection of the client is live at that time. */
    method Insert(client: Client, errMsg: string)
      requires Valid() && client in checkedOut + replaced
      modifies this, client
      ensures errMsg != "" || old(client.Live()) <==> Valid()
      ensures inited == old(inited)
      ensures errMsg == "" ==> clients == old(clients) + {client} && allClients == old(allClients)
      ensures errMsg == "" ==> client.connection == Some(Connection(false, old(client.connection.value.hasEvent)))
      ensures errMsg != "" && old(client.Live()) ==> client in replaced && client !in allClients && fresh(allClients - old(allClients))
      ensures errMsg != "" && !old(client.Live()) ==> unchanged(this) && client.connection == old(client.connection)
      ensures checkedOut == if errMsg == "" || old(client.Live()) then old(checkedOut) - {client} else old(checkedOut)
      ensures replaced == if errMsg != "" && old(client.Live()) then old(replaced) + {client} else old(replaced)
    {
      if errMsg != "" {
        CloseConnection(client, errMsg);
        return;
      }
      client.Reset();
      clients := clients + {client};
      checkedOut := checkedOut - {client};
    }

    /** The connection of an idle or checked-out client finishes, because its peer closes it, or
        because of an error, or because its holder says so. The pool stays sound exactly if
        there is an error message, for else nothing replaces the connection. */
    method CloseConnection(client: Client, errMsg: string)
      requires Valid() && client in clients + checkedOut + replaced
      modifies this, client
      ensures errMsg != "" || !old(client.Live()) <==> Valid()
      ensures client.Dead() && inited == old(inited)
      ensures !old(client.Live()) ==> unchanged(this) && client.connection == old(client.connection)
      ensures old(client.Live()) && errMsg == "" ==> unchanged(this)
      ensures old(client.Live()) && errMsg != "" ==> client !in allClients && fresh(allClients - old(allClients))
      ensures old(client.Live()) && errMsg != "" ==> clients == old(clients) - {client} && checkedOut == old(checkedOut) - {client}
      ensures old(client.Live()) && errMsg != "" ==> replaced == old(replaced) + if client in old(checkedOut) then {client} else {}
    {
      assert client.Live() <==> client !in replaced;
      var call := client.Finish();
      if call {
        Closed(client, errMsg);
      }
    }

    /** The finish handler of the connection hands on to the disconnected handler. */
    method Closed(client: Client, errMsg: string)
      requires client in clients + checkedOut && client.Dead() && ValidExcept(client)
      modifies this
      ensures errMsg != "" <==> Valid()
      ensures errMsg == "" ==> unchanged(this)
      ensures errMsg != "" ==> client !in allClients && fresh(allClients - old(allClients)) && inited == old(inited)
      ensures errMsg != "" ==> clients == old(clients) - {client} && checkedOut == old(checkedOut) - {client}
      ensures errMsg != "" ==> replaced == old(replaced) + if client in old(checkedOut) then {client} else {}
    {
      ghost var fresher := Disconnected(client, errMsg);
      if errMsg != "" {
        SameNumber(old(allClients), client, fresher);
      }
    }

    /** `Valid`, but for the connection of one client. */
    ghost predicate ValidExcept(client: Client)
      reads this, allClients, replaced
    {
      && Counted()
      && (forall c | c in clients && c != client :: c.Live())
      && (forall c | c in checkedOut && c != client :: c.Live())
      && (forall c | c in Connecting() && c != client :: c.connection == None)
      && (forall c | c in replaced && c != client :: c.Dead())
    }
  }

  datatype Op =
    | ConnectOp
    | FailOp(errMsg: string)
    | GetOp
    | ReturnOp(errMsg: string)
    | CloseIdleOp(errMsg: string)
    | CloseHeldOp(errMsg: string)

  predicate HasError(op: Op) {
    match op
    case FailOp(errMsg) => errMsg != ""
    case CloseIdleOp(errMsg) => errMsg != ""
    case CloseHeldOp(errMsg) => errMsg != ""
    case _ => true
  }

  /** A pool with the callers that hold its clients. */
  class Pool {
    const pool: ClientPool
    var held: set<Client>

    ghost predicate Valid()
      reads this, pool, pool.allClients, pool.replaced
    {
      pool.Valid() && pool.inited && held == pool.checkedOut + pool.replaced
    }

    constructor (maxSize: nat)
      ensures Valid() && fresh(pool) && fresh(pool.allClients) && pool.replaced == {} && pool.maxSize == maxSize
    {
      pool := new ClientPool(maxSize);
      held := {};
      new;
      var errMsg := pool.Init();
    }

    /** One thing happens to some client that it can happen to, if there is one. Connections that end
        report an error, and a caller that returns a client without an error checks that its
        connection is live. */
    method Step(op: Op)
      requires Valid() && HasError(op)
      modifies this, pool, pool.allClients, pool.replaced
      ensures Valid()
      ensures fresh(pool.allClients - old(pool.allClients)) && fresh(pool.replaced - old(pool.replaced) - old(pool.allClients))
    {
      match op {
        case ConnectOp =>
          var some := set c | c in pool.allClients && c.connection == None;
          if some != {} {
            var c :| c in some;
            assert c in pool.Connecting();
            pool.Connected(c);
          }
        case FailOp(errMsg) =>
          var some := set c | c in pool.allClients && c.connection == None;
          if some != {} {
            var c :| c in some;
            assert c in pool.Connecting();
            pool.ConnectFailed(c, errMsg);
          }
        case GetOp =>
          var c := pool.Get();
          if c != null {
            held := held + {c};
          }
        case ReturnOp(errMsg) =>
          var some := set c | c in held && (errMsg != "" || c.connection == Some(Connection(false, true)));
          if some != {} {
            var c :| c in some;
            pool.Insert(c, errMsg);
            if errMsg == "" {
              held := held - {c};
            }
          }
        case CloseIdleOp(errMsg) =>
          if pool.clients != {} {
            var c :| c in pool.clients;
            pool.CloseConnection(c, errMsg);
          }
        case CloseHeldOp(errMsg) =>
          if held != {} {
            var c :| c in held;
            pool.CloseConnection(c, errMsg);
          }
      }
    }
  }

  /** After any run, the pool counts exactly as many clients as it was made for, each of them
      connecting, idle or checked out, and every connection it would hand out is live. */
  method RunPool(maxSize: nat, ops: seq<Op>) returns (p: Pool)
    requires forall i | 0 <= i < |ops| :: HasError(ops[i])
    ensures p.Valid() && |p.pool.allClients| == maxSize
    ensures |p.pool.Connecting()| + |p.pool.clients| + |p.pool.checkedOut| == maxSize
    ensures forall c | c in p.pool.clients :: c.Live()
  {
    p := new Pool(maxSize);
    for i := 0 to |ops|
      invariant p.Valid() && p.pool.maxSize == maxSize
      invariant fresh(p) && fresh(p.pool) && fresh(p.pool.allClients) && fresh(p.pool.replaced)
    {
      p.Step(ops[i]);
    }
    ThreeParts(p.pool.allClients, p.pool.clients, p.pool.checkedOut);
  }

  lemma ThreeParts<T>(all: set<T>, a: set<T>, b: set<T>)
    requires a <= all && b <= all && a !! b
    ensures |all - a - b| + |a| + |b| == |all|
  {
    assert all == (all - a - b) + (a + b);
  }

  /** The pool grows when a caller gives back, without an error, a client whose connection had
      finished meanwhile: it is handed out again, and a second error replaces it a second time. */
  method DeadReturnGrowsPool(pool: ClientPool, client: Client)
    requires pool.Valid() && pool.inited && pool.clients == {} && client in pool.checkedOut
    modifies pool, client
    ensures |pool.allClients| == pool.maxSize + 1
  {
    pool.CloseConnection(client, "closed by peer");
    ReturnDead(pool, client);
  }

  method ReturnDead(pool: ClientPool, client: Client)
    requires pool.Valid() && pool.clients == {} && client in pool.replaced
    modifies pool, client
    ensures |pool.allClients| == |old(pool.allClients)| + 1
  {
    pool.Insert(client, "");
    hide ClientPool.Valid;
    var again := pool.Get();
    FinishAgain(pool, client);
  }

  method FinishAgain(pool: ClientPool, client: Client)
    requires client !in pool.allClients && client.connection.Some? && !client.connection.value.finished
    modifies pool, client
    ensures |pool.allClients| == |old(pool.allClients)| + 1
  {
    var call := client.Finish();
    ghost var fresher := pool.Disconnected(client, "failed");
    assert pool.allClients == old(pool.allClients) + {fresher};
  }

  lemma SameNumber<T>(before: set<T>, x: T, y: T)
    requires x in before && y !in before
    ensures |before + {y} - {x}| == |before|
  {
    assert before + {y} - {x} == before - {x} + {y};
  }
}
