/** The pollers of an event loop, as one set of registered events. */
module Registries {
  import opened Sequences
  import opened IntrusiveList
  import TP = TimerPollers
  import AP = AsyncerPollers

  /** The poller an event belongs to, with the time for one in the timer poller. */
  datatype Kind = Timed(at: int) | Posted

  datatype Reg = Reg(id: nat, kind: Kind)

  predicate IsDue(k: Kind, timers: bool, now: int) {
    if timers then k.Timed? && k.at <= now else k.Posted?
  }

  class Registry {
    const timers: TP.TimerPoller
    const asyncers: AP.AsyncerPoller
    ghost var registered: set<Reg>

    /** Each poller holds exactly the registered events of its kind. */
    ghost predicate Valid()
      reads this, timers, asyncers, Nodes()
    {
      && timers.Valid() && asyncers.Valid()
      && (forall e | e in timers.registered :: e.id >= 0 && Reg(e.id, Timed(e.fd)) in registered)
      && (forall id | id in asyncers.eventMap :: id >= 0 && Reg(id, Posted) in registered)
      && (forall r | r in registered :: Held(r))
    }

    ghost predicate Held(r: Reg)
      reads timers, asyncers
    {
      if r.kind.Timed? then TP.Event(r.id, r.kind.at) in timers.registered else r.id in asyncers.eventMap
    }

    /** The nodes of the list of the asyncer poller. */
    ghost function Nodes(): set<Node>
      reads this, asyncers
    {
      asyncers.Repr()
    }

    /** The poller and the time of an event never change. */
    ghost predicate Knows(r: Reg)
      reads this
    {
      forall q | q in registered && q.id == r.id :: q == r
    }

    constructor ()
      ensures Valid() && registered == {} && fresh(timers) && fresh(asyncers) && fresh(Nodes())
    {
      timers := new TP.TimerPoller();
      asyncers := new AP.AsyncerPoller();
      registered := {};
    }

    method UpdateEvent(r: Reg)
      requires Valid() && Knows(r)
      modifies this, timers, asyncers, Nodes()
      ensures Valid() && registered == old(registered) + {r} && fresh(Nodes() - old(Nodes()))
    {
      match r.kind {
        case Timed(at) => UpdateTimer(r);
        case Posted => UpdateAsyncer(r);
      }
    }

    method RemoveEvent(r: Reg)
      requires Valid() && Knows(r)
      modifies this, timers, asyncers, Nodes()
      ensures Valid() && registered == old(registered) - {r} && fresh(Nodes() - old(Nodes()))
    {
      match r.kind {
        case Timed(at) => RemoveTimer(r);
        case Posted => RemoveAsyncer(r);
      }
    }

    method UpdateTimer(r: Reg)
      requires Valid() && Knows(r) && r.kind.Timed?
      modifies this, timers
      ensures Valid() && registered == old(registered) + {r}
    {
      timers.UpdateEvent(TP.Event(r.id, r.kind.at));
      registered := registered + {r};
    }

    method UpdateAsyncer(r: Reg)
      requires Valid() && Knows(r) && r.kind.Posted?
      modifies this, asyncers, Nodes()
      ensures Valid() && registered == old(registered) + {r} && fresh(Nodes() - old(Nodes()))
    {
      asyncers.UpdateEvent(r.id);
      registered := registered + {r};
    }

    method RemoveTimer(r: Reg)
      requires Valid() && Knows(r) && r.kind.Timed?
      modifies this, timers
      ensures Valid() && registered == old(registered) - {r}
    {
      timers.RemoveEvent(TP.Event(r.id, r.kind.at));
      registered := registered - {r};
    }

    method RemoveAsyncer(r: Reg)
      requires Valid() && Knows(r) && r.kind.Posted?
      modifies this, asyncers, Nodes()
      ensures Valid() && registered == old(registered) - {r} && Nodes() <= old(Nodes())
    {
      asyncers.RemoveEvent(r.id);
      registered := registered - {r};
    }

    /** The events come by their time and, within a time, by their id. */
    ghost predicate ByTime(due: seq<nat>)
      reads this
    {
      forall i, j | 0 <= i < j < |due| :: Earlier(due[i], due[j])
    }

    ghost predicate Earlier(c: nat, d: nat)
      reads this
    {
      exists a, b :: Reg(c, Timed(a)) in registered && Reg(d, Timed(b)) in registered && (a < b || (a == b && c < d))
    }

    /** The events come in the order of their last update. */
    ghost predicate ByUpdate(due: seq<nat>)
      reads this, asyncers, Nodes()
    {
      forall i, j | 0 <= i < j < |due| :: Precedes(asyncers.Order(), due[i] as int, due[j] as int)
    }

    /** The ids of the registered events that still exist and are due, from one poller. */
    method Poll(fromTimers: bool, now: int, alive: set<int>) returns (due: seq<nat>)
      requires Valid()
      ensures NoDup(due)
      ensures forall id: nat :: id in due <==> id in alive && exists r | r in registered :: r.id == id && IsDue(r.kind, fromTimers, now)
      ensures if fromTimers then ByTime(due) else ByUpdate(due)
    {
      if fromTimers {
        due := PollTimers(now, alive);
      } else {
        due := PollAsyncers(alive);
      }
    }

    method PollTimers(now: int, alive: set<int>) returns (due: seq<nat>)
      requires Valid()
      ensures NoDup(due)
      ensures forall id: nat :: id in due <==> id in alive && exists r | r in registered :: r.id == id && IsDue(r.kind, true, now)
      ensures ByTime(due)
    {
      var events := timers.Poll(now, alive);
      due := [];
      for i := 0 to |events|
        invariant |due| == i && forall j | 0 <= j < i :: due[j] == events[j].id
      {
        assert events[i] in events;
        due := due + [events[i].id];
      }
      forall i, j | 0 <= i < j < |due| ensures Earlier(due[i], due[j]) {
        assert events[i] in events && events[j] in events && TP.Before(events[i], events[j]);
        assert Reg(due[i], Timed(events[i].fd)) in registered && Reg(due[j], Timed(events[j].fd)) in registered;
      }
      forall id: nat ensures id in due <==> id in alive && exists r | r in registered :: r.id == id && IsDue(r.kind, true, now) {
        if id in due {
          var j :| 0 <= j < |due| && due[j] == id;
          assert events[j] in events && Reg(id, Timed(events[j].fd)) in registered;
        }
        if r :| r in registered && r.id == id && IsDue(r.kind, true, now) && id in alive {
          assert Held(r);
          var e := TP.Event(id, r.kind.at);
          assert e in events;
          var j :| 0 <= j < |events| && events[j] == e;
          assert due[j] == id;
        }
      }
    }

    method PollAsyncers(alive: set<int>) returns (due: seq<nat>)
      requires Valid()
      ensures NoDup(due)
      ensures forall id: nat :: id in due <==> id in alive && exists r | r in registered :: r.id == id && IsDue(r.kind, false, 0)
      ensures ByUpdate(due)
    {
      var ids := asyncers.Poll(alive);
      due := [];
      for i := 0 to |ids|
        invariant |due| == i && forall j | 0 <= j < i :: due[j] == ids[j]
      {
        assert ids[i] in ids;
        due := due + [ids[i]];
      }
    }
  }
}
