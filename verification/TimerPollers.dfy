/** `TimerPoller`: events by time and, within a time, by id, with a set of the ids beside it. */
module TimerPollers {

  /** An event as a poller sees it; the id is its own, and `fd`, the time it is due, is fixed. */
  datatype Event = Event(id: int, fd: int)

  predicate Before(a: Event, b: Event) {
    a.fd < b.fd || (a.fd == b.fd && a.id < b.id)
  }

  ghost predicate Sorted(s: seq<Event>) {
    forall i, j | 0 <= i < j < |s| :: Before(s[i], s[j])
  }

  /** The two-level map and the set of ids are an index of the events `registered`. */
  ghost predicate Index(events: map<int, map<int, Event>>, eventSet: set<int>, registered: set<Event>) {
    && (forall e | e in registered :: Holds(events, e) && e.id in eventSet)
    && (forall t, i | t in events && i in events[t] :: events[t][i] == Event(i, t) && Event(i, t) in registered)
    && (forall t | t in events :: events[t] != map[])
    && (forall i | i in eventSet :: exists t :: Event(i, t) in registered)
    && (forall d, e | d in registered && e in registered && d.id == e.id :: d == e)
  }

  ghost predicate Holds(events: map<int, map<int, Event>>, e: Event) {
    e.fd in events && e.id in events[e.fd] && events[e.fd][e.id] == e
  }

  /** The map without one event: its bucket goes too if that was the only one in it. */
  function Erased(events: map<int, map<int, Event>>, e: Event): map<int, map<int, Event>>
    requires e.fd in events
  {
    if events[e.fd] - {e.id} == map[] then events - {e.fd} else events[e.fd := events[e.fd] - {e.id}]
  }

  lemma ErasedHolds(events: map<int, map<int, Event>>, e: Event, d: Event)
    requires e.fd in events && d.id != e.id
    ensures Holds(Erased(events, e), d) <==> Holds(events, d)
  {
    if d.fd == e.fd && Holds(events, d) { assert d.id in events[e.fd] - {e.id}; }
  }

  lemma ErasedKeepsIndex(events: map<int, map<int, Event>>, eventSet: set<int>, registered: set<Event>, e: Event)
    requires Index(events, eventSet, registered) && e in registered
    ensures Holds(events, e) && Index(Erased(events, e), eventSet - {e.id}, registered - {e})
  {
    var after := Erased(events, e);
    assert Holds(events, e);
    forall d | d in registered - {e} ensures Holds(after, d) && d.id in eventSet - {e.id} { ErasedHolds(events, e, d); }
    forall t, i | t in after && i in after[t] ensures after[t][i] == Event(i, t) && Event(i, t) in registered - {e} {
      assert t in events && i in events[t];
    }
    forall i | i in eventSet - {e.id} ensures exists t :: Event(i, t) in registered - {e} {
      var t :| Event(i, t) in registered;
      assert Event(i, t) in registered - {e};
    }
  }

  class TimerPoller {
    var events: map<int, map<int, Event>>
    var eventSet: set<int>
    /** The set of events that this index stands for. */
    ghost var registered: set<Event>

    ghost predicate Valid()
      reads this
    {
      Index(events, eventSet, registered)
    }

    /** The id of an event never stands for an event with another time. */
    ghost predicate Knows(e: Event)
      reads this
    {
      forall d | d in registered && d.id == e.id :: d == e
    }

    constructor ()
      ensures Valid() && registered == {}
    {
      events, eventSet, registered := map[], {}, {};
    }

    method UpdateEvent(event: Event)
      requires Valid() && Knows(event)
      modifies this
      ensures Valid() && registered == old(registered) + {event}
      decreases event.id in eventSet
    {
      if event.id !in eventSet {
        Add(event);
        return;
      }
      RemoveEvent(event);
      UpdateEvent(event);
    }

    method Add(event: Event)
      requires Valid() && event.id !in eventSet
      modifies this
      ensures Valid() && registered == old(registered) + {event}
    {
      eventSet := eventSet + {event.id};
      var bucket := if event.fd in events then events[event.fd] else map[];
      events := events[event.fd := bucket[event.id := event]];
      registered := registered + {event};
      forall i | i in eventSet ensures exists t :: Event(i, t) in registered {
        if i == event.id {
          assert Event(i, event.fd) in registered;
        } else {
          var t :| Event(i, t) in old(registered);
          assert Event(i, t) in registered;
        }
      }
    }

    method RemoveEvent(event: Event)
      requires Valid() && Knows(event)
      modifies this
      ensures Valid() && registered == old(registered) - {event} && event.id !in eventSet
    {
      if event.id !in eventSet {
        return;
      }
      ghost var t :| Event(event.id, t) in registered;
      assert Event(event.id, t) == event;
      ErasedKeepsIndex(events, eventSet, registered, event);
      hide Index;
      eventSet := eventSet - {event.id};
      registered := registered - {event};
      Erase(event);
    }

    /** Takes the event out of its bucket, or the bucket out of the map if it has no other. */
    method Erase(event: Event)
      requires event.fd in events && event.id in events[event.fd]
      modifies `events
      ensures events == Erased(old(events), event)
    {
      var bucket := events[event.fd];
      if bucket - {event.id} == map[] {
        SingleKey(bucket, event.id);
      }
      if |bucket| == 1 {
        OnlyKey(bucket, event.id);
        assert bucket - {event.id} == map[];
        events := events - {event.fd};
      } else {
        events := events[event.fd := bucket - {event.id}];
      }
    }

    /** The events that are due and still exist, by time and then by id. */
    method Poll(now: int, alive: set<int>) returns (due: seq<Event>)
      requires Valid()
      ensures forall e :: e in due <==> e in registered && e.fd <= now && e.id in alive
      ensures Sorted(due) && forall i, j | 0 <= i < j < |due| :: due[i].id != due[j].id
    {
      var times := SortedKeys(set t | t in events && t <= now);
      var all: seq<Event> := [];
      for i := 0 to |times|
        invariant Sorted(all)
        invariant forall e :: e in all <==> e in registered && e.fd in times[..i]
      {
        assert times[i] in times;
        var bucket := PollBucket(times[i]);
        Append(all, bucket, times[i], times[..i]);
        all := all + bucket;
      }
      due := KeepAlive(all, alive);
      forall i, j | 0 <= i < j < |due| ensures due[i].id != due[j].id {
        assert due[i] in due && due[j] in due && Before(due[i], due[j]);
      }
      forall e ensures e in all <==> e in registered && e.fd <= now {
        assert times[..|times|] == times;
        assert e in registered ==> Holds(events, e);
      }
    }

    method PollBucket(t: int) returns (bucket: seq<Event>)
      requires Valid() && t in events
      ensures Sorted(bucket) && forall e :: e in bucket <==> e in registered && e.fd == t
    {
      var ids := SortedKeys(events[t].Keys);
      bucket := [];
      for i := 0 to |ids|
        invariant |bucket| == i && forall j | 0 <= j < i :: bucket[j] == Event(ids[j], t)
      {
        assert ids[i] in ids;
        bucket := bucket + [events[t][ids[i]]];
      }
      forall e ensures e in bucket <==> e in registered && e.fd == t {
        if e in registered && e.fd == t {
          assert Holds(events, e) && e.id in ids;
          var j :| 0 <= j < |ids| && ids[j] == e.id;
          assert bucket[j] == e;
        }
      }
    }
  }

  lemma Append(all: seq<Event>, bucket: seq<Event>, t: int, times: seq<int>)
    requires Sorted(all) && Sorted(bucket)
    requires forall e | e in all :: e.fd in times
    requires forall e | e in bucket :: e.fd == t
    requires forall u | u in times :: u < t
    ensures Sorted(all + bucket)
  {
  }

  /** Leaves out the events that have been destroyed. */
  method KeepAlive(all: seq<Event>, alive: set<int>) returns (due: seq<Event>)
    requires Sorted(all)
    ensures Sorted(due) && forall e :: e in due <==> e in all && e.id in alive
  {
    due := [];
    for i := 0 to |all|
      invariant Sorted(due) && forall e :: e in due <==> e in all[..i] && e.id in alive
    {
      assert forall e | e in due :: Before(e, all[i]);
      if all[i].id in alive {
        due := due + [all[i]];
      }
    }
    assert all[..|all|] == all;
  }

  /** The keys of an ordered map as an iteration over it yields them. */
  method SortedKeys(keys: set<int>) returns (s: seq<int>)
    ensures (forall i, j | 0 <= i < j < |s| :: s[i] < s[j]) && (forall k :: k in s <==> k in keys)
  {
    s := [];
    var rest := keys;
    while rest != {}
      invariant forall i, j | 0 <= i < j < |s| :: s[i] < s[j]
      invariant rest <= keys && forall k :: k in s <==> k in keys && k !in rest
      invariant forall i, k | 0 <= i < |s| && k in rest :: s[i] < k
      decreases rest
    {
      var m := Least(rest);
      s := s + [m];
      rest := rest - {m};
    }
  }

  method Least(s: set<int>) returns (m: int)
    requires s != {}
    ensures m in s && forall k | k in s :: m <= k
  {
    HasElement(s);
    m :| m in s;
    var rest := s - {m};
    while rest != {}
      invariant rest <= s && m in s && forall k | k in s && k !in rest :: m <= k
      decreases rest
    {
      HasElement(rest);
      var k :| k in rest;
      if k < m {
        m := k;
      }
      rest := rest - {k};
    }
  }

  lemma OnlyKey(m: map<int, Event>, k: int)
    requires k in m && |m| == 1
    ensures m.Keys == {k}
  {
    assert |m.Keys - {k}| == 0;
    assert m.Keys == m.Keys - {k} + {k};
  }

  lemma SingleKey(m: map<int, Event>, k: int)
    requires k in m && m - {k} == map[]
    ensures |m| == 1
  {
    assert m.Keys == (m - {k}).Keys + {k};
  }

  lemma HasElement(s: set<int>)
    ensures s != {} ==> exists k :: k in s
  {
    if !exists k :: k in s {
      assert s == {};
    }
  }
}
