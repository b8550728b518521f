/** Events, their registration with the pollers, and the dispatch of a polled batch. */
module Events {
  import opened Options
  import opened Sequences
  import opened Registries

  datatype Side = Read | Write

  class Event {
    const id: nat
    const kind: Kind
    var readAble: bool
    var writeAble: bool
    var readNotify: bool
    var writeNotify: bool

    constructor (id: nat, kind: Kind)
      ensures this.id == id && this.kind == kind && !readAble && !writeAble && !readNotify && !writeNotify
    {
      this.id, this.kind := id, kind;
      readAble, writeAble, readNotify, writeNotify := false, false, false, false;
    }

    function Able(side: Side): bool
      reads this
    {
      if side == Read then readAble else writeAble
    }

    function Ables(): (bool, bool)
      reads this
    {
      (readAble, writeAble)
    }

    /** Which callback `Do` runs. */
    function Due(): Option<Side>
      reads this
    {
      if readAble && readNotify then Some(Read) else if writeAble && writeNotify then Some(Write) else None
    }

    function Notify(side: Side): bool
      reads this
    {
      if side == Read then readNotify else writeNotify
    }

    function On(): bool
      reads this
    {
      readNotify || writeNotify
    }
  }

  /** Whether an event can be read and written, when one of the two changes. */
  function WithAble(ables: (bool, bool), side: Side, able: bool): (bool, bool) {
    if side == Read then (able, ables.1) else (ables.0, able)
  }

  /** What a callback does: it creates events, and changes those that still exist for it. */
  datatype Act = Create(kind: Kind) | Enable(id: nat, side: Side) | Disable(id: nat, side: Side) | Drop(id: nat)

  /** What has happened, in order. */
  datatype Entry =
    | Ran(id: nat, side: Side)
    | Enabled(id: nat, side: Side)
    | Disabled(id: nat, side: Side)
    | Destroyed(id: nat)

  /** Whether the notifications of one side of an event are on after the entries `log`. */
  ghost function Notifying(log: seq<Entry>, id: nat, side: Side): bool {
    if log == [] then false
    else
      match log[|log| - 1]
      case Enabled(d, other) => (d == id && other == side) || Notifying(log[..|log| - 1], id, side)
      case Disabled(d, other) => !(d == id && other == side) && Notifying(log[..|log| - 1], id, side)
      case Destroyed(d) => d != id && Notifying(log[..|log| - 1], id, side)
      case Ran(_, _) => Notifying(log[..|log| - 1], id, side)
  }

  /** Every callback that ran was on at that moment. */
  ghost predicate RanWhileOn(log: seq<Entry>) {
    forall j | 0 <= j < |log| && log[j].Ran? :: Notifying(log[..j], log[j].id, log[j].side)
  }

  ghost predicate TurnsOff(entry: Entry, id: nat, side: Side) {
    entry == Disabled(id, side) || entry == Destroyed(id)
  }

  /** After an event has been disabled or destroyed, its callback does not run unless the event has
      been enabled again in between. */
  lemma NoStaleCallback(log: seq<Entry>, i: nat, j: nat)
    requires RanWhileOn(log) && i < j < |log| && log[j].Ran?
    requires TurnsOff(log[i], log[j].id, log[j].side)
    ensures exists k :: i < k < j && log[k] == Enabled(log[j].id, log[j].side)
  {
    LastTurnedOn(log[..j], i, log[j].id, log[j].side);
  }

  lemma {:induction false} LastTurnedOn(log: seq<Entry>, i: nat, id: nat, side: Side)
    requires i < |log| && TurnsOff(log[i], id, side) && Notifying(log, id, side)
    ensures exists k :: i < k < |log| && log[k] == Enabled(id, side)
    decreases |log|
  {
    if i == |log| - 1 {
    } else if log[|log| - 1] != Enabled(id, side) {
      LastTurnedOn(log[..|log| - 1], i, id, side);
    }
  }

  /** From entry `from` on, no callback has run. */
  ghost predicate NoRun(log: seq<Entry>, from: nat) {
    forall k | from <= k < |log| :: !log[k].Ran?
  }

  /** After `before`, the callback of this side of the event has run, first and once, and no other; or
      none, if there is no side. */
  ghost predicate RunsJust(before: seq<Entry>, log: seq<Entry>, id: nat, side: Option<Side>) {
    && before <= log
    && if side == None then NoRun(log, |before|)
       else |before| < |log| && log[|before|] == Ran(id, side.value) && NoRun(log, |before| + 1)
  }

  /** From entry `from` on, only callbacks of the events `ids` have run, in the order of `ids`. */
  ghost predicate RunsOf(log: seq<Entry>, from: nat, ids: seq<nat>) {
    && (forall k | from <= k < |log| && log[k].Ran? :: log[k].id in ids)
    && (forall j, k | from <= j < k < |log| && log[j].Ran? && log[k].Ran? :: Precedes(ids, log[j].id, log[k].id))
  }

  lemma RunsOfNone(log: seq<Entry>)
    ensures RunsOf(log, |log|, [])
  {
  }

  lemma RunsOneMore(before: seq<Entry>, log: seq<Entry>, from: nat, ids: seq<nat>, id: nat, side: Option<Side>)
    requires from <= |before| && RunsOf(before, from, ids) && RunsJust(before, log, id, side) && id !in ids
    ensures RunsOf(log, from, ids + [id])
  {
    PrecedesOn(ids, id);
    forall k | from <= k < |log| && log[k].Ran? ensures if k < |before| then log[k] == before[k] && log[k].id in ids else log[k].id == id {
      assert k < |before| ==> log[k] == before[k];
    }
  }

  lemma {:induction false} TurnedOffBetween(before: seq<Entry>, log: seq<Entry>, id: nat, side: Side)
    requires before <= log && Notifying(before, id, side) && !Notifying(log, id, side)
    ensures exists k :: |before| <= k < |log| && TurnsOff(log[k], id, side)
    decreases |log|
  {
    if log == before {
    } else if !TurnsOff(log[|log| - 1], id, side) {
      TurnedOffBetween(before, log[..|log| - 1], id, side);
    }
  }

  /** From entry `from` on, the event has been destroyed. */
  ghost predicate Gone(log: seq<Entry>, from: nat, id: nat) {
    exists k :: from <= k < |log| && log[k] == Destroyed(id)
  }

  /** An event that was due for this side is so no more: its callback has run, or the side has been turned
      off, or, as reading goes before writing, its reading has been turned on. */
  ghost predicate Answers(entry: Entry, id: nat, side: Side) {
    entry == Ran(id, side) || TurnsOff(entry, id, side) || (side == Write && entry == Enabled(id, Read))
  }

  /** That has happened from entry `from` on. */
  ghost predicate Answered(log: seq<Entry>, from: nat, id: nat, side: Side) {
    exists k :: from <= k < |log| && Answers(log[k], id, side)
  }

  lemma EntryAdded(log: seq<Entry>, entry: Entry)
    requires RanWhileOn(log) && (entry.Ran? ==> Notifying(log, entry.id, entry.side))
    ensures RanWhileOn(log + [entry]) && (log + [entry])[..|log|] == log
  {
    var next := log + [entry];
    forall j | 0 <= j < |next| && next[j].Ran? ensures Notifying(next[..j], next[j].id, next[j].side) {
      assert j < |log| ==> next[..j] == log[..j];
      assert j == |log| ==> next[..j] == log;
    }
  }

  // ----- what callbacks do, on values

  /** The events that exist, with their pollers, whether the one whose callback runs is to go, the next
      id, and the record. */
  datatype View = View(kinds: map<nat, Kind>, doomed: bool, nextId: nat, log: seq<Entry>)

  function AfterAct(v: View, current: Option<nat>, act: Act): View {
    match act
    case Create(kind) => v.(kinds := v.kinds[v.nextId := kind], nextId := v.nextId + 1)
    case Enable(id, side) => if id in v.kinds then v.(log := v.log + [Enabled(id, side)]) else v
    case Disable(id, side) => if id in v.kinds then v.(log := v.log + [Disabled(id, side)]) else v
    case Drop(id) =>
      if current == Some(id) then v.(doomed := true)
      else if id in v.kinds then Dropped(v, id)
      else v
  }

  /** An act on an event that exists turns just that side of it on or off; an event that is dropped exists
      no more, at once or when the callback that is running returns. */
  lemma ActsTakeEffect(v: View, current: Option<nat>, id: nat, side: Side)
    ensures var w := AfterAct(v, current, Enable(id, side));
      && w.kinds == v.kinds && (forall d: nat, other ::
           Notifying(w.log, d, other) == if id in v.kinds && d == id && other == side then true else Notifying(v.log, d, other))
    ensures var w := AfterAct(v, current, Disable(id, side));
      && w.kinds == v.kinds && (forall d: nat, other ::
           Notifying(w.log, d, other) == if id in v.kinds && d == id && other == side then false else Notifying(v.log, d, other))
    ensures var w := AfterAct(v, current, Drop(id));
      && (current != Some(id) ==> w.kinds == v.kinds - {id} && w.doomed == v.doomed)
      && (current != Some(id) && id in v.kinds ==> forall other :: !Notifying(w.log, id, other))
      && (current == Some(id) ==> w.kinds == v.kinds && LetGoOf(w, id).kinds == v.kinds - {id})
  {
    forall d: nat, other
      ensures Notifying(v.log + [Enabled(id, side)], d, other) == ((d == id && other == side) || Notifying(v.log, d, other))
      ensures Notifying(v.log + [Disabled(id, side)], d, other) == (!(d == id && other == side) && Notifying(v.log, d, other))
      ensures Notifying(v.log + [Destroyed(id)], d, other) == (d != id && Notifying(v.log, d, other))
    {
      NotifyingAfter(v.log, Enabled(id, side), d, other);
      NotifyingAfter(v.log, Disabled(id, side), d, other);
      NotifyingAfter(v.log, Destroyed(id), d, other);
    }
    if id !in v.kinds { assert v.kinds - {id} == v.kinds; }
  }

  /** An event that is created exists beside the others, and is off. */
  lemma CreatedIsNew(v: View, current: Option<nat>, kind: Kind)
    requires forall id | id in v.kinds :: id < v.nextId
    ensures var w := AfterAct(v, current, Create(kind));
      exists id: nat :: id !in v.kinds && id < w.nextId && w.kinds == v.kinds[id := kind] && w.log == v.log
  {
    var id := v.nextId;
    assert id !in v.kinds;
    assert AfterAct(v, current, Create(kind)).kinds == v.kinds[id := kind];
  }

  lemma DropCases(v: View, current: Option<nat>, id: nat)
    ensures AfterAct(v, current, Drop(id)) ==
      if current == Some(id) then v.(doomed := true) else if id in v.kinds then Dropped(v, id) else v
  {
  }

  function Dropped(v: View, id: nat): View {
    v.(kinds := v.kinds - {id}, log := v.log + [Destroyed(id)])
  }

  function AfterActs(v: View, current: Option<nat>, acts: seq<Act>): View {
    if acts == [] then v else AfterAct(AfterActs(v, current, acts[..|acts| - 1]), current, acts[|acts| - 1])
  }

  /** A turn of an event: the callback that is due, if there is one, and then the event goes, if the
      callback let it go. */
  function AfterTurn(v: View, id: nat, side: Option<Side>, acts: seq<Act>): View {
    LetGoOf(Called(v, id, side, acts), id)
  }

  function Called(v: View, id: nat, side: Option<Side>, acts: seq<Act>): View {
    if side == None then v else AfterActs(v.(log := v.log + [Ran(id, side.value)]), Some(id), acts)
  }

  function LetGoOf(w: View, id: nat): View {
    if w.doomed then Dropped(w.(doomed := false), id) else w
  }

  function ActsOf(callbacks: (nat, Side, nat) -> seq<Act>, id: nat, side: Option<Side>, turn: nat): seq<Act> {
    if side == None then [] else callbacks(id, side.value, turn)
  }

  /** The callback of this side has run, done these acts, and the event is gone if it was let go. */
  function RanAnd(v: View, id: nat, side: Side, acts: seq<Act>): View {
    LetGoOf(AfterActs(v.(log := v.log + [Ran(id, side)]), Some(id), acts), id)
  }

  /** The acts of a callback are done one after the other. */
  lemma {:induction false} ActsInOrder(v: View, current: Option<nat>, a: seq<Act>, b: seq<Act>)
    ensures AfterActs(v, current, a + b) == AfterActs(AfterActs(v, current, a), current, b)
    ensures forall act :: AfterActs(v, current, [act]) == AfterAct(v, current, act)
    decreases |b|
  {
    forall act ensures AfterActs(v, current, [act]) == AfterAct(v, current, act) {
      assert [act][..0] == [];
    }
    if b == [] {
      assert a + b == a;
    } else {
      assert (a + b)[..|a + b| - 1] == a + b[..|b| - 1];
      ActsInOrder(v, current, a, b[..|b| - 1]);
    }
  }

  lemma {:induction false} ActsRunNothing(v: View, current: Option<nat>, acts: seq<Act>)
    ensures v.log <= AfterActs(v, current, acts).log && NoRun(AfterActs(v, current, acts).log, |v.log|)
  {
    if acts != [] { ActsRunNothing(v, current, acts[..|acts| - 1]); }
  }

  lemma TurnRunsJust(v: View, id: nat, side: Option<Side>, acts: seq<Act>)
    ensures RunsJust(v.log, AfterTurn(v, id, side, acts).log, id, side)
  {
    if side.Some? { ActsRunNothing(v.(log := v.log + [Ran(id, side.value)]), Some(id), acts); }
  }

  class EventLoop {
    const registry: Registry
    /** The events that exist, by their id. */
    var alive: map<nat, Event>
    /** The event whose callback is running: the loop keeps it in existence until that returns. */
    var current: Option<nat>
    var doomed: bool
    /** `EventIdCreator`. */
    var nextId: nat
    ghost var log: seq<Entry>

    /** An event is registered with its poller exactly if one of its notify flags is set, and nothing
        destroyed is registered; no callback has ever run that was off. */
    ghost predicate Valid()
      reads this, registry, registry.timers, registry.asyncers, registry.Nodes(), alive.Values
    {
      && Registers() && Logs()
      && (current.Some? ==> current.value in alive) && (doomed ==> current.Some?)
    }

    ghost predicate Registers()
      reads this, registry, registry.timers, registry.asyncers, registry.Nodes(), alive.Values
    {
      && registry.Valid()
      && (forall id | id in alive :: alive[id].id == id && (Reg(id, alive[id].kind) in registry.registered <==> alive[id].On()))
      && (forall r | r in registry.registered :: r.id in alive && alive[r.id].kind == r.kind)
    }

    ghost predicate Logs()
      reads this, alive.Values
    {
      && (forall id | id in alive :: id < nextId && Recorded(alive[id], log))
      && LogOk(log, nextId)
    }

    ghost predicate Recorded(e: Event, log: seq<Entry>)
      reads e
    {
      forall side :: e.Notify(side) == Notifying(log, e.id, side)
    }

    constructor ()
      ensures Valid() && alive == map[] && log == [] && current == None && fresh(registry) && fresh(registry.timers) && fresh(registry.asyncers) && fresh(registry.Nodes())
    {
      registry := new Registry();
      alive, current, doomed, nextId, log := map[], None, false, 0, [];
    }

    method CreateEvent(kind: Kind) returns (e: Event)
      requires Valid()
      modifies this
      ensures Valid() && fresh(e) && e.kind == kind && e.id == old(nextId) && alive == old(alive)[e.id := e]
      ensures log == old(log) && current == old(current) && doomed == old(doomed) && nextId == old(nextId) + 1
    {
      e := new Event(nextId, kind);
      Adopt(e);
    }

    method Adopt(e: Event)
      requires Valid() && e.id == nextId && !e.On()
      modifies `alive, `nextId
      ensures Valid() && alive == old(alive)[e.id := e] && nextId == old(nextId) + 1
    {
      hide LogOk, Notifying;
      LogOkStill(log, nextId);
      assert Recorded(e, log);
      ghost var before := alive;
      alive := alive[nextId := e];
      nextId := nextId + 1;
      assert forall id | id in before :: alive[id] == before[id] && Recorded(before[id], log);
      assert Logs();
      assert Reg(e.id, e.kind) !in registry.registered;
    }

    /** The part of `update` after the flags have changed. */
    method Update(e: Event)
      requires registry.Valid() && registry.Knows(Reg(e.id, e.kind))
      modifies registry, registry.timers, registry.asyncers, registry.Nodes()
      ensures registry.Valid() && fresh(registry.Nodes() - old(registry.Nodes()))
      ensures var r := Reg(e.id, e.kind);
        registry.registered == if e.On() then old(registry.registered) + {r} else old(registry.registered) - {r}
    {
      if !e.readNotify && !e.writeNotify {
        registry.RemoveEvent(Reg(e.id, e.kind));
      } else {
        registry.UpdateEvent(Reg(e.id, e.kind));
      }
    }

    /** Sets a notify flag and updates the poller. */
    method Turn(e: Event, side: Side, on: bool)
      requires Registers() && e.id in alive && alive[e.id] == e
      modifies registry, registry.timers, registry.asyncers, registry.Nodes(), e
      ensures Registers() && e.Notify(side) == on && fresh(registry.Nodes() - old(registry.Nodes()))
      ensures forall other | other != side :: e.Notify(other) == old(e.Notify(other))
      ensures e.Ables() == old(e.Ables())
    {
      hide Registry.Valid;
      if side == Read { e.readNotify := on; } else { e.writeNotify := on; }
      Update(e);
    }

    /** An entry about one event, whose flags are as the entry says, is added to the record. */
    ghost method Note(e: Event, entry: Entry)
      requires LogOk(log, nextId) && entry.id == e.id < nextId && (entry.Ran? ==> Notifying(log, entry.id, entry.side))
      requires forall id | id in alive :: id < nextId && alive[id].id == id && (id != e.id ==> Recorded(alive[id], log))
      requires e.id in alive ==> alive[e.id] == e && Recorded(e, log + [entry])
      modifies `log
      ensures log == old(log) + [entry] && Logs()
    {
      LogGrows(log, entry, nextId);
      forall id | id in alive && id != e.id ensures Recorded(alive[id], log + [entry]) {
        OthersAsBefore(alive[id], entry);
      }
      log := log + [entry];
    }

    lemma OthersAsBefore(e: Event, entry: Entry)
      requires Recorded(e, log) && entry.id != e.id
      ensures Recorded(e, log + [entry])
    {
      forall side ensures Notifying(log + [entry], e.id, side) == Notifying(log, e.id, side) {
        NotifyingAfter(log, entry, e.id, side);
      }
    }

    /** `EnableReadNotify`, `EnableWriteNotify`. */
    method EnableNotify(e: Event, side: Side)
      requires Valid() && e.id in alive && alive[e.id] == e
      modifies this, registry, registry.timers, registry.asyncers, registry.Nodes(), e
      ensures Valid() && Same(old(alive), old(current), old(doomed), old(nextId)) && log == old(log) + [Enabled(e.id, side)]
      ensures e.Ables() == old(e.Ables()) && fresh(registry.Nodes() - old(registry.Nodes()))
    {
      hide RanWhileOn, Registry.Valid, LogOk;
      Turn(e, side, true);
      NotifyingAfter(log, Enabled(e.id, side), e.id, Read);
      NotifyingAfter(log, Enabled(e.id, side), e.id, Write);
      Note(e, Enabled(e.id, side));
    }

    method DisableNotify(e: Event, side: Side)
      requires Valid() && e.id in alive && alive[e.id] == e
      modifies this, registry, registry.timers, registry.asyncers, registry.Nodes(), e
      ensures Valid() && Same(old(alive), old(current), old(doomed), old(nextId)) && log == old(log) + [Disabled(e.id, side)]
      ensures e.Ables() == old(e.Ables()) && fresh(registry.Nodes() - old(registry.Nodes()))
    {
      hide RanWhileOn, Registry.Valid, LogOk;
      Turn(e, side, false);
      NotifyingAfter(log, Disabled(e.id, side), e.id, Read);
      NotifyingAfter(log, Disabled(e.id, side), e.id, Write);
      Note(e, Disabled(e.id, side));
    }

    ghost predicate Same(alive: map<nat, Event>, current: Option<nat>, doomed: bool, nextId: nat)
      reads this
    {
      this.alive == alive && this.current == current && this.doomed == doomed && this.nextId == nextId
    }

    /** `~Event`, when the last owner lets go. */
    method Destroy(e: Event)
      requires Valid() && e.id in alive && alive[e.id] == e && current != Some(e.id)
      modifies this, registry, registry.timers, registry.asyncers, registry.Nodes(), e
      ensures Valid() && Same(old(alive) - {e.id}, old(current), old(doomed), old(nextId)) && log == old(log) + [Destroyed(e.id)]
      ensures e.Ables() == old(e.Ables()) && fresh(registry.Nodes() - old(registry.Nodes()))
    {
      hide RanWhileOn, Registry.Valid, LogOk;
      Unregister(e);
      alive := alive - {e.id};
      Note(e, Destroyed(e.id));
    }

    method Unregister(e: Event)
      requires Registers() && e.id in alive && alive[e.id] == e
      modifies registry, registry.timers, registry.asyncers, registry.Nodes(), e
      ensures Registers() && !e.On() && fresh(registry.Nodes() - old(registry.Nodes()))
      ensures e.Ables() == old(e.Ables())
    {
      hide Registry.Valid;
      if e.readNotify || e.writeNotify {
        e.readNotify := false;
        e.writeNotify := false;
        registry.RemoveEvent(Reg(e.id, e.kind));
      }
    }

    ghost function V(): View
      reads this
    {
      View(map id | id in alive :: alive[id].kind, doomed, nextId, log)
    }

    /** What a callback does. An event that is gone cannot be reached any more, and the one whose
        callback this is goes when the callback has returned. */
    method Perform(acts: seq<Act>)
      requires Valid()
      modifies this, registry, registry.timers, registry.asyncers, registry.Nodes(), alive.Values
      ensures Valid()
      ensures current == old(current) && old(log) <= log && nextId >= old(nextId) && fresh(registry.Nodes() - old(registry.Nodes()))
      ensures forall id | id in old(alive) :: if id in alive then alive[id] == old(alive[id]) else Gone(log, |old(log)|, id)
      ensures forall id | id in alive && id !in old(alive) :: fresh(alive[id]) && id >= old(nextId)
      ensures forall id | id in old(alive) :: old(alive[id]).Ables() == old(alive[id].Ables())
      ensures V() == AfterActs(old(V()), current, acts)
    {
      hide Registers, Logs, Gone, V, AfterAct;
      IdsBelow();
      for i := 0 to |acts|
        invariant V() == AfterActs(old(V()), current, acts[..i])
        invariant Valid()
        invariant current == old(current) && old(log) <= log && nextId >= old(nextId) && fresh(registry.Nodes() - old(registry.Nodes()))
        invariant forall id | id in old(alive) :: if id in alive then alive[id] == old(alive[id]) else Gone(log, |old(log)|, id)
        invariant forall id | id in alive && id !in old(alive) :: fresh(alive[id]) && id >= old(nextId)
        invariant forall id | id in old(alive) :: old(alive[id]).Ables() == old(alive[id].Ables())
      {
        ghost var mid := log;
        assert acts[..i + 1][..i] == acts[..i];
        PerformAct(acts[i]);
        forall id | id in old(alive) && id !in alive ensures Gone(log, |old(log)|, id) {
          StillGone(mid, log, |old(log)|, id);
        }
      }
      assert acts[..|acts|] == acts;
    }

    lemma KindsOfAlive()
      ensures V().kinds.Keys == alive.Keys && V().doomed == doomed && V().log == log
    {
    }

    lemma NotDoomed()
      requires Valid() && current == None
      ensures !doomed && V().doomed == doomed && V().(doomed := false) == V()
    {
      hide Registers, Logs;
    }

    lemma IdsBelow()
      requires Valid()
      ensures forall id | id in alive :: id < nextId && alive[id].id == id
    {
    }

    method PerformAct(act: Act)
      requires Valid()
      modifies this, registry, registry.timers, registry.asyncers, registry.Nodes(), alive.Values
      ensures Valid()
      ensures current == old(current) && old(log) <= log && nextId >= old(nextId) && fresh(registry.Nodes() - old(registry.Nodes()))
      ensures forall id | id in old(alive) :: if id in alive then alive[id] == old(alive[id]) else Gone(log, |old(log)|, id)
      ensures forall id | id in alive && id !in old(alive) :: fresh(alive[id]) && id >= old(nextId)
      ensures forall id | id in old(alive) :: old(alive[id]).Ables() == old(alive[id].Ables())
      ensures V() == AfterAct(old(V()), current, act)
    {
      hide Registers, Logs, Gone, V;
      match act {
        case Create(kind) => PerformCreate(kind);
        case Enable(id, side) => PerformTurn(id, side, true);
        case Disable(id, side) => PerformTurn(id, side, false);
        case Drop(id) => PerformDrop(id);
      }
    }

    method PerformCreate(kind: Kind)
      requires Valid()
      modifies this, registry, registry.timers, registry.asyncers, registry.Nodes(), alive.Values
      ensures Valid()
      ensures current == old(current) && old(log) <= log && nextId >= old(nextId) && fresh(registry.Nodes() - old(registry.Nodes()))
      ensures forall id | id in old(alive) :: if id in alive then alive[id] == old(alive[id]) else Gone(log, |old(log)|, id)
      ensures forall id | id in alive && id !in old(alive) :: fresh(alive[id]) && id >= old(nextId)
      ensures forall id | id in old(alive) :: old(alive[id]).Ables() == old(alive[id].Ables())
      ensures V() == AfterAct(old(V()), current, Create(kind))
    {
      hide Registers, Logs, Gone;
      IdsBelow();
      var e := CreateEvent(kind);
    }

    method PerformTurn(id: nat, side: Side, on: bool)
      requires Valid()
      modifies this, registry, registry.timers, registry.asyncers, registry.Nodes(), alive.Values
      ensures Valid()
      ensures current == old(current) && old(log) <= log && nextId >= old(nextId) && fresh(registry.Nodes() - old(registry.Nodes()))
      ensures forall id | id in old(alive) :: if id in alive then alive[id] == old(alive[id]) else Gone(log, |old(log)|, id)
      ensures forall id | id in alive && id !in old(alive) :: fresh(alive[id]) && id >= old(nextId)
      ensures forall id | id in old(alive) :: old(alive[id]).Ables() == old(alive[id].Ables())
      ensures V() == AfterAct(old(V()), current, if on then Enable(id, side) else Disable(id, side))
    {
      hide Registers, Logs, Gone;
      IdsBelow();
      if id in alive {
        if on { EnableNotify(alive[id], side); } else { DisableNotify(alive[id], side); }
      }
    }

    /** `Destroy`, and what it does to the view. */
    method DropEvent(id: nat)
      requires Valid() && id in alive && current != Some(id)
      modifies this, registry, registry.timers, registry.asyncers, registry.Nodes(), alive[id]
      ensures Valid() && Same(old(alive) - {id}, old(current), old(doomed), old(nextId))
      ensures V() == Dropped(old(V()), id) && log == old(log) + [Destroyed(id)]
      ensures old(alive[id]).Ables() == old(alive[id].Ables()) && fresh(registry.Nodes() - old(registry.Nodes()))
    {
      hide Registers, Logs;
      IdsBelow();
      Destroy(alive[id]);
    }

    method PerformDrop(id: nat)
      requires Valid()
      modifies this, registry, registry.timers, registry.asyncers, registry.Nodes(), alive.Values
      ensures Valid()
      ensures current == old(current) && old(log) <= log && nextId >= old(nextId) && fresh(registry.Nodes() - old(registry.Nodes()))
      ensures forall id | id in old(alive) :: if id in alive then alive[id] == old(alive[id]) else Gone(log, |old(log)|, id)
      ensures forall id | id in alive && id !in old(alive) :: fresh(alive[id]) && id >= old(nextId)
      ensures forall id | id in old(alive) :: old(alive[id]).Ables() == old(alive[id].Ables())
      ensures V() == AfterAct(old(V()), current, Drop(id))
    {
      hide Registers, Logs, Gone, V, Dropped, AfterAct;
      KindsOfAlive();
      DropCases(V(), current, id);
      if current == Some(id) {
        Hold(current, true);
      } else if id in alive {
        DropEvent(id);
        JustGone(old(log), id);
      }
    }

    /** `SetReadAble`, `SetWriteAble`, and the end of both in `Do`. */
    method SetAble(e: Event, side: Side, able: bool)
      requires Valid() && e.id in alive && alive[e.id] == e
      modifies e
      ensures Valid() && e.Able(side) == able && e.Notify(Read) == old(e.Notify(Read)) && e.Notify(Write) == old(e.Notify(Write))
      ensures e.Ables() == WithAble(old(e.Ables()), side, able)
    {
      hide Registers, Logs;
      if side == Read { SetReadAble(e, able); } else { SetWriteAble(e, able); }
    }

    method SetReadAble(e: Event, able: bool)
      requires Valid() && e.id in alive && alive[e.id] == e
      modifies e`readAble
      ensures Valid() && e.readAble == able
    {
      hide LogOk, Notifying;
      e.readAble := able;
    }

    method SetWriteAble(e: Event, able: bool)
      requires Valid() && e.id in alive && alive[e.id] == e
      modifies e`writeAble
      ensures Valid() && e.writeAble == able
    {
      hide LogOk, Notifying;
      e.writeAble := able;
    }

    /** The callback runs, and then the side is not ready any more. */
    method RunCallback(e: Event, side: Side, acts: seq<Act>)
      requires Valid() && e.id in alive && alive[e.id] == e && current == Some(e.id) && e.Notify(side)
      modifies this, registry, registry.timers, registry.asyncers, registry.Nodes(), alive.Values
      ensures Valid() && current == Some(e.id)
      ensures V() == AfterActs(old(V()).(log := old(log) + [Ran(e.id, side)]), Some(e.id), acts)
      ensures e.Ables() == WithAble(old(e.Ables()), side, false)
      ensures old(log) <= log && nextId >= old(nextId) && fresh(registry.Nodes() - old(registry.Nodes()))
      ensures forall id | id in old(alive) :: if id in alive then alive[id] == old(alive[id]) else Gone(log, |old(log)|, id)
      ensures forall id | id in alive && id !in old(alive) :: fresh(alive[id]) && id >= old(nextId)
      ensures forall id | id in old(alive) && id != e.id :: old(alive[id]).Ables() == old(alive[id].Ables())
    {
      hide Registers, Logs, Gone, Event.Ables, WithAble, AfterActs;
      IdsBelow();
      NoteRan(e, side);
      ghost var mid := log;
      Perform(acts);
      forall id | id in old(alive) && id !in alive ensures Gone(log, |old(log)|, id) {
        StillGone(mid, log, |old(log)|, id);
      }
      SetAble(e, side, false);
    }

    ghost method NoteRan(e: Event, side: Side)
      requires Valid() && e.id in alive && alive[e.id] == e && e.Notify(side)
      modifies `log
      ensures Valid() && log == old(log) + [Ran(e.id, side)]
    {
      hide LogOk;
      NotifyingAfter(log, Ran(e.id, side), e.id, Read);
      NotifyingAfter(log, Ran(e.id, side), e.id, Write);
      Note(e, Ran(e.id, side));
    }

    method Hold(current: Option<nat>, doomed: bool)
      requires Valid() && (current.Some? ==> current.value in alive) && (doomed ==> current.Some?)
      modifies `current, `doomed
      ensures Valid() && this.current == current && this.doomed == doomed && V() == old(V()).(doomed := doomed)
    {
      this.current, this.doomed := current, doomed;
    }

    method LetGo()
      requires Valid() && current.Some?
      modifies this, registry, registry.timers, registry.asyncers, registry.Nodes(), alive.Values
      ensures Valid() && current == None && !doomed && (!old(doomed) ==> log == old(log))
      ensures old(log) <= log && nextId >= old(nextId) && fresh(registry.Nodes() - old(registry.Nodes()))
      ensures forall id | id in old(alive) :: if id in alive then alive[id] == old(alive[id]) else Gone(log, |old(log)|, id)
      ensures forall id | id in alive && id !in old(alive) :: fresh(alive[id]) && id >= old(nextId)
      ensures forall id | id in old(alive) :: old(alive[id]).Ables() == old(alive[id].Ables())
      ensures V() == LetGoOf(old(V()), old(current).value)
    {
      hide Registers, Logs, Gone;
      IdsBelow();
      var e, gone := alive[current.value], doomed;
      Hold(None, false);
      if gone {
        DropEvent(e.id);
        JustGone(old(log), e.id);
      }
    }

    method RunDue(e: Event, callbacks: (nat, Side, nat) -> seq<Act>, turn: nat)
      requires Valid() && e.id in alive && alive[e.id] == e && current == Some(e.id)
      modifies this, registry, registry.timers, registry.asyncers, registry.Nodes(), alive.Values
      ensures Valid() && current == Some(e.id)
      ensures old(e.Due()).Some? ==> e.Ables() == WithAble(old(e.Ables()), old(e.Due()).value, false)
      ensures V() == Called(old(V()), e.id, old(e.Due()), ActsOf(callbacks, e.id, old(e.Due()), turn))
      ensures old(log) <= log && nextId >= old(nextId) && fresh(registry.Nodes() - old(registry.Nodes()))
      ensures forall id | id in old(alive) :: if id in alive then alive[id] == old(alive[id]) else Gone(log, |old(log)|, id)
      ensures forall id | id in alive && id !in old(alive) :: fresh(alive[id]) && id >= old(nextId)
      ensures forall id | id in old(alive) && id != e.id :: old(alive[id]).Ables() == old(alive[id].Ables())
    {
      hide Registers, Logs, Gone;
      var rProcessed := false;
      if e.Able(Read) && e.Notify(Read) {
        rProcessed := true;
        RunCallback(e, Read, callbacks(e.id, Read, turn));
      }
      if !rProcessed && e.Able(Write) && e.Notify(Write) {
        RunCallback(e, Write, callbacks(e.id, Write, turn));
      }
    }

    /** `Event::Do`, and the end of the loop's own hold on the event. */
    method Do(e: Event, callbacks: (nat, Side, nat) -> seq<Act>, turn: nat)
      requires Valid() && e.id in alive && alive[e.id] == e && current == None
      modifies this, registry, registry.timers, registry.asyncers, registry.Nodes(), alive.Values
      ensures Valid() && current == None
      ensures old(e.readAble && e.readNotify) ==> RunsJust(old(log), log, e.id, Some(Read)) && !e.readAble
      ensures !old(e.readAble && e.readNotify) && old(e.writeAble && e.writeNotify) ==> RunsJust(old(log), log, e.id, Some(Write)) && !e.writeAble
      ensures !old(e.readAble && e.readNotify) && !old(e.writeAble && e.writeNotify) ==> RunsJust(old(log), log, e.id, None)
      ensures V() == AfterTurn(old(V()), e.id, old(e.Due()), ActsOf(callbacks, e.id, old(e.Due()), turn))
      ensures old(e.readAble && e.readNotify) ==> V() == RanAnd(old(V()), e.id, Read, callbacks(e.id, Read, turn))
      ensures !old(e.readAble && e.readNotify) && old(e.writeAble && e.writeNotify) ==>
        V() == RanAnd(old(V()), e.id, Write, callbacks(e.id, Write, turn))
      ensures old(log) <= log && nextId >= old(nextId) && fresh(registry.Nodes() - old(registry.Nodes()))
      ensures forall id | id in old(alive) :: if id in alive then alive[id] == old(alive[id]) else Gone(log, |old(log)|, id)
      ensures forall id | id in alive && id !in old(alive) :: fresh(alive[id]) && id >= old(nextId)
      ensures forall id | id in old(alive) && id != e.id :: old(alive[id]).Ables() == old(alive[id].Ables())
    {
      hide Registers, Logs, Gone, V, AfterActs, LetGoOf, RunsJust;
      ghost var v, side := V(), e.Due();
      LogOfView();
      DoHeld(e, callbacks, turn);
      LogOfView();
      TurnRunsJust(v, e.id, side, ActsOf(callbacks, e.id, side, turn));
    }

    lemma LogOfView()
      ensures V().log == log
    {
    }

    /** The loop holds the event while its callback runs, and then lets go. */
    method DoHeld(e: Event, callbacks: (nat, Side, nat) -> seq<Act>, turn: nat)
      requires Valid() && e.id in alive && alive[e.id] == e && current == None
      modifies this, registry, registry.timers, registry.asyncers, registry.Nodes(), alive.Values
      ensures Valid() && current == None
      ensures old(e.Due()).Some? ==> e.Ables() == WithAble(old(e.Ables()), old(e.Due()).value, false)
      ensures V() == AfterTurn(old(V()), e.id, old(e.Due()), ActsOf(callbacks, e.id, old(e.Due()), turn))
      ensures old(log) <= log && nextId >= old(nextId) && fresh(registry.Nodes() - old(registry.Nodes()))
      ensures forall id | id in old(alive) :: if id in alive then alive[id] == old(alive[id]) else Gone(log, |old(log)|, id)
      ensures forall id | id in alive && id !in old(alive) :: fresh(alive[id]) && id >= old(nextId)
      ensures forall id | id in old(alive) && id != e.id :: old(alive[id]).Ables() == old(alive[id].Ables())
    {
      hide Registers, Logs, Gone, V, Called, ActsOf, LetGoOf, Event.Due, Event.Ables, WithAble;
      NotDoomed();
      IdsBelow();
      Hold(Some(e.id), false);
      RunDue(e, callbacks, turn);
      ghost var mid := log;
      LetGo();
      forall id | id in old(alive) && id !in alive ensures Gone(log, |old(log)|, id) {
        StillGone(mid, log, |old(log)|, id);
      }
    }

    /** The end of `Poll`: the polled events that exist are ready to read. */
    method MarkReady(polled: seq<nat>)
      requires Valid() && forall id | id in polled :: id in alive
      modifies alive.Values
      ensures Valid() && forall id | id in polled :: alive[id].readAble
      ensures forall id | id in alive :: alive[id].readNotify == old(alive[id].readNotify)
      ensures forall id | id in alive :: alive[id].writeNotify == old(alive[id].writeNotify) && alive[id].writeAble == old(alive[id].writeAble)
    {
      hide Registers, Logs;
      IdsBelow();
      for i := 0 to |polled|
        invariant Valid()
        invariant forall j | 0 <= j < i :: alive[polled[j]].readAble
        invariant forall id | id in alive :: alive[id].readNotify == old(alive[id].readNotify)
        invariant forall id | id in alive :: alive[id].writeNotify == old(alive[id].writeNotify) && alive[id].writeAble == old(alive[id].writeAble)
      {
        SetReadAble(alive[polled[i]], true);
      }
    }

    /** The event will run this callback when its turn comes. */
    ghost predicate Awaits(id: nat, side: Side)
      reads this, alive.Values
    {
      id in alive && alive[id].Due() == Some(side)
    }

    /** `doPoller`: only events of the batch run a callback, and one each; one that an earlier callback
        destroyed is skipped. Every event that was registered and due runs its callback, unless a
        callback turns it off before; events that callbacks create wait for the next batch. */
    method DoPoller(fromTimers: bool, now: int, callbacks: (nat, Side, nat) -> seq<Act>) returns (ghost polled: seq<nat>)
      requires Valid() && current == None
      modifies this, registry, registry.timers, registry.asyncers, registry.Nodes(), alive.Values
      ensures Valid() && current == None
      ensures old(log) <= log && nextId >= old(nextId) && fresh(registry.Nodes() - old(registry.Nodes()))
      ensures forall id | id in old(alive) :: if id in alive then alive[id] == old(alive[id]) else Gone(log, |old(log)|, id)
      ensures forall id | id in alive && id !in old(alive) :: fresh(alive[id]) && id >= old(nextId)
      ensures forall id :: id in polled <==> id in old(alive) && old(alive[id].On()) && IsDue(old(alive[id]).kind, fromTimers, now)
      ensures forall id | id in polled && old(alive[id].readNotify) :: Answered(log, |old(log)|, id, Read)
      ensures forall id | id in polled && !old(alive[id].readNotify) && old(alive[id].writeAble && alive[id].writeNotify) ::
        Answered(log, |old(log)|, id, Write)
      ensures RunsOf(log, |old(log)|, polled) && NoDup(polled)
      ensures fromTimers ==> forall i, j | 0 <= i < j < |polled| :: Sooner(old(alive[polled[i]]), old(alive[polled[j]]))
      ensures !fromTimers ==> forall i, j | 0 <= i < j < |polled| ::
        Precedes(old(registry.asyncers.Order()), polled[i] as int, polled[j] as int)
    {
      hide Registers, Logs, Gone, Answered;
      IdsBelow();
      var batch := PollRegistry(fromTimers, now);
      polled := batch;
      MarkReady(batch);
      RunEach(batch, callbacks, map id | id in batch && alive[id].Due().Some? :: alive[id].Due().value);
    }

    method RunEach(batch: seq<nat>, callbacks: (nat, Side, nat) -> seq<Act>, ghost on: map<nat, Side>)
      requires Valid() && current == None && NoDup(batch) && forall id | id in on :: id in batch && Awaits(id, on[id])
      modifies this, registry, registry.timers, registry.asyncers, registry.Nodes(), alive.Values
      ensures Valid() && current == None
      ensures old(log) <= log && nextId >= old(nextId) && fresh(registry.Nodes() - old(registry.Nodes()))
      ensures forall id | id in old(alive) :: if id in alive then alive[id] == old(alive[id]) else Gone(log, |old(log)|, id)
      ensures forall id | id in alive && id !in old(alive) :: fresh(alive[id]) && id >= old(nextId)
      ensures forall id | id in on :: Answered(log, |old(log)|, id, on[id])
      ensures RunsOf(log, |old(log)|, batch)
    {
      hide Registers, Logs, Gone, Answered, V, AfterTurn, RunsJust, RunsOf, Event.Due, Event.Ables, NoDup;
      RunsOfNone(log);
      IdsBelow();
      for i := 0 to |batch|
        invariant Valid() && current == None
        invariant old(log) <= log && nextId >= old(nextId) && fresh(registry.Nodes() - old(registry.Nodes()))
        invariant forall id | id in old(alive) :: if id in alive then alive[id] == old(alive[id]) else Gone(log, |old(log)|, id)
        invariant forall id | id in alive && id !in old(alive) :: fresh(alive[id]) && id >= old(nextId)
        invariant forall id | id in on :: Answered(log, |old(log)|, id, on[id]) || (id in batch[i..] && Awaits(id, on[id]))
        invariant RunsOf(log, |old(log)|, batch[..i])
      {
        ghost var mid := log;
        ghost var side := DoNext(batch[i], callbacks, i, on, |old(log)|);
        NextOfBatch(batch, i);
        RunsOneMore(mid, log, |old(log)|, batch[..i], batch[i], side);
        forall id | id in old(alive) && id !in alive ensures Gone(log, |old(log)|, id) {
          StillGone(mid, log, |old(log)|, id);
        }
      }
      assert batch[..|batch|] == batch;
    }

    lemma NextOfBatch(batch: seq<nat>, i: nat)
      requires NoDup(batch) && i < |batch|
      ensures batch[..i + 1] == batch[..i] + [batch[i]] && batch[i] !in batch[..i]
      ensures forall id | id in batch[i..] && id != batch[i] :: id in batch[i + 1..]
    {
    }

    /** The event comes first among those of the timer poller. */
    predicate Sooner(e: Event, f: Event) {
      e.kind.Timed? && f.kind.Timed? && (e.kind.at < f.kind.at || (e.kind.at == f.kind.at && e.id < f.id))
    }

    method PollRegistry(fromTimers: bool, now: int) returns (batch: seq<nat>)
      requires Valid()
      ensures NoDup(batch)
      ensures forall id :: id in batch <==> id in alive && alive[id].On() && IsDue(alive[id].kind, fromTimers, now)
      ensures fromTimers ==> forall i, j | 0 <= i < j < |batch| :: Sooner(alive[batch[i]], alive[batch[j]])
      ensures !fromTimers ==> forall i, j | 0 <= i < j < |batch| :: Precedes(registry.asyncers.Order(), batch[i] as int, batch[j] as int)
    {
      batch := registry.Poll(fromTimers, now, set id | id in alive :: id as int);
      forall i | 0 <= i < |batch| ensures batch[i] in alive { assert batch[i] in batch; }
      if fromTimers {
        forall i, j | 0 <= i < j < |batch| ensures Sooner(alive[batch[i]], alive[batch[j]]) {
          assert registry.Earlier(batch[i], batch[j]);
        }
      }
    }

    lemma FlagsRecorded()
      requires Valid()
      ensures forall id, side | id in alive :: alive[id].Notify(side) == Notifying(log, id, side)
    {
      forall id, side | id in alive ensures alive[id].Notify(side) == Notifying(log, id, side) {
        assert Recorded(alive[id], log);
      }
    }

    method DoNext(id: nat, callbacks: (nat, Side, nat) -> seq<Act>, turn: nat, ghost on: map<nat, Side>, ghost from: nat) returns (ghost side: Option<Side>)
      requires Valid() && current == None && from <= |log|
      requires forall d | d in on :: Answered(log, from, d, on[d]) || Awaits(d, on[d])
      modifies this, registry, registry.timers, registry.asyncers, registry.Nodes(), alive.Values
      ensures Valid() && current == None
      ensures old(log) <= log && nextId >= old(nextId) && fresh(registry.Nodes() - old(registry.Nodes()))
      ensures forall id | id in old(alive) :: if id in alive then alive[id] == old(alive[id]) else Gone(log, |old(log)|, id)
      ensures forall id | id in alive && id !in old(alive) :: fresh(alive[id]) && id >= old(nextId)
      ensures side == (if id in old(alive) then old(alive[id].Due()) else None)
      ensures V() == if id in old(alive) then AfterTurn(old(V()), id, side, ActsOf(callbacks, id, side, turn)) else old(V())
      ensures RunsJust(old(log), log, id, side)
      ensures forall d | d in on :: Answered(log, from, d, on[d]) || (d != id && Awaits(d, on[d]))
      ensures forall d | d in on && Answered(old(log), from, d, on[d]) :: Answered(log, from, d, on[d])
    {
      hide Registers, Logs, Gone, Answered;
      hide RanWhileOn, Notifying;
      IdsBelow();
      FlagsRecorded();
      ghost var before := log;
      side := None;
      if id in alive {
        side := alive[id].Due();
        Do(alive[id], callbacks, turn);
      }
      FlagsRecorded();
      forall d | d in on
        ensures Answered(log, from, d, on[d]) || (d != id && Awaits(d, on[d]))
        ensures Answered(before, from, d, on[d]) ==> Answered(log, from, d, on[d])
      {
        if Answered(before, from, d, on[d]) {
          StillAnswered(before, log, from, d, on[d]);
        } else if d == id {
          RanIsAnswered(log, |before|, from, d, on[d]);
        } else if d !in alive {
          GoneIsAnswered(log, |before|, from, d, on[d]);
        } else if !alive[d].Notify(on[d]) {
          OffIsAnswered(before, log, from, d, on[d]);
        } else if on[d] == Write && alive[d].Able(Read) && alive[d].Notify(Read) {
          ReadIsAnswered(before, log, from, d);
        }
      }
    }
  }

  ghost predicate LogOk(log: seq<Entry>, nextId: nat) {
    RanWhileOn(log) && forall i | 0 <= i < |log| :: log[i].id < nextId
  }

  lemma LogOkStill(log: seq<Entry>, nextId: nat)
    requires LogOk(log, nextId)
    ensures LogOk(log, nextId + 1) && forall side :: !Notifying(log, nextId, side)
  {
    NeverSeen(log, nextId);
  }

  lemma LogGrows(log: seq<Entry>, entry: Entry, nextId: nat)
    requires LogOk(log, nextId) && entry.id < nextId && (entry.Ran? ==> Notifying(log, entry.id, entry.side))
    ensures LogOk(log + [entry], nextId)
  {
    EntryAdded(log, entry);
  }

  lemma NotifyingAfter(log: seq<Entry>, entry: Entry, id: nat, side: Side)
    ensures Notifying(log + [entry], id, side) ==
      if entry == Enabled(id, side) then true else if TurnsOff(entry, id, side) then false else Notifying(log, id, side)
  {
    assert (log + [entry])[..|log|] == log;
  }

  lemma JustGone(log: seq<Entry>, id: nat)
    ensures Gone(log + [Destroyed(id)], |log|, id)
  {
    assert (log + [Destroyed(id)])[|log|] == Destroyed(id);
  }

  lemma StillGone(mid: seq<Entry>, log: seq<Entry>, from: nat, id: nat)
    requires mid <= log && from <= |mid| && (Gone(mid, from, id) || Gone(log, |mid|, id))
    ensures Gone(log, from, id)
  {
    if Gone(mid, from, id) {
      var k :| from <= k < |mid| && mid[k] == Destroyed(id);
      assert log[k] == mid[k];
    }
  }

  lemma OffIsAnswered(before: seq<Entry>, log: seq<Entry>, from: nat, id: nat, side: Side)
    requires before <= log && from <= |before| && Notifying(before, id, side) && !Notifying(log, id, side)
    ensures Answered(log, from, id, side)
  {
    TurnedOffBetween(before, log, id, side);
    var k :| |before| <= k < |log| && TurnsOff(log[k], id, side);
    assert Answers(log[k], id, side);
  }

  lemma {:induction false} TurnedOnBetween(before: seq<Entry>, log: seq<Entry>, id: nat, side: Side)
    requires before <= log && !Notifying(before, id, side) && Notifying(log, id, side)
    ensures exists k :: |before| <= k < |log| && log[k] == Enabled(id, side)
    decreases |log|
  {
    if log == before {
    } else if log[|log| - 1] != Enabled(id, side) {
      TurnedOnBetween(before, log[..|log| - 1], id, side);
    }
  }

  lemma ReadIsAnswered(before: seq<Entry>, log: seq<Entry>, from: nat, id: nat)
    requires before <= log && from <= |before| && !Notifying(before, id, Read) && Notifying(log, id, Read)
    ensures Answered(log, from, id, Write)
  {
    TurnedOnBetween(before, log, id, Read);
    var k :| |before| <= k < |log| && log[k] == Enabled(id, Read);
    assert Answers(log[k], id, Write);
  }

  lemma RanIsAnswered(log: seq<Entry>, at: nat, from: nat, id: nat, side: Side)
    requires from <= at < |log| && log[at] == Ran(id, side)
    ensures Answered(log, from, id, side)
  {
    assert Answers(log[at], id, side);
  }

  lemma GoneIsAnswered(log: seq<Entry>, at: nat, from: nat, id: nat, side: Side)
    requires Gone(log, at, id) && from <= at
    ensures Answered(log, from, id, side)
  {
    var k :| at <= k < |log| && log[k] == Destroyed(id);
    assert Answers(log[k], id, side);
  }

  lemma StillAnswered(before: seq<Entry>, log: seq<Entry>, from: nat, id: nat, side: Side)
    requires before <= log && Answered(before, from, id, side)
    ensures Answered(log, from, id, side)
  {
    var k :| from <= k < |before| && Answers(before[k], id, side);
    assert log[k] == before[k];
  }

  lemma {:induction false} NeverSeen(log: seq<Entry>, id: nat)
    requires forall i | 0 <= i < |log| :: log[i].id < id
    ensures forall side :: !Notifying(log, id, side)
    decreases |log|
  {
    if log != [] { NeverSeen(log[..|log| - 1], id); }
  }
}
