/**
 ENTER, EXIT and DWELL events, derived by comparing an entity's previous set of
 geofences with the one found for its new location.  Geofences may be created,
 edited or deleted between any two updates.
 */
module GeofenceEvents {
  import opened Wrappers
  import opened GeoUtils
  import opened Geofences
  import opened GridIndex
  import opened GeofenceRepository
  import opened Sequences

  const DWELL_THRESHOLD_MS := 60000

  datatype Kind = ENTER | EXIT | DWELL

  datatype Event = Event(kind: Kind, geofence: Geofence, entityId: string, entityType: string, location: Point, timestamp: int)

  datatype EntityLocation = EntityLocation(entityId: string, entityType: string, location: Point, timestamp: int, geofenceIds: seq<Id>)

  type Key = string

  function KeyOf(entityType: string, entityId: string): Key {
    entityType + ":" + entityId
  }

  /** Entities of different types or ids have different keys, as long as types have
      no colon in them. */
  lemma KeysApart(t: string, i: string, u: string, j: string)
    requires ':' !in t && ':' !in u
    ensures KeyOf(t, i) == KeyOf(u, j) <==> t == u && i == j
  {
    if |t| <= |u| {
      KeyAt(t, i, |t|);
      KeyAt(u, j, |t|);
    } else {
      KeyAt(t, i, |u|);
      KeyAt(u, j, |u|);
    }
    assert t == KeyOf(t, i)[..|t|] && u == KeyOf(u, j)[..|u|];
    assert i == KeyOf(t, i)[|t| + 1..] && j == KeyOf(u, j)[|u| + 1..];
  }

  lemma KeyAt(t: string, i: string, n: nat)
    requires n <= |t|
    ensures n < |KeyOf(t, i)| && KeyOf(t, i)[n] == if n < |t| then t[n] else ':'
  {
  }

  /** With a colon in a type two entities can share a key. */
  lemma KeysCollide(t: string, u: string, i: string)
    ensures KeyOf(t + ":" + u, i) == KeyOf(t, u + ":" + i)
  {
    assert t + ":" + u + ":" + i == t + ":" + (u + ":" + i);
  }

  // ----- events of one location update

  function Stamp(kind: Kind, g: Geofence, at: EntityLocation, now: int): Event {
    Event(kind, g, at.entityId, at.entityType, at.location, now)
  }

  /** One EXIT for each geofence left behind that still exists. */
  function Exits(previous: seq<Id>, current: seq<Id>, fences: seq<Geofence>, at: EntityLocation): seq<Event> {
    if previous == [] then
      []
    else
      var (front, id) := (Exits(previous[..|previous| - 1], current, fences, at), previous[|previous| - 1]);
      if id !in current && Get(fences, id).Some? then
        front + [Stamp(EXIT, Get(fences, id).value, at, at.timestamp)]
      else
        front
  }

  /** One ENTER for each geofence found now and not held before. */
  function Enters(current: seq<Geofence>, previous: seq<Id>, at: EntityLocation): seq<Event> {
    if current == [] then
      []
    else
      var (front, g) := (Enters(current[..|current| - 1], previous, at), current[|current| - 1]);
      if g.id !in previous then
        front + [Stamp(ENTER, g, at, at.timestamp)]
      else
        front
  }

  /** One DWELL for each held geofence that still exists. */
  function Dwells(held: seq<Id>, fences: seq<Geofence>, at: EntityLocation, now: int): seq<Event> {
    if held == [] then
      []
    else
      var (front, id) := (Dwells(held[..|held| - 1], fences, at, now), held[|held| - 1]);
      if Get(fences, id).Some? then
        front + [Stamp(DWELL, Get(fences, id).value, at, now)]
      else
        front
  }

  lemma {:induction false} ExitsMeans(previous: seq<Id>, current: seq<Id>, fences: seq<Geofence>, at: EntityLocation, e: Event)
    ensures e in Exits(previous, current, fences, at)
            <==> && e == Stamp(EXIT, e.geofence, at, at.timestamp)
                 && Get(fences, e.geofence.id) == Some(e.geofence)
                 && e.geofence.id in previous && e.geofence.id !in current
  {
    if previous != [] {
      var (front, id) := (previous[..|previous| - 1], previous[|previous| - 1]);
      assert previous == front + [id];
      ExitsMeans(front, current, fences, at, e);
    }
  }

  lemma {:induction false} EntersMeans(current: seq<Geofence>, previous: seq<Id>, at: EntityLocation, e: Event)
    ensures e in Enters(current, previous, at)
            <==> && e == Stamp(ENTER, e.geofence, at, at.timestamp)
                 && e.geofence in current && e.geofence.id !in previous
  {
    if current != [] {
      var (front, g) := (current[..|current| - 1], current[|current| - 1]);
      assert current == front + [g];
      EntersMeans(front, previous, at, e);
    }
  }

  lemma {:induction false} DwellsMeans(held: seq<Id>, fences: seq<Geofence>, at: EntityLocation, now: int, e: Event)
    ensures e in Dwells(held, fences, at, now)
            <==> && e == Stamp(DWELL, e.geofence, at, now)
                 && Get(fences, e.geofence.id) == Some(e.geofence)
                 && e.geofence.id in held
  {
    if held != [] {
      var (front, id) := (held[..|held| - 1], held[|held| - 1]);
      assert held == front + [id];
      DwellsMeans(front, fences, at, now, e);
    }
  }

  // ----- the state, with the history of what was emitted

  /** The event bus, with a mark for each clear.  An event is recorded under the
      table key of the entity it is about. */
  datatype Record = Emitted(key: Key, event: Event) | Cleared(key: Key)

  /** `order` is the iteration order of the entity table. */
  datatype World = World(grid: Grid, used: set<Id>, entities: map<Key, EntityLocation>, order: seq<Key>, history: seq<Record>)

  datatype Step =
    | Edit(change: Change)
    | Move(entityType: string, entityId: string, location: Point, now: int)
    | Clear(entityType: string, entityId: string)
    | CheckDwell(now: int)

  function Held(entities: map<Key, EntityLocation>, k: Key): seq<Id> {
    if k in entities then entities[k].geofenceIds else []
  }

  function Emit(k: Key, events: seq<Event>): seq<Record> {
    if events == [] then [] else Emit(k, events[..|events| - 1]) + [Emitted(k, events[|events| - 1])]
  }

  function RemoveKey(order: seq<Key>, k: Key): (r: seq<Key>) {
    if order == [] then []
    else if order[|order| - 1] == k then RemoveKey(order[..|order| - 1], k)
    else RemoveKey(order[..|order| - 1], k) + [order[|order| - 1]]
  }

  function DwellRecords(order: seq<Key>, entities: map<Key, EntityLocation>, fences: seq<Geofence>, now: int): seq<Record> {
    if order == [] then
      []
    else
      var (front, k) := (DwellRecords(order[..|order| - 1], entities, fences, now), order[|order| - 1]);
      if k in entities && entities[k].timestamp <= now - DWELL_THRESHOLD_MS then
        front + Emit(k, Dwells(entities[k].geofenceIds, fences, entities[k], now))
      else
        front
  }

  ghost function MoveEvents(w: World, s: Step): seq<Event>
    requires s.Move?
  {
    var (k, found) := (KeyOf(s.entityType, s.entityId), w.grid.Lookup(s.location));
    var at := EntityLocation(s.entityId, s.entityType, s.location, s.now, Ids(found));
    Exits(Held(w.entities, k), Ids(found), w.grid.fences, at) + Enters(found, Held(w.entities, k), at)
  }

  /** An update of a location emits exactly: an EXIT for each held geofence that
      exists and does not contain the new location, and an ENTER for each
      geofence that contains it and was not held. */
  lemma MoveEmitsExactly(w: World, s: Step, e: Event)
    requires Exact(w.grid) && s.Move?
    ensures var held := Held(w.entities, KeyOf(s.entityType, s.entityId));
            e in MoveEvents(w, s)
            <==> && e == Event(e.kind, e.geofence, s.entityId, s.entityType, s.location, s.now)
                 && e.geofence in w.grid.fences
                 && match e.kind
                    case ENTER => Inside(s.location, e.geofence.boundary) && e.geofence.id !in held
                    case EXIT => !Inside(s.location, e.geofence.boundary) && e.geofence.id in held
                    case DWELL => false
  {
    var (k, found) := (KeyOf(s.entityType, s.entityId), w.grid.Lookup(s.location));
    var at := EntityLocation(s.entityId, s.entityType, s.location, s.now, Ids(found));
    ExactIsCovering(w.grid);
    LookupIsScan(w.grid, s.location);
    ExitsMeans(Held(w.entities, k), Ids(found), w.grid.fences, at, e);
    EntersMeans(found, Held(w.entities, k), at, e);
    if e.geofence in w.grid.fences {
      GetIsTheOne(w.grid.fences, e.geofence);
      FoundById(w.grid.fences, found, e.geofence);
    }
  }

  lemma FoundById(all: seq<Geofence>, some: seq<Geofence>, g: Geofence)
    requires Keyed(all) && g in all && forall h :: h in some ==> h in all
    ensures g.id in Ids(some) <==> g in some
  {
    if g.id in Ids(some) {
      var h := Get(some, g.id).value;
      GetIsTheOne(all, g);
      GetIsTheOne(all, h);
    }
  }

  ghost function Next(w: World, s: Step): World {
    match s
    case Edit(change) =>
      w.(grid := Apply(w.grid, change), used := if change.Create? then w.used + {change.id} else w.used)
    case Move(entityType, entityId, location, now) =>
      var k := KeyOf(entityType, entityId);
      var at := EntityLocation(entityId, entityType, location, now, Ids(w.grid.Lookup(location)));
      w.(entities := w.entities[k := at],
         order := if k in w.entities then w.order else w.order + [k],
         history := w.history + Emit(k, MoveEvents(w, s)))
    case Clear(entityType, entityId) =>
      var k := KeyOf(entityType, entityId);
      w.(entities := w.entities - {k}, order := RemoveKey(w.order, k), history := w.history + [Cleared(k)])
    case CheckDwell(now) =>
      w.(history := w.history + DwellRecords(w.order, w.entities, w.grid.fences, now))
  }

  /** Ids of geofences are never reused, not even after a delete. */
  ghost predicate Enabled(w: World, s: Step) {
    s.Edit? && s.change.Create? ==> s.change.id !in w.used
  }

  ghost function AfterSteps(steps: seq<Step>): World {
    if steps == [] then
      World(Empty(DEFAULT_CELL_SIZE), {}, map[], [], [])
    else
      Next(AfterSteps(steps[..|steps| - 1]), steps[|steps| - 1])
  }

  ghost predicate ValidRun(steps: seq<Step>) {
    steps == [] || (ValidRun(steps[..|steps| - 1]) && Enabled(AfterSteps(steps[..|steps| - 1]), steps[|steps| - 1]))
  }

  /** A dwell check emits exactly: for every entity not heard of for the
      threshold, one DWELL for each geofence it holds that exists. */
  lemma {:induction false} DwellEmitsExactly(order: seq<Key>, entities: map<Key, EntityLocation>, fences: seq<Geofence>, now: int, k: Key, e: Event)
    ensures Emitted(k, e) in DwellRecords(order, entities, fences, now)
            <==> && k in order && k in entities
                 && entities[k].timestamp <= now - 60000
                 && e == Stamp(DWELL, e.geofence, entities[k], now)
                 && Get(fences, e.geofence.id) == Some(e.geofence)
                 && e.geofence.id in entities[k].geofenceIds
  {
    if order != [] {
      var (front, x) := (order[..|order| - 1], order[|order| - 1]);
      assert order == front + [x];
      DwellEmitsExactly(front, entities, fences, now, k, e);
      if x in entities {
        DwellsMeans(entities[x].geofenceIds, fences, entities[x], now, e);
        EmitMembers(x, Dwells(entities[x].geofenceIds, fences, entities[x], now), k, e);
      }
    }
  }

  lemma {:induction false} EmitMembers(mine: Key, events: seq<Event>, k: Key, e: Event)
    ensures Emitted(k, e) in Emit(mine, events) <==> k == mine && e in events
  {
    if events != [] {
      var front := events[..|events| - 1];
      assert events == front + [events[|events| - 1]];
      EmitMembers(mine, front, k, e);
    }
  }

  // ----- reading an entity's history

  /** The events of one entity since it was last cleared. */
  ghost function Log(history: seq<Record>, k: Key): seq<Event> {
    if history == [] then
      []
    else
      var (front, r) := (history[..|history| - 1], history[|history| - 1]);
      match r
      case Cleared(other) => if other == k then [] else Log(front, k)
      case Emitted(other, e) => if other == k then Log(front, k) + [e] else Log(front, k)
  }

  /** Replay from the empty set: ENTER puts a geofence in, EXIT takes it out. */
  ghost function Replay(log: seq<Event>): set<Id> {
    if log == [] then
      {}
    else
      var (before, e) := (Replay(log[..|log| - 1]), log[|log| - 1]);
      match e.kind
      case ENTER => before + {e.geofence.id}
      case EXIT => before - {e.geofence.id}
      case DWELL => before
  }

  /** ENTER only from outside, EXIT and DWELL only from inside. */
  ghost predicate Legal(log: seq<Event>) {
    log == [] ||
    var (front, e) := (log[..|log| - 1], log[|log| - 1]);
    Legal(front) && (e.kind.ENTER? <==> e.geofence.id !in Replay(front))
  }

  /** The ENTER and EXIT events of one geofence, in order. */
  ghost function Crossing(log: seq<Event>, id: Id): seq<Kind> {
    if log == [] then
      []
    else
      var (front, e) := (Crossing(log[..|log| - 1], id), log[|log| - 1]);
      if e.geofence.id == id && !e.kind.DWELL? then front + [e.kind] else front
  }

  /** A legal log strictly alternates, per geofence, starting with ENTER, and
      the geofence is held after the replay exactly when its last one is ENTER. */
  lemma {:induction false} LegalAlternates(log: seq<Event>, id: Id)
    requires Legal(log)
    ensures var c := Crossing(log, id);
            && (forall i :: 0 <= i < |c| ==> c[i] == if i % 2 == 0 then ENTER else EXIT)
            && (id in Replay(log) <==> |c| % 2 == 1)
  {
    if log != [] {
      LegalAlternates(log[..|log| - 1], id);
    }
  }

  // ----- the invariant

  ghost predicate Consistent(log: seq<Event>, held: seq<Id>, live: seq<Id>, used: set<Id>) {
    && Legal(log)
    && Distinct(held)
    && (forall id :: id in held ==> id in Replay(log))
    && (forall id :: id in Replay(log) ==> id in used)
    && (forall id :: id in Replay(log) && id in live ==> id in held)
  }

  ghost predicate Good(w: World) {
    && Exact(w.grid)
    && (forall id :: id in Ids(w.grid.fences) ==> id in w.used)
    && (forall k :: k in w.order <==> k in w.entities)
    && Distinct(w.order)
    && forall k :: Consistent(Log(w.history, k), Held(w.entities, k), Ids(w.grid.fences), w.used)
  }

  lemma LogSnoc(history: seq<Record>, mine: Key, e: Event, k: Key)
    ensures Log(history + [Emitted(mine, e)], k) == if k == mine then Log(history, k) + [e] else Log(history, k)
  {
    assert (history + [Emitted(mine, e)])[..|history|] == history;
  }

  lemma {:induction false} LogAppend(history: seq<Record>, mine: Key, events: seq<Event>, k: Key)
    ensures Log(history + Emit(mine, events), k) == if k == mine then Log(history, k) + events else Log(history, k)
  {
    if events == [] {
      assert history + Emit(mine, events) == history;
    } else {
      var (front, e) := (events[..|events| - 1], events[|events| - 1]);
      LogAppend(history, mine, front, k);
      ConcatAssociative(history, Emit(mine, front), [Emitted(mine, e)]);
      LogSnoc(history + Emit(mine, front), mine, e, k);
      assert events == front + [e];
    }
  }

  lemma LegalSnoc(log: seq<Event>, e: Event)
    requires Legal(log) && (e.kind.ENTER? <==> e.geofence.id !in Replay(log))
    ensures Legal(log + [e])
    ensures Replay(log + [e]) == match e.kind
                                 case ENTER => Replay(log) + {e.geofence.id}
                                 case EXIT => Replay(log) - {e.geofence.id}
                                 case DWELL => Replay(log)
  {
    assert (log + [e])[..|log|] == log;
  }

  lemma {:induction false} ExitsReplay(log: seq<Event>, previous: seq<Id>, current: seq<Id>, fences: seq<Geofence>, at: EntityLocation)
    requires Legal(log) && Distinct(previous) && forall id :: id in previous ==> id in Replay(log)
    ensures var l := log + Exits(previous, current, fences, at);
            && Legal(l)
            && (forall id :: id in Replay(l) <==>
                  id in Replay(log) && !(id in previous && id !in current && id in Ids(fences)))
  {
    if previous == [] {
      assert log + Exits(previous, current, fences, at) == log;
    } else {
      var (front, id) := (previous[..|previous| - 1], previous[|previous| - 1]);
      assert previous == front + [id];
      DistinctSnoc(front, id);
      ExitsReplay(log, front, current, fences, at);
      var l := log + Exits(front, current, fences, at);
      if id !in current && Get(fences, id).Some? {
        var e := Stamp(EXIT, Get(fences, id).value, at, at.timestamp);
        assert log + Exits(previous, current, fences, at) == l + [e];
        LegalSnoc(l, e);
      }
    }
  }

  lemma {:induction false} EntersReplay(log: seq<Event>, current: seq<Geofence>, previous: seq<Id>, at: EntityLocation)
    requires Legal(log) && Keyed(current)
    requires forall id :: id in Ids(current) && id !in previous ==> id !in Replay(log)
    ensures var l := log + Enters(current, previous, at);
            && Legal(l)
            && (forall id :: id in Replay(l) <==> id in Replay(log) || (id in Ids(current) && id !in previous))
  {
    if current == [] {
      assert log + Enters(current, previous, at) == log;
    } else {
      var (front, g) := (current[..|current| - 1], current[|current| - 1]);
      assert current == front + [g];
      IdsSnoc(front, g);
      KeyedSnoc(front, g);
      EntersReplay(log, front, previous, at);
      var l := log + Enters(front, previous, at);
      if g.id !in previous {
        var e := Stamp(ENTER, g, at, at.timestamp);
        assert log + Enters(current, previous, at) == l + [e];
        LegalSnoc(l, e);
      }
    }
  }

  lemma {:induction false} DwellsReplay(log: seq<Event>, held: seq<Id>, fences: seq<Geofence>, at: EntityLocation, now: int)
    requires Legal(log) && forall id :: id in held ==> id in Replay(log)
    ensures Legal(log + Dwells(held, fences, at, now)) && Replay(log + Dwells(held, fences, at, now)) == Replay(log)
  {
    if held == [] {
      assert log + Dwells(held, fences, at, now) == log;
    } else {
      var (front, id) := (held[..|held| - 1], held[|held| - 1]);
      DwellsReplay(log, front, fences, at, now);
      var l := log + Dwells(front, fences, at, now);
      if Get(fences, id).Some? {
        var e := Stamp(DWELL, Get(fences, id).value, at, now);
        assert log + Dwells(held, fences, at, now) == l + [e];
        LegalSnoc(l, e);
      }
    }
  }

  lemma IdsOfSome(some: seq<Geofence>, all: seq<Geofence>)
    requires forall g :: g in some ==> g in all
    ensures forall id :: id in Ids(some) ==> id in Ids(all)
  {
    forall id | id in Ids(some) ensures id in Ids(all) {
      assert Get(some, id).value in all;
    }
  }

  /** One location update turns a consistent log into a consistent log. */
  lemma MoveReplay(log: seq<Event>, held: seq<Id>, fences: seq<Geofence>, found: seq<Geofence>, used: set<Id>, at: EntityLocation)
    requires Consistent(log, held, Ids(fences), used)
    requires Keyed(found) && forall id :: id in Ids(found) ==> id in Ids(fences)
    requires forall id :: id in Ids(fences) ==> id in used
    ensures var events := Exits(held, Ids(found), fences, at) + Enters(found, held, at);
            && Consistent(log + events, Ids(found), Ids(fences), used)
  {
    var (current, live) := (Ids(found), Ids(fences));
    var l := log + Exits(held, current, fences, at);
    assert Legal(l)
      && (forall id :: id in Replay(l) <==> id in Replay(log) && !(id in held && id !in current && id in live))
    by {
      ExitsReplay(log, held, current, fences, at);
    }
    EntersReplay(l, found, held, at);
    var after := log + (Exits(held, current, fences, at) + Enters(found, held, at));
    ConcatAssociative(log, Exits(held, current, fences, at), Enters(found, held, at));
    MembershipStep(Replay(log), Replay(l), Replay(after), held, current, live, used);
  }

  /** The same step on sets of ids alone. */
  lemma MembershipStep(before: set<Id>, between: set<Id>, after: set<Id>, held: seq<Id>, found: seq<Id>, live: seq<Id>, used: set<Id>)
    requires forall id :: id in held ==> id in before
    requires forall id :: id in before ==> id in used
    requires forall id :: id in before && id in live ==> id in held
    requires forall id :: id in live ==> id in used
    requires forall id :: id in found ==> id in live
    requires forall id :: id in between <==> id in before && !(id in held && id !in found && id in live)
    requires forall id :: id in after <==> id in between || (id in found && id !in held)
    ensures forall id :: id in found ==> id in after
    ensures forall id :: id in after ==> id in used
    ensures forall id :: id in after && id in live ==> id in found
  {
  }

  lemma MoveKeepsGood(w: World, s: Step)
    requires Good(w) && s.Move?
    ensures Good(Next(w, s))
  {
    var (k, after) := (KeyOf(s.entityType, s.entityId), Next(w, s));
    if k !in w.entities {
      DistinctSnoc(w.order, k);
    }
    forall other ensures Consistent(Log(after.history, other), Held(after.entities, other), Ids(w.grid.fences), w.used) {
      MoveKeepsConsistent(w, s, other);
    }
  }

  lemma MoveKeepsConsistent(w: World, s: Step, other: Key)
    requires Good(w) && s.Move?
    ensures Consistent(Log(Next(w, s).history, other), Held(Next(w, s).entities, other), Ids(w.grid.fences), w.used)
  {
    var (k, found) := (KeyOf(s.entityType, s.entityId), w.grid.Lookup(s.location));
    assert Consistent(Log(w.history, other), Held(w.entities, other), Ids(w.grid.fences), w.used);
    LogAppend(w.history, k, MoveEvents(w, s), other);
    if other == k {
      var at := EntityLocation(s.entityId, s.entityType, s.location, s.now, Ids(found));
      ExactIsCovering(w.grid);
      LookupIsScan(w.grid, s.location);
      IdsOfSome(found, w.grid.fences);
      MoveReplay(Log(w.history, k), Held(w.entities, k), w.grid.fences, found, w.used, at);
    }
  }

  lemma {:induction false} RemoveKeyMembers(order: seq<Key>, k: Key)
    requires Distinct(order)
    ensures Distinct(RemoveKey(order, k))
    ensures forall x :: x in RemoveKey(order, k) <==> x in order && x != k
  {
    if order != [] {
      var (front, x) := (order[..|order| - 1], order[|order| - 1]);
      assert order == front + [x];
      DistinctSnoc(front, x);
      RemoveKeyMembers(front, k);
      DistinctSnoc(RemoveKey(front, k), x);
    }
  }

  lemma ClearKeepsGood(w: World, s: Step)
    requires Good(w) && s.Clear?
    ensures Good(Next(w, s))
  {
    var (k, after) := (KeyOf(s.entityType, s.entityId), Next(w, s));
    RemoveKeyMembers(w.order, k);
    forall other ensures Consistent(Log(after.history, other), Held(after.entities, other), Ids(w.grid.fences), w.used) {
      LogCleared(w.history, k, other);
      if other == k {
        assert Log(after.history, k) == [] && Held(after.entities, k) == [];
      } else {
        assert Consistent(Log(w.history, other), Held(w.entities, other), Ids(w.grid.fences), w.used);
        assert Held(after.entities, other) == Held(w.entities, other);
      }
    }
  }

  lemma LogCleared(history: seq<Record>, mine: Key, k: Key)
    ensures Log(history + [Cleared(mine)], k) == if k == mine then [] else Log(history, k)
  {
    assert (history + [Cleared(mine)])[..|history|] == history;
  }

  lemma ChangeKeepsGood(w: World, s: Step)
    requires Good(w) && s.Edit? && Enabled(w, s)
    ensures Good(Next(w, s))
  {
    var (change, after) := (s.change, Next(w, s));
    ApplyKeepsExact(w.grid, change);
    ApplyToFences(w.grid, change);
    forall id | id in Ids(after.grid.fences)
      ensures id in Ids(w.grid.fences) || (change.Create? && id == change.id)
    {
      var g := Get(after.grid.fences, id).value;
      assert g in w.grid.fences || g.id == change.id;
    }
    forall k ensures Consistent(Log(w.history, k), Held(w.entities, k), Ids(after.grid.fences), after.used) {
      assert Consistent(Log(w.history, k), Held(w.entities, k), Ids(w.grid.fences), w.used);
    }
  }

  function IdSet(fences: seq<Geofence>): set<Id> {
    set id | id in Ids(fences)
  }

  /** A service may start over any exact index. */
  lemma NewIsGood(g: Grid)
    requires Exact(g)
    ensures Good(World(g, IdSet(g.fences), map[], [], []))
  {
  }

  /** What a dwell check relies on for one entity. */
  ghost predicate Dwellable(w: World, k: Key) {
    && k in w.entities
    && Legal(Log(w.history, k))
    && forall id :: id in w.entities[k].geofenceIds ==> id in Replay(Log(w.history, k))
  }

  lemma {:induction false} DwellRecordsReplay(w: World, order: seq<Key>, now: int, k: Key)
    requires Distinct(order) && (forall x :: x in order ==> Dwellable(w, x)) && Legal(Log(w.history, k))
    ensures var log := Log(w.history + DwellRecords(order, w.entities, w.grid.fences, now), k);
            && Legal(log) && Replay(log) == Replay(Log(w.history, k))
            && (k !in order ==> log == Log(w.history, k))
  {
    if order == [] {
      assert w.history + DwellRecords(order, w.entities, w.grid.fences, now) == w.history;
    } else {
      var (front, x) := (order[..|order| - 1], order[|order| - 1]);
      assert order == front + [x];
      DwellRecordsReplay(w, front, now, k);
      assert Dwellable(w, x);
      var (at, before) := (w.entities[x], DwellRecords(front, w.entities, w.grid.fences, now));
      if at.timestamp <= now - DWELL_THRESHOLD_MS {
        var batch := Dwells(at.geofenceIds, w.grid.fences, at, now);
        ConcatAssociative(w.history, before, Emit(x, batch));
        DwellsReplay(Log(w.history, x), at.geofenceIds, w.grid.fences, at, now);
        LogAppend(w.history + before, x, batch, k);
      }
    }
  }

  lemma DwellKeepsGood(w: World, s: Step)
    requires Good(w) && s.CheckDwell?
    ensures Good(Next(w, s))
  {
    forall k | k in w.order ensures Dwellable(w, k) {
      assert Consistent(Log(w.history, k), Held(w.entities, k), Ids(w.grid.fences), w.used);
    }
    forall k ensures Consistent(Log(Next(w, s).history, k), Held(w.entities, k), Ids(w.grid.fences), w.used) {
      assert Consistent(Log(w.history, k), Held(w.entities, k), Ids(w.grid.fences), w.used);
      DwellRecordsReplay(w, w.order, s.now, k);
    }
  }

  lemma NextKeepsGood(w: World, s: Step)
    requires Good(w) && Enabled(w, s)
    ensures Good(Next(w, s))
  {
    match s
    case Edit(_) => ChangeKeepsGood(w, s);
    case Move(_, _, _, _) => MoveKeepsGood(w, s);
    case Clear(_, _) => ClearKeepsGood(w, s);
    case CheckDwell(_) => DwellKeepsGood(w, s);
  }

  lemma {:induction false} RunIsGood(steps: seq<Step>)
    requires ValidRun(steps)
    ensures Good(AfterSteps(steps))
  {
    if steps != [] {
      RunIsGood(steps[..|steps| - 1]);
      NextKeepsGood(AfterSteps(steps[..|steps| - 1]), steps[|steps| - 1]);
    }
  }

  /** Over any run, the events of an entity since its last clear alternate per
      geofence starting with ENTER, DWELL comes only in between, and replaying
      them gives the stored membership of every geofence that still exists. */
  lemma EventStreamReconstructsMembership(steps: seq<Step>, k: Key, id: Id)
    requires ValidRun(steps)
    ensures var w := AfterSteps(steps);
            var (log, crossing) := (Log(w.history, k), Crossing(Log(w.history, k), id));
            && Legal(log)
            && (forall i :: 0 <= i < |crossing| ==> crossing[i] == if i % 2 == 0 then ENTER else EXIT)
            && (id in Replay(log) <==> |crossing| % 2 == 1)
            && (id in Ids(w.grid.fences) ==> (id in Replay(log) <==> id in Held(w.entities, k)))
            && (id in Held(w.entities, k) ==> id in Replay(log))
  {
    var w := AfterSteps(steps);
    RunIsGood(steps);
    assert Consistent(Log(w.history, k), Held(w.entities, k), Ids(w.grid.fences), w.used);
    LegalAlternates(Log(w.history, k), id);
  }

  /** The stored locations that hold a geofence, in table order. */
  function Holding(order: seq<Key>, entities: map<Key, EntityLocation>, id: Id): seq<EntityLocation> {
    if order == [] then
      []
    else
      var (front, k) := (Holding(order[..|order| - 1], entities, id), order[|order| - 1]);
      if k in entities && id in entities[k].geofenceIds then front + [entities[k]] else front
  }

  lemma {:induction false} HoldingMembers(order: seq<Key>, entities: map<Key, EntityLocation>, id: Id, at: EntityLocation)
    ensures at in Holding(order, entities, id)
            <==> exists k :: k in order && k in entities && entities[k] == at && id in at.geofenceIds
  {
    if order != [] {
      var (front, k) := (order[..|order| - 1], order[|order| - 1]);
      assert order == front + [k];
      HoldingMembers(front, entities, id, at);
    }
  }

  /** Asking for the entities in a geofence that exists finds exactly those whose
      events, replayed, leave them inside it. */
  lemma HoldingIsReplayed(steps: seq<Step>, id: Id, at: EntityLocation)
    requires ValidRun(steps)
    ensures var w := AfterSteps(steps);
            id in Ids(w.grid.fences) ==>
              (at in Holding(w.order, w.entities, id)
               <==> exists k :: k in w.entities && w.entities[k] == at && id in Replay(Log(w.history, k)))
  {
    var w := AfterSteps(steps);
    RunIsGood(steps);
    HoldingMembers(w.order, w.entities, id, at);
    forall k | k in w.entities && id in Ids(w.grid.fences)
      ensures id in Replay(Log(w.history, k)) <==> id in w.entities[k].geofenceIds
    {
      EventStreamReconstructsMembership(steps, k, id);
    }
  }

  // ----- the class

  class GeofenceEventService {
    const repository: GeofenceRepository
    var entities: map<Key, EntityLocation>
    var order: seq<Key>
    var history: seq<Record>
    ghost var used: set<Id>

    ghost function State(): World
      reads this, repository.spatialIndex
    {
      World(repository.State(), used, entities, order, history)
    }

    ghost predicate Valid()
      reads this, repository.spatialIndex
    {
      Good(State())
    }

    constructor (repository: GeofenceRepository)
      requires repository.Valid()
      ensures this.repository == repository && Valid()
      ensures State() == World(repository.State(), IdSet(repository.State().fences), map[], [], [])
    {
      this.repository := repository;
      entities, order, history, used := map[], [], [], IdSet(repository.State().fences);
      new;
      NewIsGood(repository.State());
    }

    /** The geofence service edits the shared repository between two updates. */
    method EditGeofences(change: Change)
      requires Valid() && Enabled(State(), Edit(change))
      modifies this`used, repository.spatialIndex
      ensures Valid() && State() == Next(old(State()), Edit(change))
    {
      ChangeKeepsGood(State(), Edit(change));
      ChangeRepository(change);
      used := if change.Create? then used + {change.id} else used;
    }

    method ChangeRepository(change: Change)
      requires repository.Valid() && Fresh(repository.State(), change)
      modifies repository.spatialIndex
      ensures repository.State() == Apply(old(repository.State()), change)
    {
      match change {
        case Create(id, draft, now) =>
          var g := repository.CreateGeofence(id, draft, now);
        case Update(id, draft, now) =>
          var r := repository.UpdateGeofence(id, draft, now);
        case Delete(id) =>
          var deleted := repository.DeleteGeofence(id);
      }
    }

    method UpdateEntityLocation(entityId: string, entityType: string, location: Point, now: int) returns (events: seq<Event>)
      requires Valid()
      modifies this
      ensures Valid() && State() == Next(old(State()), Move(entityType, entityId, location, now))
      ensures events == MoveEvents(old(State()), Move(entityType, entityId, location, now))
    {
      var k := KeyOf(entityType, entityId);
      ghost var (w, step) := (State(), Move(entityType, entityId, location, now));
      NextKeepsGood(w, step);
      var current := repository.FindByPoint(location);
      var currentIds := Ids(current);
      var at := EntityLocation(entityId, entityType, location, now, currentIds);
      events := Detect(k, current, at);
      assert events == MoveEvents(w, step);
      Store(k, at, events);
      assert State() == Next(w, step);
    }

    method Store(k: Key, at: EntityLocation, events: seq<Event>)
      modifies this
      ensures entities == old(entities)[k := at] && used == old(used)
      ensures order == if k in old(entities) then old(order) else old(order) + [k]
      ensures history == old(history) + Emit(k, events)
    {
      order := if k in entities then order else order + [k];
      entities := entities[k := at];
      history := history + Emit(k, events);
    }

    method Detect(k: Key, current: seq<Geofence>, at: EntityLocation) returns (events: seq<Event>)
      requires repository.Valid()
      ensures events == Exits(Held(entities, k), Ids(current), repository.spatialIndex.fences, at)
                        + Enters(current, Held(entities, k), at)
    {
      if k in entities {
        var previous := entities[k].geofenceIds;
        events := ExitEvents(previous, Ids(current), at);
        var entered := EnterEvents(current, previous, at);
        events := events + entered;
      } else {
        events := EnterEvents(current, [], at);
      }
    }

    method ExitEvents(previous: seq<Id>, current: seq<Id>, at: EntityLocation) returns (events: seq<Event>)
      requires repository.Valid()
      ensures events == Exits(previous, current, repository.spatialIndex.fences, at)
    {
      events := [];
      var i := 0;
      while i < |previous|
        invariant 0 <= i <= |previous|
        invariant events == Exits(previous[..i], current, repository.spatialIndex.fences, at)
      {
        assert previous[..i + 1][..i] == previous[..i];
        if previous[i] !in current {
          var g := repository.FindById(previous[i]);
          if g.Some? {
            events := events + [Stamp(EXIT, g.value, at, at.timestamp)];
          }
        }
        i := i + 1;
      }
      assert previous[..i] == previous;
    }

    method EnterEvents(current: seq<Geofence>, previous: seq<Id>, at: EntityLocation) returns (events: seq<Event>)
      ensures events == Enters(current, previous, at)
    {
      events := [];
      var i := 0;
      while i < |current|
        invariant 0 <= i <= |current|
        invariant events == Enters(current[..i], previous, at)
      {
        assert current[..i + 1][..i] == current[..i];
        if current[i].id !in previous {
          events := events + [Stamp(ENTER, current[i], at, at.timestamp)];
        }
        i := i + 1;
      }
      assert current[..i] == current;
    }

    method GetEntitiesInGeofence(id: Id) returns (result: seq<EntityLocation>)
      requires Valid()
      ensures result == Holding(order, entities, id)
    {
      result := [];
      var i := 0;
      while i < |order|
        invariant 0 <= i <= |order|
        invariant result == Holding(order[..i], entities, id)
      {
        assert order[..i + 1][..i] == order[..i];
        if id in entities[order[i]].geofenceIds {
          result := result + [entities[order[i]]];
        }
        i := i + 1;
      }
      assert order[..i] == order;
    }

    method ClearEntityLocation(entityId: string, entityType: string) returns (found: bool)
      requires Valid()
      modifies this
      ensures Valid() && State() == Next(old(State()), Clear(entityType, entityId))
      ensures found <==> KeyOf(entityType, entityId) in old(entities)
    {
      var k := KeyOf(entityType, entityId);
      NextKeepsGood(State(), Clear(entityType, entityId));
      found := Forget(k);
    }

    method Forget(k: Key) returns (found: bool)
      modifies this
      ensures entities == old(entities) - {k} && used == old(used)
      ensures order == RemoveKey(old(order), k) && history == old(history) + [Cleared(k)]
      ensures found <==> k in old(entities)
    {
      found := k in entities;
      entities := entities - {k};
      order := RemoveKey(order, k);
      history := history + [Cleared(k)];
    }

    method CheckDwellEvents(now: int)
      requires Valid()
      modifies this`history
      ensures Valid() && State() == Next(old(State()), CheckDwell(now))
    {
      NextKeepsGood(State(), CheckDwell(now));
      var records := CollectDwellRecords(now);
      history := history + records;
    }

    method CollectDwellRecords(now: int) returns (records: seq<Record>)
      requires repository.Valid() && forall k :: k in order ==> k in entities
      ensures records == DwellRecords(order, entities, repository.spatialIndex.fences, now)
    {
      records := [];
      var i := 0;
      while i < |order|
        invariant 0 <= i <= |order|
        invariant records == DwellRecords(order[..i], entities, repository.spatialIndex.fences, now)
      {
        assert order[..i + 1][..i] == order[..i];
        var at := entities[order[i]];
        if at.timestamp <= now - DWELL_THRESHOLD_MS {
          var batch := DwellEventsOf(at, now);
          records := records + Emit(order[i], batch);
        }
        i := i + 1;
      }
      assert order[..i] == order;
    }

    method DwellEventsOf(at: EntityLocation, now: int) returns (events: seq<Event>)
      requires repository.Valid()
      ensures events == Dwells(at.geofenceIds, repository.spatialIndex.fences, at, now)
    {
      events := [];
      var ids := at.geofenceIds;
      var i := 0;
      while i < |ids|
        invariant 0 <= i <= |ids|
        invariant events == Dwells(ids[..i], repository.spatialIndex.fences, at, now)
      {
        assert ids[..i + 1][..i] == ids[..i];
        var g := repository.FindById(ids[i]);
        if g.Some? {
          events := events + [Stamp(DWELL, g.value, at, now)];
        }
        i := i + 1;
      }
      assert ids[..i] == ids;
    }
  }
}
