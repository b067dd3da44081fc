/**
 What the event service must hold and emit, told by the history of calls alone:
 the geofences there are, where each entity was last seen, and every event.
 */
module GeofenceHistory {
  import opened Wrappers
  import opened GeoUtils
  import opened Geofences
  import opened GridIndex
  import opened GeofenceRepository
  import opened GeofenceEvents

  ghost function ChangesOf(steps: seq<Step>): seq<Change> {
    if steps == [] then []
    else
      var (front, s) := (ChangesOf(steps[..|steps| - 1]), steps[|steps| - 1]);
      if s.Edit? then front + [s.change] else front
  }

  /** The geofences that the edits prescribe. */
  ghost function FencesNow(steps: seq<Step>): seq<Geofence> {
    FencesBy(ChangesOf(steps))
  }

  /** Where an entity was last seen, unless it was cleared since, and the geofences
      that contained it at that moment. */
  ghost function Seen(steps: seq<Step>, k: Key): Option<EntityLocation> {
    if steps == [] then None
    else
      var (front, s) := (steps[..|steps| - 1], steps[|steps| - 1]);
      match s
      case Move(entityType, entityId, location, now) =>
        if entityType + ":" + entityId == k then
          Some(EntityLocation(entityId, entityType, location, now, Ids(Filter(FencesNow(front), Contains(location)))))
        else Seen(front, k)
      case Clear(entityType, entityId) => if entityType + ":" + entityId == k then None else Seen(front, k)
      case Edit(_) => Seen(front, k)
      case CheckDwell(_) => Seen(front, k)
  }

  ghost predicate WasIn(steps: seq<Step>, k: Key, id: Id) {
    Seen(steps, k).Some? && id in Seen(steps, k).value.geofenceIds
  }

  /** The event that a call must emit, after the calls before it. */
  ghost predicate Announces(before: seq<Step>, s: Step, k: Key, e: Event) {
    && e.geofence in FencesNow(before)
    && match s
       case Move(entityType, entityId, location, now) =>
         && k == entityType + ":" + entityId
         && e == Event(e.kind, e.geofence, entityId, entityType, location, now)
         && (match e.kind
             case ENTER => Inside(location, e.geofence.boundary) && !WasIn(before, k, e.geofence.id)
             case EXIT => !Inside(location, e.geofence.boundary) && WasIn(before, k, e.geofence.id)
             case DWELL => false)
       case CheckDwell(now) =>
         && WasIn(before, k, e.geofence.id)
         && var at := Seen(before, k).value;
            && now - at.timestamp >= 60000
            && e == Event(DWELL, e.geofence, at.entityId, at.entityType, at.location, now)
       case Edit(_) => false
       case Clear(_, _) => false
  }

  lemma {:induction false} IndexTellsEdits(steps: seq<Step>)
    requires ValidRun(steps)
    ensures AllFresh(ChangesOf(steps)) && AfterSteps(steps).grid == AfterChanges(ChangesOf(steps))
  {
    if steps != [] {
      var (front, s) := (steps[..|steps| - 1], steps[|steps| - 1]);
      var changes := ChangesOf(front);
      IndexTellsEdits(front);
      RunIsGood(front);
      if s.Edit? {
        assert (changes + [s.change])[..|changes|] == changes;
      }
    }
  }

  lemma FencesTellEdits(steps: seq<Step>)
    requires ValidRun(steps)
    ensures Keyed(FencesNow(steps)) && AfterSteps(steps).grid.fences == FencesNow(steps)
  {
    IndexTellsEdits(steps);
    FencesAsPrescribed(ChangesOf(steps));
    RunIsExact(ChangesOf(steps));
  }

  lemma LookupTellsEdits(steps: seq<Step>, p: Point)
    requires ValidRun(steps)
    ensures AfterSteps(steps).grid.Lookup(p) == Filter(FencesNow(steps), Contains(p))
  {
    FencesTellEdits(steps);
    RunIsGood(steps);
    LookupIsFilter(AfterSteps(steps).grid, p);
  }

  ghost function Stored(w: World, k: Key): Option<EntityLocation> {
    if k in w.entities then Some(w.entities[k]) else None
  }

  lemma {:induction false} EntitiesTellMoves(steps: seq<Step>, k: Key)
    requires ValidRun(steps)
    ensures Stored(AfterSteps(steps), k) == Seen(steps, k)
  {
    if steps != [] {
      var (front, s) := (steps[..|steps| - 1], steps[|steps| - 1]);
      EntitiesTellMoves(front, k);
      if s.Move? {
        LookupTellsEdits(front, s.location);
      }
    }
  }

  /** For every run: the index is the one its edits lead to, and an entity is stored
      exactly when it was seen and not cleared since, as it was last seen. */
  lemma TablesTellHistory(steps: seq<Step>, k: Key)
    requires ValidRun(steps)
    ensures var w := AfterSteps(steps);
            && w.grid == AfterChanges(ChangesOf(steps)) && w.grid.fences == FencesNow(steps)
            && (k in w.entities <==> Seen(steps, k).Some?)
            && (k in w.entities ==> w.entities[k] == Seen(steps, k).value)
  {
    IndexTellsEdits(steps);
    FencesTellEdits(steps);
    EntitiesTellMoves(steps, k);
  }

  /** The events of one call, after any run. */
  lemma CallAnnounces(before: seq<Step>, s: Step, k: Key, e: Event)
    requires ValidRun(before)
    ensures AfterSteps(before).history <= Next(AfterSteps(before), s).history
    ensures Emitted(k, e) in Next(AfterSteps(before), s).history
            <==> Emitted(k, e) in AfterSteps(before).history || Announces(before, s, k, e)
  {
    var w := AfterSteps(before);
    FencesTellEdits(before);
    EntitiesTellMoves(before, k);
    RunIsGood(before);
    if e.geofence in w.grid.fences {
      GetIsTheOne(w.grid.fences, e.geofence);
    }
    match s
    case Move(entityType, entityId, _, _) =>
      MoveEmitsExactly(w, s, e);
      EmitMembers(KeyOf(entityType, entityId), MoveEvents(w, s), k, e);
    case CheckDwell(now) =>
      DwellEmitsExactly(w.order, w.entities, w.grid.fences, now, k, e);
    case Edit(_) =>
    case Clear(_, _) =>
  }

  /** Some call of the run must emit it. */
  ghost predicate Announced(steps: seq<Step>, k: Key, e: Event) {
    steps != [] && (Announced(steps[..|steps| - 1], k, e) || Announces(steps[..|steps| - 1], steps[|steps| - 1], k, e))
  }

  /** For every run the events emitted are exactly those that its calls must emit. */
  lemma {:induction false} EveryEventIsAnnounced(steps: seq<Step>, k: Key, e: Event)
    requires ValidRun(steps)
    ensures Emitted(k, e) in AfterSteps(steps).history <==> Announced(steps, k, e)
  {
    if steps != [] {
      var (front, s) := (steps[..|steps| - 1], steps[|steps| - 1]);
      EveryEventIsAnnounced(front, k, e);
      CallAnnounces(front, s, k, e);
    }
  }
}
