/**
 The repository: the only caller of the grid index.  It never files an id that
 is already live, and that discipline is what makes the index exact.
 */
module GeofenceRepository {
  import opened Wrappers
  import opened GeoUtils
  import opened Geofences
  import opened Sequences
  import opened GridIndex

  const DEFAULT_CELL_SIZE: Size := 0.01

  /** What a caller supplies; ids and timestamps are added by the repository. */
  datatype Draft = Draft(name: string, boundary: seq<Point>, center: Point)

  datatype Change = Create(id: Id, draft: Draft, now: int) | Update(id: Id, draft: Draft, now: int) | Delete(id: Id)

  function Built(id: Id, d: Draft, createdAt: int, updatedAt: int): Geofence {
    Geofence(id, d.name, d.boundary, d.center, createdAt, updatedAt)
  }

  function Apply(g: Grid, change: Change): Grid {
    match change
    case Create(id, d, now) => g.Add(Built(id, d, now, now))
    case Update(id, d, now) =>
      (match Get(g.fences, id)
       case None => g
       case Some(was) => g.Remove(id).Add(Built(id, d, was.createdAt, now)))
    case Delete(id) => g.Remove(id)
  }

  /** New ids are fresh. */
  ghost predicate Fresh(g: Grid, change: Change) {
    change.Create? ==> change.id !in Ids(g.fences)
  }

  lemma ApplyKeepsExact(g: Grid, change: Change)
    requires Exact(g) && Fresh(g, change)
    ensures Exact(Apply(g, change))
  {
    match change
    case Create(id, d, now) => AddKeepsExact(g, Built(id, d, now, now));
    case Update(id, d, now) =>
      if Get(g.fences, id).Some? {
        RemoveKeepsExact(g, id);
        DropKeepsKeys(g.fences, id);
        AddKeepsExact(g.Remove(id), Built(id, d, Get(g.fences, id).value.createdAt, now));
      }
    case Delete(id) => RemoveKeepsExact(g, id);
  }

  /** What a change does to the dictionary: an edited geofence keeps its creation
      time and moves to the end, a failed edit or delete changes nothing. */
  lemma ApplyToFences(g: Grid, change: Change)
    requires Exact(g) && Fresh(g, change)
    ensures change.Create? ==>
              Apply(g, change).fences == g.fences + [Built(change.id, change.draft, change.now, change.now)]
    ensures change.Update? && change.id in Ids(g.fences) ==>
              Apply(g, change).fences == Drop(g.fences, change.id)
                + [Built(change.id, change.draft, Get(g.fences, change.id).value.createdAt, change.now)]
    ensures change.Delete? ==> Apply(g, change).fences == Drop(g.fences, change.id)
    ensures !change.Create? && change.id !in Ids(g.fences) ==> Apply(g, change) == g
  {
    DropKeepsKeys(g.fences, change.id);
  }

  function AfterChanges(changes: seq<Change>): Grid {
    if changes == [] then
      Empty(DEFAULT_CELL_SIZE)
    else
      Apply(AfterChanges(changes[..|changes| - 1]), changes[|changes| - 1])
  }

  ghost predicate AllFresh(changes: seq<Change>) {
    changes == [] ||
    var (front, change) := (changes[..|changes| - 1], changes[|changes| - 1]);
    AllFresh(front) && Fresh(AfterChanges(front), change)
  }

  lemma {:induction false} RunIsExact(changes: seq<Change>)
    requires AllFresh(changes)
    ensures Exact(AfterChanges(changes))
  {
    if changes != [] {
      var (front, change) := (changes[..|changes| - 1], changes[|changes| - 1]);
      RunIsExact(front);
      ApplyKeepsExact(AfterChanges(front), change);
    }
  }

  // ----- what the dictionary tells

  /** The dictionary that the history alone prescribes: an edited geofence keeps the
      time of its creation and goes last. */
  ghost function FencesBy(changes: seq<Change>): seq<Geofence> {
    if changes == [] then []
    else
      var (front, change) := (FencesBy(changes[..|changes| - 1]), changes[|changes| - 1]);
      match change
      case Create(id, d, now) => front + [Geofence(id, d.name, d.boundary, d.center, now, now)]
      case Update(id, d, now) =>
        (match Get(front, id)
         case None => front
         case Some(was) => Drop(front, id) + [Geofence(id, d.name, d.boundary, d.center, was.createdAt, now)])
      case Delete(id) => Drop(front, id)
  }

  ghost predicate FreshBy(changes: seq<Change>) {
    changes == [] ||
    var (front, change) := (changes[..|changes| - 1], changes[|changes| - 1]);
    FreshBy(front) && (change.Create? ==> change.id !in Ids(FencesBy(front)))
  }

  lemma {:induction false} FencesAsPrescribed(changes: seq<Change>)
    requires AllFresh(changes)
    ensures AfterChanges(changes).fences == FencesBy(changes) && FreshBy(changes)
  {
    if changes != [] {
      var (front, change) := (changes[..|changes| - 1], changes[|changes| - 1]);
      FencesAsPrescribed(front);
      RunIsExact(front);
      OneChange(AfterChanges(front), change);
    }
  }

  lemma OneChange(g: Grid, change: Change)
    requires Exact(g) && Fresh(g, change)
    ensures Apply(g, change).fences ==
              match change
              case Create(id, d, now) => g.fences + [Geofence(id, d.name, d.boundary, d.center, now, now)]
              case Update(id, d, now) =>
                (match Get(g.fences, id)
                 case None => g.fences
                 case Some(was) => Drop(g.fences, id) + [Geofence(id, d.name, d.boundary, d.center, was.createdAt, now)])
              case Delete(id) => Drop(g.fences, id)
  {
    ApplyToFences(g, change);
    DropKeepsKeys(g.fences, change.id);
  }

  /** The change gave the geofence what it has. */
  ghost predicate Wrote(change: Change, g: Geofence) {
    && (change.Create? || change.Update?)
    && change.id == g.id && g.updatedAt == change.now
    && g.name == change.draft.name && g.boundary == change.draft.boundary && g.center == change.draft.center
  }

  ghost predicate Untouched(changes: seq<Change>, from: nat, id: Id) {
    forall k :: from <= k < |changes| ==> changes[k].id != id
  }

  ghost predicate Uncreated(changes: seq<Change>, from: nat, id: Id) {
    forall k :: from <= k < |changes| && changes[k].id == id ==> changes[k].Update?
  }

  lemma {:induction false} WrittenBy(changes: seq<Change>, g: Geofence) returns (wrote: nat)
    requires FreshBy(changes) && g in FencesBy(changes)
    ensures wrote < |changes| && Wrote(changes[wrote], g) && Untouched(changes, wrote + 1, g.id)
  {
    var (front, change) := (changes[..|changes| - 1], changes[|changes| - 1]);
    assert changes == front + [change];
    if change.id != g.id {
      wrote := WrittenBy(front, g);
      OneMoreChange(front, change, wrote + 1, g.id);
    } else {
      wrote := |front|;
    }
  }

  lemma {:induction false} CreatedBy(changes: seq<Change>, g: Geofence) returns (made: nat)
    requires FreshBy(changes) && g in FencesBy(changes)
    ensures made < |changes| && changes[made].Create? && changes[made].id == g.id && changes[made].now == g.createdAt
    ensures Uncreated(changes, made + 1, g.id)
  {
    var (front, change) := (changes[..|changes| - 1], changes[|changes| - 1]);
    assert changes == front + [change];
    if change.id == g.id && change.Create? {
      made := |front|;
    } else {
      made := CreatedBy(front, if change.id == g.id then Get(FencesBy(front), g.id).value else g);
      OneMoreChange(front, change, made + 1, g.id);
    }
  }

  lemma OneMoreChange(front: seq<Change>, change: Change, from: nat, id: Id)
    requires from <= |front|
    ensures Untouched(front, from, id) && change.id != id ==> Untouched(front + [change], from, id)
    ensures Uncreated(front, from, id) && (change.id == id ==> change.Update?) ==> Uncreated(front + [change], from, id)
    ensures from > 0 ==> (front + [change])[from - 1] == front[from - 1]
  {
  }

  /** Every live geofence has the name, boundary and centre of the last change that
      named its id, and was updated at that change's time; and it was created at the
      time of the creation that all later changes of its id are edits of. */
  lemma FencesTellHistory(changes: seq<Change>, g: Geofence) returns (made: nat, wrote: nat)
    requires AllFresh(changes) && g in AfterChanges(changes).fences
    ensures wrote < |changes| && Wrote(changes[wrote], g) && Untouched(changes, wrote + 1, g.id)
    ensures made < |changes| && changes[made].Create? && changes[made].id == g.id && changes[made].now == g.createdAt
    ensures Uncreated(changes, made + 1, g.id)
  {
    FencesAsPrescribed(changes);
    wrote := WrittenBy(changes, g);
    made := CreatedBy(changes, g);
  }

  /** In every state the repository can reach, the cells are exactly what the
      dictionary prescribes, a point query is the in-order filter of all
      geofences, and creating then deleting a geofence leaves no trace. */
  lemma EveryReachableIndex(changes: seq<Change>, p: Point, extra: Geofence)
    requires AllFresh(changes) && extra.id !in Ids(AfterChanges(changes).fences)
    ensures var g := AfterChanges(changes);
            && (forall c :: c in g.cells <==> exists f :: f in g.fences && c in Cover(g.cellSize, f))
            && (forall c :: c in g.cells ==> g.cells[c] == Filed(g.cellSize, g.fences, c))
            && g.Lookup(p) == Filter(g.fences, Contains(p))
            && g.Add(extra).Remove(extra.id) == g
  {
    var g := AfterChanges(changes);
    RunIsExact(changes);
    LookupIsFilter(g, p);
    RemoveUndoesAdd(g, extra);
    forall c ensures c in g.cells <==> exists f :: f in g.fences && c in Cover(g.cellSize, f)
             ensures c in g.cells ==> g.cells[c] == Filed(g.cellSize, g.fences, c)
    {
      ExactCell(g, c);
    }
  }

  lemma ExactCell(g: Grid, c: Cell)
    requires Exact(g)
    ensures c in g.cells <==> exists f :: f in g.fences && c in Cover(g.cellSize, f)
    ensures c in g.cells ==> g.cells[c] == Filed(g.cellSize, g.fences, c)
  {
    FiledMembers(g.cellSize, g.fences, c);
    assert IdsIn(g.cells, c) == Filed(g.cellSize, g.fences, c);
    if c in g.cells {
      assert g.cells[c][0] in Filed(g.cellSize, g.fences, c);
    }
    if f :| f in g.fences && c in Cover(g.cellSize, f) {
      assert f.id in Filed(g.cellSize, g.fences, c);
    }
  }

  lemma FoundIsTheOne(fences: seq<Geofence>, g: Geofence)
    requires Keyed(fences) && g in fences
    ensures Get(fences, g.id) == Some(g) && forall h :: h in fences && h.id == g.id ==> h == g
  {
    GetIsTheOne(fences, g);
    forall h | h in fences && h.id == g.id ensures h == g {
      GetIsTheOne(fences, h);
    }
  }

  class GeofenceRepository {
    const spatialIndex: GridIndex

    ghost function State(): Grid
      reads spatialIndex
    {
      spatialIndex.State()
    }

    ghost predicate Valid()
      reads spatialIndex
    {
      Exact(State())
    }

    constructor ()
      ensures fresh(spatialIndex) && Valid() && State() == Empty(DEFAULT_CELL_SIZE)
    {
      spatialIndex := new GridIndex(DEFAULT_CELL_SIZE);
    }

    method CreateGeofence(id: Id, draft: Draft, now: int) returns (g: Geofence)
      requires Valid() && id !in Ids(spatialIndex.fences)
      modifies spatialIndex
      ensures Valid() && g == Built(id, draft, now, now)
      ensures State() == Apply(old(State()), Create(id, draft, now))
    {
      g := Built(id, draft, now, now);
      AddKeepsExact(State(), g);
      spatialIndex.AddGeofence(g);
    }

    /** The first geofence with the id; in a valid repository there is no other. */
    method FindById(id: Id) returns (r: Option<Geofence>)
      ensures r.Some? <==> id in Ids(spatialIndex.fences)
      ensures r.Some? ==> r.value in spatialIndex.fences && r.value.id == id
      ensures Valid() && r.Some? ==> forall g :: g in spatialIndex.fences && g.id == id ==> g == r.value
      ensures Valid() ==> r == Get(spatialIndex.fences, id)
    {
      var all := spatialIndex.fences;
      var i := 0;
      while i < |all|
        invariant 0 <= i <= |all| && forall j :: 0 <= j < i ==> all[j].id != id
      {
        if all[i].id == id {
          if Valid() {
            FoundIsTheOne(all, all[i]);
          }
          return Some(all[i]);
        }
        i := i + 1;
      }
      assert Get(all, id).None?;
      r := None;
    }

    method FindByPoint(p: Point) returns (r: seq<Geofence>)
      ensures r == State().Lookup(p)
      ensures Valid() ==> r == Filter(spatialIndex.fences, Contains(p))
    {
      if Valid() {
        LookupIsFilter(State(), p);
      }
      r := spatialIndex.FindGeofencesContainingPoint(p);
    }

    method FindByRadius(search: Box, distance: Point -> real, radius: real) returns (r: seq<Geofence>)
      requires Valid()
      ensures Keyed(r)
      ensures forall f :: f in r <==>
                && f in spatialIndex.fences
                && Overlap(RectFor(spatialIndex.cellSize, f), RectOf(spatialIndex.cellSize, search))
                && distance(f.center) <= radius
    {
      WithinIsExact(State(), RectOf(spatialIndex.cellSize, search), distance, radius);
      r := spatialIndex.FindGeofencesWithinRadius(search, distance, radius);
    }

    method UpdateGeofence(id: Id, draft: Draft, now: int) returns (r: Option<Geofence>)
      requires Valid()
      modifies spatialIndex
      ensures Valid() && State() == Apply(old(State()), Update(id, draft, now))
      ensures r == match Get(old(spatialIndex.fences), id)
                   case None => None
                   case Some(was) => Some(Built(id, draft, was.createdAt, now))
    {
      ApplyKeepsExact(State(), Update(id, draft, now));
      var existing := FindById(id);
      if existing.None? {
        return None;
      }
      var removed := spatialIndex.RemoveGeofence(id);
      var g := Built(id, draft, existing.value.createdAt, now);
      spatialIndex.AddGeofence(g);
      r := Some(g);
    }

    method DeleteGeofence(id: Id) returns (deleted: bool)
      requires Valid()
      modifies spatialIndex
      ensures Valid() && State() == Apply(old(State()), Delete(id))
      ensures deleted <==> id in Ids(old(spatialIndex.fences))
    {
      RemoveKeepsExact(State(), id);
      deleted := spatialIndex.RemoveGeofence(id);
    }
  }
}
