/**
 The geofence record and the insertion-ordered dictionary of geofences that the
 index keeps.  The dictionary is always keyed by a geofence's own id, so it is
 a sequence of geofences with distinct ids, in iteration order.
 */
module Geofences {
  import opened Wrappers
  import opened GeoUtils
  import opened Sequences

  type Id = string

  datatype Geofence = Geofence(id: Id, name: string, boundary: seq<Point>, center: Point, createdAt: int, updatedAt: int)

  function Ids(fences: seq<Geofence>): (ids: seq<Id>)
    ensures |ids| == |fences|
    ensures forall g :: g in fences ==> g.id in ids
  {
    if fences == [] then [] else Ids(fences[..|fences| - 1]) + [fences[|fences| - 1].id]
  }

  lemma IdsSnoc(fences: seq<Geofence>, g: Geofence)
    ensures Ids(fences + [g]) == Ids(fences) + [g.id]
  {
    assert (fences + [g])[..|fences|] == fences;
  }

  ghost predicate Keyed(fences: seq<Geofence>) {
    Distinct(Ids(fences))
  }

  lemma KeyedSnoc(fences: seq<Geofence>, g: Geofence)
    ensures Keyed(fences + [g]) <==> Keyed(fences) && g.id !in Ids(fences)
  {
    IdsSnoc(fences, g);
    DistinctSnoc(Ids(fences), g.id);
  }

  function Get(fences: seq<Geofence>, id: Id): (r: Option<Geofence>)
    ensures r.Some? <==> id in Ids(fences)
    ensures r.Some? ==> r.value in fences && r.value.id == id
  {
    if fences == [] then
      None
    else
      var g := fences[|fences| - 1];
      if g.id == id then Some(g) else Get(fences[..|fences| - 1], id)
  }

  lemma {:induction false} GetIsTheOne(fences: seq<Geofence>, g: Geofence)
    requires Keyed(fences) && g in fences
    ensures Get(fences, g.id) == Some(g)
  {
    var (front, last) := (fences[..|fences| - 1], fences[|fences| - 1]);
    assert fences == front + [last];
    KeyedSnoc(front, last);
    if g in front {
      GetIsTheOne(front, g);
    }
  }

  /** `Map.set`: an existing key keeps its place, a new one goes last. */
  function Put(fences: seq<Geofence>, g: Geofence): seq<Geofence> {
    if g.id in Ids(fences) then Replace(fences, g) else fences + [g]
  }

  function Replace(fences: seq<Geofence>, g: Geofence): (r: seq<Geofence>)
    ensures Ids(r) == Ids(fences)
    ensures forall h :: h in r <==> (h == g && g.id in Ids(fences)) || (h in fences && h.id != g.id)
  {
    if fences == [] then
      []
    else
      var (front, last) := (fences[..|fences| - 1], fences[|fences| - 1]);
      assert fences == front + [last];
      var r := Replace(front, g);
      IdsSnoc(r, last);
      IdsSnoc(r, g);
      r + [if last.id == g.id then g else last]
  }

  lemma PutKeepsKeys(fences: seq<Geofence>, g: Geofence)
    requires Keyed(fences)
    ensures Keyed(Put(fences, g)) && Get(Put(fences, g), g.id) == Some(g)
    ensures forall h :: h in Put(fences, g) <==> h == g || (h in fences && h.id != g.id)
  {
    KeyedSnoc(fences, g);
    assert g in fences + [g];
    GetIsTheOne(Put(fences, g), g);
  }

  /** `Map.delete`. */
  function Drop(fences: seq<Geofence>, id: Id): (r: seq<Geofence>)
    ensures forall g :: g in r <==> g in fences && g.id != id
  {
    if fences == [] then
      []
    else
      var (rest, g) := (Drop(fences[..|fences| - 1], id), fences[|fences| - 1]);
      assert fences == fences[..|fences| - 1] + [g];
      if g.id == id then rest else rest + [g]
  }

  lemma {:induction false} DropAbsent(fences: seq<Geofence>, id: Id)
    requires id !in Ids(fences)
    ensures Drop(fences, id) == fences
  {
    if fences != [] {
      DropAbsent(fences[..|fences| - 1], id);
    }
  }

  lemma {:induction false} DropMembers(fences: seq<Geofence>, id: Id, x: Id)
    ensures x in Ids(Drop(fences, id)) <==> x in Ids(fences) && x != id
  {
    if fences != [] {
      var (front, g) := (fences[..|fences| - 1], fences[|fences| - 1]);
      DropMembers(front, id, x);
      IdsSnoc(Drop(front, id), g);
    }
  }

  lemma {:induction false} DropKeyed(fences: seq<Geofence>, id: Id)
    requires Keyed(fences)
    ensures Keyed(Drop(fences, id))
  {
    if fences != [] {
      var (front, g) := (fences[..|fences| - 1], fences[|fences| - 1]);
      assert fences == front + [g];
      KeyedSnoc(front, g);
      DropKeyed(front, id);
      DropMembers(front, id, g.id);
      KeyedSnoc(Drop(front, id), g);
    }
  }

  lemma {:induction false} DropKeepsKeys(fences: seq<Geofence>, id: Id)
    ensures Keyed(fences) ==> Keyed(Drop(fences, id))
    ensures id !in Ids(fences) ==> Drop(fences, id) == fences
    ensures forall x :: x in Ids(Drop(fences, id)) <==> x in Ids(fences) && x != id
  {
    if Keyed(fences) {
      DropKeyed(fences, id);
    }
    if id !in Ids(fences) {
      DropAbsent(fences, id);
    }
    forall x ensures x in Ids(Drop(fences, id)) <==> x in Ids(fences) && x != id {
      DropMembers(fences, id, x);
    }
  }

  /** Filtering in iteration order. */
  function Filter(fences: seq<Geofence>, keep: Geofence -> bool): (r: seq<Geofence>)
    ensures forall g :: g in r <==> g in fences && keep(g)
  {
    if fences == [] then
      []
    else
      var (rest, g) := (Filter(fences[..|fences| - 1], keep), fences[|fences| - 1]);
      assert fences == fences[..|fences| - 1] + [g];
      if keep(g) then rest + [g] else rest
  }

  /** The geofences a list of ids names, in that order, that pass a test. */
  function Select(ids: seq<Id>, fences: seq<Geofence>, keep: Geofence -> bool): seq<Geofence> {
    if ids == [] then
      []
    else
      var (rest, g) := (Select(ids[..|ids| - 1], fences, keep), Get(fences, ids[|ids| - 1]));
      if g.Some? && keep(g.value) then rest + [g.value] else rest
  }

  lemma {:induction false} SelectMembers(ids: seq<Id>, fences: seq<Geofence>, keep: Geofence -> bool)
    requires Keyed(fences)
    ensures forall g :: g in Select(ids, fences, keep) <==> g in fences && g.id in ids && keep(g)
    ensures forall id :: id in Ids(Select(ids, fences, keep)) ==> id in ids
    ensures Distinct(ids) ==> Keyed(Select(ids, fences, keep))
  {
    if ids != [] {
      var (front, id) := (ids[..|ids| - 1], ids[|ids| - 1]);
      assert ids == front + [id];
      SelectMembers(front, fences, keep);
      SelectSnoc(front, id, fences, keep);
      var (rest, g) := (Select(front, fences, keep), Get(fences, id));
      if g.Some? {
        KeyedSnoc(rest, g.value);
        IdsSnoc(rest, g.value);
        forall h | h in fences && h.id == id ensures h == g.value {
          GetIsTheOne(fences, h);
        }
      }
    }
  }

  lemma SelectSnoc(ids: seq<Id>, id: Id, fences: seq<Geofence>, keep: Geofence -> bool)
    ensures Select(ids + [id], fences, keep)
            == Select(ids, fences, keep)
               + if Get(fences, id).Some? && keep(Get(fences, id).value) then [Get(fences, id).value] else []
  {
    assert (ids + [id])[..|ids|] == ids;
  }
}
