/**
 The grid index: a dictionary of geofences plus, for every cell of a regular
 grid, the ordered set of ids of the geofences whose bounding box meets it.

 A `Grid` is the state of an index as a value; the class `GridIndex` changes its
 fields in place and each of its methods is specified by a function on `Grid`.
 */
module GridIndex {
  import opened Wrappers
  import opened GeoUtils
  import opened Geofences
  import opened Sequences
  import opened Numbers

  type Size = r: real | r > 0.0 witness 0.01

  /** A cell is named by its two indices; the text "lat:lng" is one such name. */
  datatype Cell = Cell(lat: int, lng: int)

  datatype Rect = Rect(minLat: int, minLng: int, maxLat: int, maxLng: int) {
    predicate Has(c: Cell) {
      minLat <= c.lat <= maxLat && minLng <= c.lng <= maxLng
    }
  }

  type Cells = map<Cell, seq<Id>>

  function Index(x: real, size: Size): int {
    (x / size).Floor
  }

  function CellOf(size: Size, p: Point): Cell {
    Cell(Index(p.latitude, size), Index(p.longitude, size))
  }

  function RectOf(size: Size, b: Box): Rect {
    Rect(Index(b.minLat, size), Index(b.minLng, size), Index(b.maxLat, size), Index(b.maxLng, size))
  }

  lemma IndexMonotone(x: real, y: real, size: Size)
    requires x <= y
    ensures Index(x, size) <= Index(y, size)
  {
    var (u, v) := (x / size, y / size);
    assert u * size == x && v * size == y;
    QuotientMonotone(u, v, size);
  }

  lemma QuotientMonotone(u: real, v: real, size: real)
    requires size > 0.0 && u * size <= v * size
    ensures u <= v
  {
    ProductSign(v - u, size);
    assert (v - u) * size == v * size - u * size;
  }

  /** The cells are squares of the cell size that tile the plane: a point is in the
      cell whose square, closed on its low sides, holds it. */
  lemma CellIsSquare(size: Size, p: Point, c: Cell)
    ensures c == CellOf(size, p)
            <==> && 0.0 <= p.latitude - c.lat as real * size < size
                 && 0.0 <= p.longitude - c.lng as real * size < size
  {
    IndexMeans(p.latitude, size, c.lat);
    IndexMeans(p.longitude, size, c.lng);
  }

  lemma IndexMeans(x: real, size: Size, i: int)
    ensures i == Index(x, size) <==> 0.0 <= x - i as real * size < size
  {
    var (q, low) := (x / size, i as real);
    assert q * size == x;
    var d := q - low;
    assert d * size == x - low * size;
    ProductOrder(0.0, d, size);
    ProductOrder(1.0, d, size);
    FloorMeans(q, i);
  }

  lemma ProductOrder(u: real, v: real, size: Size)
    ensures u * size <= v * size <==> u <= v
  {
    ProductSign(v - u, size);
    assert (v - u) * size == v * size - u * size;
  }

  lemma FloorMeans(q: real, i: int)
    ensures i == q.Floor <==> i as real <= q < (i + 1) as real
  {
  }

  lemma BoxToRect(size: Size, b: Box, p: Point)
    requires b.Has(p)
    ensures RectOf(size, b).Has(CellOf(size, p))
  {
    IndexMonotone(b.minLat, p.latitude, size);
    IndexMonotone(p.latitude, b.maxLat, size);
    IndexMonotone(b.minLng, p.longitude, size);
    IndexMonotone(p.longitude, b.maxLng, size);
  }

  function RectFor(size: Size, g: Geofence): Rect {
    RectOf(size, BoundingBox(g.boundary))
  }

  /** The cells a geofence is filed under. */
  function Cover(size: Size, g: Geofence): (s: set<Cell>)
    ensures forall c :: c in s <==> RectFor(size, g).Has(c)
  {
    RectCells(RectFor(size, g))
  }

  function RectCells(r: Rect): (s: set<Cell>)
    ensures forall c :: c in s <==> r.Has(c)
  {
    var s := set a, b | r.minLat <= a <= r.maxLat && r.minLng <= b <= r.maxLng :: Cell(a, b);
    assert forall c :: r.Has(c) ==> Cell(c.lat, c.lng) in s;
    s
  }

  // ----- ordered sets of ids

  function AddId(ids: seq<Id>, id: Id): seq<Id> {
    if id in ids then ids else ids + [id]
  }

  function RemoveId(ids: seq<Id>, id: Id): (r: seq<Id>)
    ensures forall x :: x in r <==> x in ids && x != id
    ensures Distinct(ids) ==> Distinct(r)
  {
    if ids == [] then
      []
    else
      var (rest, x) := (RemoveId(ids[..|ids| - 1], id), ids[|ids| - 1]);
      assert ids == ids[..|ids| - 1] + [x];
      DistinctSnoc(ids[..|ids| - 1], x);
      DistinctSnoc(rest, x);
      if x == id then rest else rest + [x]
  }

  function IdsIn(cells: Cells, c: Cell): seq<Id> {
    if c in cells then cells[c] else []
  }

  // ----- the state of an index, and what its operations do to it

  /** File an id under a set of cells, creating the cells that are missing. */
  function Fill(cells: Cells, id: Id, target: set<Cell>): Cells {
    map c | c in cells.Keys + target :: if c in target then AddId(IdsIn(cells, c), id) else cells[c]
  }

  /** Take an id out of every cell and drop the cells that become empty. */
  function Evict(cells: Cells, id: Id): Cells {
    map c | c in cells.Keys && RemoveId(cells[c], id) != [] :: RemoveId(cells[c], id)
  }

  datatype Grid = Grid(cellSize: Size, cells: Cells, fences: seq<Geofence>) {
    function Add(g: Geofence): Grid {
      Grid(cellSize, Fill(cells, g.id, Cover(cellSize, g)), Put(fences, g))
    }

    function Remove(id: Id): Grid {
      if id in Ids(fences) then Grid(cellSize, Evict(cells, id), Drop(fences, id)) else this
    }

    /** One cell is read, and its ids are tested one by one. */
    ghost function Lookup(p: Point): seq<Geofence> {
      Select(IdsIn(cells, CellOf(cellSize, p)), fences, Contains(p))
    }

    /** All cells of the search box are read. */
    function Within(search: Rect, distance: Point -> real, radius: real): seq<Geofence> {
      Select(Gather(cells, RowMajor(search, search.minLat, search.minLng)), fences, Near(distance, radius))
    }
  }

  ghost function Contains(p: Point): Geofence -> bool {
    (g: Geofence) => Inside(p, g.boundary)
  }

  function Near(distance: Point -> real, radius: real): Geofence -> bool {
    (g: Geofence) => distance(g.center) <= radius
  }

  // ----- any sequence of additions and removals

  /** One cell of an index: it lists every geofence whose rectangle has it, each
      id once, only live ids, and it is stored only if it lists some id. */
  ghost predicate CellCovers(g: Grid, c: Cell) {
    && (forall f :: f in g.fences && RectFor(g.cellSize, f).Has(c) ==> f.id in IdsIn(g.cells, c))
    && (forall id :: id in IdsIn(g.cells, c) ==> id in Ids(g.fences))
    && Distinct(IdsIn(g.cells, c))
    && (c in g.cells ==> g.cells[c] != [])
  }

  /** What every reachable index satisfies, even when an id is added twice. */
  ghost predicate Covering(g: Grid) {
    Keyed(g.fences) && forall c :: CellCovers(g, c)
  }

  lemma AddKeepsCovering(g: Grid, f: Geofence)
    requires Covering(g)
    ensures Covering(g.Add(f))
  {
    PutKeepsKeys(g.fences, f);
    PutKeepsIds(g.fences, f);
    forall c ensures CellCovers(g.Add(f), c) {
      assert CellCovers(g, c);
      DistinctSnoc(IdsIn(g.cells, c), f.id);
      FillAt(g.cells, f.id, Cover(g.cellSize, f), c);
    }
  }

  lemma PutKeepsIds(fences: seq<Geofence>, g: Geofence)
    ensures forall id :: id in Ids(Put(fences, g)) <==> id in Ids(fences) || id == g.id
  {
    IdsSnoc(fences, g);
  }

  lemma FillAt(cells: Cells, id: Id, target: set<Cell>, c: Cell)
    ensures IdsIn(Fill(cells, id, target), c) == if c in target then AddId(IdsIn(cells, c), id) else IdsIn(cells, c)
    ensures c in Fill(cells, id, target) <==> c in cells || c in target
  {
  }

  lemma RemoveKeepsCovering(g: Grid, id: Id)
    requires Covering(g)
    ensures Covering(g.Remove(id))
  {
    DropKeepsKeys(g.fences, id);
    forall c ensures CellCovers(g.Remove(id), c) {
      assert CellCovers(g, c);
    }
  }

  /** Reading one cell finds what scanning every geofence would find, each once. */
  lemma LookupIsScan(g: Grid, p: Point)
    requires Covering(g)
    ensures forall f :: f in g.Lookup(p) <==> f in g.fences && Inside(p, f.boundary)
    ensures Keyed(g.Lookup(p))
  {
    var c := CellOf(g.cellSize, p);
    assert CellCovers(g, c);
    SelectMembers(IdsIn(g.cells, c), g.fences, Contains(p));
    forall f | f in g.fences && Inside(p, f.boundary) ensures f.id in IdsIn(g.cells, c) {
      InsideIsInBox(p, f.boundary);
      BoxToRect(g.cellSize, BoundingBox(f.boundary), p);
    }
  }

  datatype Op = AddOp(g: Geofence) | RemoveOp(id: Id)

  function Empty(size: Size): Grid {
    Grid(size, map[], [])
  }

  function AfterOps(size: Size, ops: seq<Op>): Grid {
    if ops == [] then
      Empty(size)
    else
      var before := AfterOps(size, ops[..|ops| - 1]);
      match ops[|ops| - 1]
      case AddOp(g) => before.Add(g)
      case RemoveOp(id) => before.Remove(id)
  }

  lemma {:induction false} RunIsCovering(size: Size, ops: seq<Op>)
    ensures Covering(AfterOps(size, ops))
  {
    if ops != [] {
      RunIsCovering(size, ops[..|ops| - 1]);
      match ops[|ops| - 1]
      case AddOp(g) => AddKeepsCovering(AfterOps(size, ops[..|ops| - 1]), g);
      case RemoveOp(id) => RemoveKeepsCovering(AfterOps(size, ops[..|ops| - 1]), id);
    }
  }

  /** The main result for the bare index, over every history of calls. */
  lemma LookupIsScanAfterAnyRun(size: Size, ops: seq<Op>, p: Point)
    ensures var g := AfterOps(size, ops);
            && (forall f :: f in g.Lookup(p) <==> f in g.fences && Inside(p, f.boundary))
            && Keyed(g.Lookup(p))
  {
    RunIsCovering(size, ops);
    LookupIsScan(AfterOps(size, ops), p);
  }

  // ----- the exact index: when no live id is ever added again

  /** The ids filed under c, in dictionary order, read off the dictionary alone. */
  function Filed(size: Size, fences: seq<Geofence>, c: Cell): seq<Id> {
    if fences == [] then
      []
    else
      var (rest, g) := (Filed(size, fences[..|fences| - 1], c), fences[|fences| - 1]);
      if RectFor(size, g).Has(c) then rest + [g.id] else rest
  }

  /** The cells are a function of the dictionary: each cell lists exactly the
      geofences whose rectangle has it, in the dictionary's order, and no cell
      is stored without a geofence. */
  ghost predicate Exact(g: Grid) {
    && Keyed(g.fences)
    && (forall c :: c in g.cells ==> g.cells[c] != [])
    && (forall c :: IdsIn(g.cells, c) == Filed(g.cellSize, g.fences, c))
  }

  lemma {:induction false} FiledMeans(size: Size, fences: seq<Geofence>, c: Cell, id: Id)
    ensures id in Filed(size, fences, c) <==> exists g :: g in fences && g.id == id && RectFor(size, g).Has(c)
  {
    if fences != [] {
      var (front, g) := (fences[..|fences| - 1], fences[|fences| - 1]);
      FiledMeans(size, front, c, id);
      assert fences == front + [g];
    }
  }

  lemma {:induction false} FiledDistinct(size: Size, fences: seq<Geofence>, c: Cell)
    requires Keyed(fences)
    ensures Distinct(Filed(size, fences, c))
  {
    if fences != [] {
      var (front, g) := (fences[..|fences| - 1], fences[|fences| - 1]);
      assert fences == front + [g];
      KeyedSnoc(front, g);
      FiledDistinct(size, front, c);
      FiledMeans(size, front, c, g.id);
      DistinctSnoc(Filed(size, front, c), g.id);
    }
  }

  lemma {:induction false} FiledMembers(size: Size, fences: seq<Geofence>, c: Cell)
    ensures forall id :: id in Filed(size, fences, c) <==>
              exists g :: g in fences && g.id == id && RectFor(size, g).Has(c)
    ensures forall id :: id in Filed(size, fences, c) ==> id in Ids(fences)
    ensures Keyed(fences) ==> Distinct(Filed(size, fences, c))
  {
    forall id
      ensures id in Filed(size, fences, c) <==> exists g :: g in fences && g.id == id && RectFor(size, g).Has(c)
    {
      FiledMeans(size, fences, c, id);
    }
    if Keyed(fences) {
      FiledDistinct(size, fences, c);
    }
  }

  lemma {:induction false} FiledAfterDrop(size: Size, fences: seq<Geofence>, id: Id, c: Cell)
    ensures Filed(size, Drop(fences, id), c) == RemoveId(Filed(size, fences, c), id)
  {
    if fences != [] {
      var (front, g) := (fences[..|fences| - 1], fences[|fences| - 1]);
      FiledAfterDrop(size, front, id, c);
      var rest := Filed(size, front, c);
      assert (rest + [g.id])[..|rest|] == rest;
      var kept := Drop(front, id);
      assert (kept + [g])[..|kept|] == kept;
    }
  }

  lemma AddKeepsExact(g: Grid, f: Geofence)
    requires Exact(g) && f.id !in Ids(g.fences)
    ensures Exact(g.Add(f))
    ensures g.Add(f).fences == g.fences + [f]
  {
    PutKeepsKeys(g.fences, f);
    var after := g.Add(f);
    assert after.fences[..|g.fences|] == g.fences;
    forall c ensures IdsIn(after.cells, c) == Filed(g.cellSize, after.fences, c)
             ensures c in after.cells ==> after.cells[c] != []
    {
      FiledMembers(g.cellSize, g.fences, c);
      assert IdsIn(g.cells, c) == Filed(g.cellSize, g.fences, c);
      assert IdsIn(after.cells, c)
          == if RectFor(g.cellSize, f).Has(c) then AddId(IdsIn(g.cells, c), f.id) else IdsIn(g.cells, c);
    }
  }

  lemma RemoveKeepsExact(g: Grid, id: Id)
    requires Exact(g)
    ensures Exact(g.Remove(id))
  {
    DropKeepsKeys(g.fences, id);
    forall c ensures IdsIn(g.Remove(id).cells, c) == Filed(g.cellSize, g.Remove(id).fences, c) {
      assert IdsIn(g.cells, c) == Filed(g.cellSize, g.fences, c);
      FiledAfterDrop(g.cellSize, g.fences, id, c);
    }
  }

  lemma ExactIsCovering(g: Grid)
    requires Exact(g)
    ensures Covering(g)
  {
    forall c ensures CellCovers(g, c) {
      FiledMembers(g.cellSize, g.fences, c);
      assert IdsIn(g.cells, c) == Filed(g.cellSize, g.fences, c);
    }
  }

  /** Two exact indexes over the same dictionary are the same index. */
  lemma ExactIsUnique(a: Grid, b: Grid)
    requires Exact(a) && Exact(b) && a.cellSize == b.cellSize && a.fences == b.fences
    ensures a == b
  {
    forall c ensures (c in a.cells <==> c in b.cells) && IdsIn(a.cells, c) == IdsIn(b.cells, c) {
      assert IdsIn(a.cells, c) == Filed(a.cellSize, a.fences, c) == IdsIn(b.cells, c);
    }
    assert a.cells == b.cells;
  }

  /** Removing what was just added restores the index, cells included. */
  lemma RemoveUndoesAdd(g: Grid, f: Geofence)
    requires Exact(g) && f.id !in Ids(g.fences)
    ensures g.Add(f).Remove(f.id) == g
  {
    AddKeepsExact(g, f);
    RemoveKeepsExact(g.Add(f), f.id);
    DropKeepsKeys(g.fences, f.id);
    assert (g.fences + [f])[..|g.fences|] == g.fences;
    assert f.id in Ids(g.Add(f).fences);
    ExactIsUnique(g.Add(f).Remove(f.id), g);
  }

  lemma {:induction false} SelectOfFiled(size: Size, all: seq<Geofence>, fences: seq<Geofence>, c: Cell, keep: Geofence -> bool)
    requires Keyed(all) && fences <= all
    requires forall g :: g in fences && keep(g) ==> RectFor(size, g).Has(c)
    ensures Select(Filed(size, fences, c), all, keep) == Filter(fences, keep)
  {
    if fences != [] {
      var (front, g) := (fences[..|fences| - 1], fences[|fences| - 1]);
      SelectOfFiled(size, all, front, c, keep);
      GetIsTheOne(all, g);
      SelectSnoc(Filed(size, front, c), g.id, all, keep);
    }
  }

  /** In an exact index the lookup also answers in dictionary order. */
  lemma LookupIsFilter(g: Grid, p: Point)
    requires Exact(g)
    ensures g.Lookup(p) == Filter(g.fences, Contains(p))
  {
    var c := CellOf(g.cellSize, p);
    assert IdsIn(g.cells, c) == Filed(g.cellSize, g.fences, c);
    forall f | f in g.fences && Inside(p, f.boundary) ensures RectFor(g.cellSize, f).Has(c) {
      InsideIsInBox(p, f.boundary);
      BoxToRect(g.cellSize, BoundingBox(f.boundary), p);
    }
    SelectOfFiled(g.cellSize, g.fences, g.fences, c, Contains(p));
  }

  // ----- radius search

  /** The cells of a rectangle from (lat, lng) on, row by row. */
  function RowMajor(r: Rect, lat: int, lng: int): seq<Cell>
    decreases r.maxLat - lat, r.maxLng - lng
  {
    if lat > r.maxLat then []
    else if lng > r.maxLng then RowMajor(r, lat + 1, r.minLng)
    else [Cell(lat, lng)] + RowMajor(r, lat, lng + 1)
  }

  lemma {:induction false} RowMajorMembers(r: Rect, lat: int, lng: int)
    requires r.minLat <= lat && r.minLng <= lng
    ensures forall c :: c in RowMajor(r, lat, lng) <==> r.Has(c) && (c.lat > lat || (c.lat == lat && c.lng >= lng))
    decreases r.maxLat - lat, r.maxLng - lng
  {
    if lat <= r.maxLat {
      if lng > r.maxLng {
        RowMajorMembers(r, lat + 1, r.minLng);
      } else {
        RowMajorMembers(r, lat, lng + 1);
        var rest := RowMajor(r, lat, lng + 1);
        assert forall c :: c in [Cell(lat, lng)] + rest <==> c == Cell(lat, lng) || c in rest;
      }
    }
  }

  function AddAll(ids: seq<Id>, more: seq<Id>): (r: seq<Id>)
    ensures forall x :: x in r <==> x in ids || x in more
    ensures Distinct(ids) ==> Distinct(r)
    decreases |more|
  {
    if more == [] then
      ids
    else
      assert more == [more[0]] + more[1..];
      AddAll(AddId(ids, more[0]), more[1..])
  }

  /** The ids met in a list of cells, in order of first sight. */
  function Gather(cells: Cells, cs: seq<Cell>): (r: seq<Id>)
    ensures Distinct(r)
    ensures forall x :: x in r <==> exists c :: c in cs && x in IdsIn(cells, c)
  {
    if cs == [] then
      []
    else
      var (front, c) := (cs[..|cs| - 1], cs[|cs| - 1]);
      assert cs == front + [c];
      AddAll(Gather(cells, front), IdsIn(cells, c))
  }

  ghost predicate Overlap(a: Rect, b: Rect) {
    exists c :: a.Has(c) && b.Has(c)
  }

  /** Radius search returns, each once, exactly the geofences whose rectangle
      meets the search rectangle and whose centre is near enough. */
  lemma WithinIsExact(g: Grid, search: Rect, distance: Point -> real, radius: real)
    requires Exact(g)
    ensures forall f :: f in g.Within(search, distance, radius) <==>
              f in g.fences && Overlap(RectFor(g.cellSize, f), search) && distance(f.center) <= radius
    ensures Keyed(g.Within(search, distance, radius))
  {
    var cs := RowMajor(search, search.minLat, search.minLng);
    SelectMembers(Gather(g.cells, cs), g.fences, Near(distance, radius));
    forall f | f in g.fences
      ensures f.id in Gather(g.cells, cs) <==> Overlap(RectFor(g.cellSize, f), search)
    {
      forall c ensures f.id in IdsIn(g.cells, c) <==> RectFor(g.cellSize, f).Has(c) {
        FiledMembers(g.cellSize, g.fences, c);
        assert IdsIn(g.cells, c) == Filed(g.cellSize, g.fences, c);
        forall h | h in g.fences && h.id == f.id ensures h == f {
          GetIsTheOne(g.fences, f);
          GetIsTheOne(g.fences, h);
        }
      }
      RowMajorMembers(search, search.minLat, search.minLng);
      assert forall c :: c in cs <==> search.Has(c);
    }
  }

  /** The cells that a history files an id under: those of every rectangle it was
      added with since it was last removed. */
  predicate FiledUnder(size: Size, ops: seq<Op>, id: Id, c: Cell) {
    ops != [] &&
    var front := ops[..|ops| - 1];
    match ops[|ops| - 1]
    case AddOp(g) => FiledUnder(size, front, id, c) || (g.id == id && RectFor(size, g).Has(c))
    case RemoveOp(x) => FiledUnder(size, front, id, c) && x != id
  }

  lemma {:induction false} CellsAsFiled(size: Size, ops: seq<Op>, id: Id, c: Cell)
    ensures id in IdsIn(AfterOps(size, ops).cells, c) <==> FiledUnder(size, ops, id, c)
  {
    if ops != [] {
      var front := ops[..|ops| - 1];
      var before := AfterOps(size, front);
      CellsAsFiled(size, front, id, c);
      match ops[|ops| - 1]
      case AddOp(g) =>
        FillAt(before.cells, g.id, Cover(before.cellSize, g), c);
        SizeStays(size, front);
      case RemoveOp(x) =>
        RunIsCovering(size, front);
        assert CellCovers(before, c);
    }
  }

  lemma {:induction false} SizeStays(size: Size, ops: seq<Op>)
    ensures AfterOps(size, ops).cellSize == size
  {
    if ops != [] {
      SizeStays(size, ops[..|ops| - 1]);
    }
  }

  /** Radius search of the bare index, over every history of calls: each once,
      exactly the stored geofences with a near centre whose id is filed under some
      cell of the search, also when an id was added more than once. */
  lemma WithinAfterAnyRun(size: Size, ops: seq<Op>, search: Rect, distance: Point -> real, radius: real)
    ensures var g := AfterOps(size, ops);
            && (forall f :: f in g.Within(search, distance, radius) <==>
                  && f in g.fences && distance(f.center) <= radius
                  && exists c :: search.Has(c) && FiledUnder(size, ops, f.id, c))
            && Keyed(g.Within(search, distance, radius))
  {
    var g := AfterOps(size, ops);
    var cs := RowMajor(search, search.minLat, search.minLng);
    RunIsCovering(size, ops);
    RowMajorMembers(search, search.minLat, search.minLng);
    SelectMembers(Gather(g.cells, cs), g.fences, Near(distance, radius));
    forall f | f in g.fences
      ensures f.id in Gather(g.cells, cs) <==> exists c :: search.Has(c) && FiledUnder(size, ops, f.id, c)
    {
      forall c ensures f.id in IdsIn(g.cells, c) <==> FiledUnder(size, ops, f.id, c) {
        CellsAsFiled(size, ops, f.id, c);
      }
      assert forall c :: c in cs <==> search.Has(c);
    }
  }

  /** No geofence in range is missed if its centre lies in its own box and in the
      search box. */
  lemma WithinMissesNoCentre(g: Grid, box: Box, distance: Point -> real, radius: real, f: Geofence)
    requires Exact(g) && f in g.fences && distance(f.center) <= radius
    requires BoundingBox(f.boundary).Has(f.center) && box.Has(f.center)
    ensures f in g.Within(RectOf(g.cellSize, box), distance, radius)
  {
    WithinIsExact(g, RectOf(g.cellSize, box), distance, radius);
    BoxToRect(g.cellSize, BoundingBox(f.boundary), f.center);
    BoxToRect(g.cellSize, box, f.center);
    assert Overlap(RectFor(g.cellSize, f), RectOf(g.cellSize, box));
  }

  // ----- the class

  lemma FillStep(cells: Cells, id: Id, s: set<Cell>, c: Cell)
    requires c !in s
    ensures Fill(Fill(cells, id, s), id, {c}) == Fill(cells, id, s + {c})
  {
  }

  function Stored(cells: Cells, cs: seq<Cell>): seq<Cell> {
    if cs == [] then []
    else if cs[0] in cells then [cs[0]] + Stored(cells, cs[1..])
    else Stored(cells, cs[1..])
  }

  lemma StoredStep(cells: Cells, c: Cell, cs: seq<Cell>)
    ensures Stored(cells, [c] + cs) == (if c in cells then [c] else []) + Stored(cells, cs)
  {
    assert ([c] + cs)[1..] == cs;
  }

  lemma {:induction false} StoredSnoc(cells: Cells, cs: seq<Cell>, c: Cell)
    ensures Stored(cells, cs + [c]) == Stored(cells, cs) + if c in cells then [c] else []
  {
    if cs != [] {
      StoredSnoc(cells, cs[1..], c);
      assert (cs + [c])[1..] == cs[1..] + [c];
    }
  }

  /** Cells that are not stored add no id. */
  lemma {:induction false} GatherSkipsMissing(cells: Cells, cs: seq<Cell>)
    ensures Gather(cells, Stored(cells, cs)) == Gather(cells, cs)
  {
    if cs != [] {
      var (front, c) := (cs[..|cs| - 1], cs[|cs| - 1]);
      assert cs == front + [c];
      GatherSkipsMissing(cells, front);
      StoredSnoc(cells, front, c);
      var s := Stored(cells, front);
      if c in cells {
        assert (s + [c])[..|s|] == s;
        assert Stored(cells, cs) == s + [c];
      } else {
        assert Stored(cells, cs) == s;
      }
    }
  }

  class GridIndex {
    var cells: Cells
    var fences: seq<Geofence>
    const cellSize: Size

    ghost function State(): Grid
      reads this
    {
      Grid(cellSize, cells, fences)
    }

    constructor (cellSize: Size)
      ensures State() == Empty(cellSize)
    {
      this.cellSize := cellSize;
      cells, fences := map[], [];
    }

    method AddGeofence(g: Geofence)
      modifies this
      ensures State() == old(State()).Add(g)
    {
      fences := Put(fences, g);
      var points := g.boundary;
      var box := Box(90.0, 180.0, -90.0, -180.0);
      var n := 0;
      while n < |points|
        invariant 0 <= n <= |points|
        invariant box == BoundingBox(points[..n])
      {
        var p := points[n];
        box := Box(MinReal(box.minLat, p.latitude), MinReal(box.minLng, p.longitude),
                   MaxReal(box.maxLat, p.latitude), MaxReal(box.maxLng, p.longitude));
        n := n + 1;
        assert points[..n][..n - 1] == points[..n - 1];
      }
      assert points[..n] == points;
      AddGeofenceToCells(g.id, RectOf(cellSize, box));
    }

    method AddGeofenceToCells(id: Id, r: Rect)
      modifies this`cells
      ensures cells == Fill(old(cells), id, RectCells(r))
    {
      ghost var done: set<Cell> := {};
      var lat := r.minLat;
      while lat <= r.maxLat
        invariant r.minLat <= lat
        invariant forall c :: c in done <==> r.Has(c) && c.lat < lat
        invariant cells == Fill(old(cells), id, done)
        decreases r.maxLat - lat
      {
        var lng := r.minLng;
        while lng <= r.maxLng
          invariant r.minLng <= lng
          invariant forall c :: c in done <==> r.Has(c) && (c.lat < lat || (c.lat == lat && c.lng < lng))
          invariant cells == Fill(old(cells), id, done)
          decreases r.maxLng - lng
        {
          var c := Cell(lat, lng);
          FillStep(old(cells), id, done, c);
          if c !in cells {
            cells := cells[c := []];
          }
          cells := cells[c := AddId(cells[c], id)];
          done := done + {c};
          lng := lng + 1;
        }
        lat := lat + 1;
      }
      assert done == RectCells(r);
    }

    method RemoveGeofence(id: Id) returns (removed: bool)
      modifies this
      ensures removed <==> id in Ids(old(fences))
      ensures State() == old(State()).Remove(id)
    {
      if Get(fences, id).None? {
        return false;
      }
      var todo := cells.Keys;
      while todo != {}
        invariant cells.Keys == old(cells).Keys && todo <= cells.Keys
        invariant forall c :: c in cells ==> cells[c] == if c in todo then old(cells)[c] else RemoveId(old(cells)[c], id)
        invariant fences == old(fences)
      {
        var c :| c in todo;
        cells := cells[c := RemoveId(cells[c], id)];
        todo := todo - {c};
      }
      todo := cells.Keys;
      while todo != {}
        invariant todo <= cells.Keys <= old(cells).Keys
        invariant forall c :: c in old(cells) ==> (c in cells <==> c in todo || RemoveId(old(cells)[c], id) != [])
        invariant forall c :: c in cells ==> cells[c] == RemoveId(old(cells)[c], id)
        invariant fences == old(fences)
      {
        var c :| c in todo;
        if cells[c] == [] {
          cells := cells - {c};
        }
        todo := todo - {c};
      }
      assert cells == Evict(old(cells), id);
      fences := Drop(fences, id);
      removed := true;
    }

    method FindGeofencesContainingPoint(p: Point) returns (result: seq<Geofence>)
      ensures result == State().Lookup(p)
    {
      var c := CellOf(cellSize, p);
      if c !in cells {
        return [];
      }
      var ids := cells[c];
      result := [];
      var i := 0;
      while i < |ids|
        invariant 0 <= i <= |ids|
        invariant result == Select(ids[..i], fences, Contains(p))
      {
        assert ids[..i + 1][..i] == ids[..i];
        var g := Get(fences, ids[i]);
        if g.Some? {
          var inside := IsPointInPolygon(p, g.value.boundary);
          if inside {
            result := result + [g.value];
          }
        }
        i := i + 1;
      }
      assert ids[..i] == ids;
    }

    method GetCellsInBoundingBox(r: Rect) returns (result: seq<Cell>)
      ensures result == Stored(cells, RowMajor(r, r.minLat, r.minLng))
    {
      result := [];
      ghost var all := Stored(cells, RowMajor(r, r.minLat, r.minLng));
      var lat := r.minLat;
      while lat <= r.maxLat
        invariant r.minLat <= lat
        invariant result + Stored(cells, RowMajor(r, lat, r.minLng)) == all
        decreases r.maxLat - lat
      {
        var lng := r.minLng;
        while lng <= r.maxLng
          invariant r.minLng <= lng
          invariant result + Stored(cells, RowMajor(r, lat, lng)) == all
          decreases r.maxLng - lng
        {
          var c := Cell(lat, lng);
          StoredStep(cells, c, RowMajor(r, lat, lng + 1));
          if c in cells {
            result := result + [c];
          }
          lng := lng + 1;
        }
        lat := lat + 1;
      }
    }

    method GatherIds(candidates: seq<Cell>) returns (ids: seq<Id>)
      ensures ids == Gather(cells, candidates)
    {
      ids := [];
      var i := 0;
      while i < |candidates|
        invariant 0 <= i <= |candidates|
        invariant ids == Gather(cells, candidates[..i])
      {
        assert candidates[..i + 1][..i] == candidates[..i];
        ids := AddAll(ids, IdsIn(cells, candidates[i]));
        i := i + 1;
      }
      assert candidates[..i] == candidates;
    }

    method FindGeofencesWithinRadius(search: Box, distance: Point -> real, radius: real) returns (result: seq<Geofence>)
      ensures result == State().Within(RectOf(cellSize, search), distance, radius)
    {
      var r := RectOf(cellSize, search);
      var candidates := GetCellsInBoundingBox(r);
      GatherSkipsMissing(cells, RowMajor(r, r.minLat, r.minLng));
      var ids := GatherIds(candidates);
      result := SelectNear(ids, distance, radius);
    }

    method SelectNear(ids: seq<Id>, distance: Point -> real, radius: real) returns (result: seq<Geofence>)
      ensures result == Select(ids, fences, Near(distance, radius))
    {
      result := [];
      var i := 0;
      while i < |ids|
        invariant 0 <= i <= |ids|
        invariant result == Select(ids[..i], fences, Near(distance, radius))
      {
        assert ids[..i + 1][..i] == ids[..i];
        var g := Get(fences, ids[i]);
        if g.Some? && distance(g.value.center) <= radius {
          result := result + [g.value];
        }
        i := i + 1;
      }
      assert ids[..i] == ids;
    }
  }
}
