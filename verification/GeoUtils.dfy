/**
 Planar geometry behind the geofence index: ray casting, and the reason a
 bounding box may be used to pre-select candidates.  Coordinates are reals.
 */
module GeoUtils {
  import opened Numbers


  datatype Point = Point(latitude: real, longitude: real)

  datatype Box = Box(minLat: real, minLng: real, maxLat: real, maxLng: real) {
    predicate Has(p: Point) {
      minLat <= p.latitude <= maxLat && minLng <= p.longitude <= maxLng
    }
  }

  // ----- ray casting

  /** The vertex that comes before vertex i on a closed ring of n vertices. */
  function Prev(i: nat, n: nat): (j: nat)
    requires i < n
    ensures j < n
  {
    if i == 0 then n - 1 else i - 1
  }

  predicate Above(p: Point, v: Point) {
    v.latitude > p.latitude
  }

  predicate Straddles(p: Point, a: Point, b: Point) {
    Above(p, a) != Above(p, b)
  }

  /** The edge test, with the arithmetic of the code. */
  predicate Crosses(p: Point, a: Point, b: Point) {
    && Straddles(p, a, b)
    && p.longitude < (b.longitude - a.longitude) * (p.latitude - a.latitude) / (b.latitude - a.latitude) + a.longitude
  }

  /** The same test without the formula: the ray that leaves p eastwards meets
      the edge, whose two ends lie on different sides of the ray's parallel. */
  ghost predicate RayMeetsEdge(p: Point, a: Point, b: Point) {
    && Straddles(p, a, b)
    && exists t: real :: 0.0 <= t <= 1.0 && OnEdgeEastOf(p, a, b, t)
  }

  ghost predicate OnEdgeEastOf(p: Point, a: Point, b: Point, t: real) {
    && a.latitude + t * (b.latitude - a.latitude) == p.latitude
    && p.longitude < a.longitude + t * (b.longitude - a.longitude)
  }

  /** Where on the edge (0 at a, 1 at b) the parallel of p is met. */
  function Fraction(p: Point, a: Point, b: Point): (t: real)
    requires Straddles(p, a, b)
    ensures 0.0 <= t <= 1.0
    ensures a.latitude + t * (b.latitude - a.latitude) == p.latitude
  {
    var (n, d) := (p.latitude - a.latitude, b.latitude - a.latitude);
    QuotientInUnit(n, d);
    n / d
  }

  lemma QuotientInUnit(n: real, d: real)
    requires (0.0 <= n <= d && 0.0 < d) || (d <= n <= 0.0 && d < 0.0)
    ensures 0.0 <= n / d <= 1.0 && n / d * d == n
  {
    var q := n / d;
    assert q * d == n;
    ProductSign(q, d);
    ProductSign(1.0 - q, d);
    assert (1.0 - q) * d == d - n;
  }

  lemma ProductSign(x: real, y: real)
    ensures x < 0.0 && y > 0.0 ==> x * y < 0.0
    ensures x < 0.0 && y < 0.0 ==> x * y > 0.0
    ensures x >= 0.0 && y >= 0.0 ==> x * y >= 0.0
  {
  }

  lemma CrossesIsRayMeetsEdge(p: Point, a: Point, b: Point)
    ensures Crosses(p, a, b) <==> RayMeetsEdge(p, a, b)
  {
    if Straddles(p, a, b) {
      var t := Fraction(p, a, b);
      var (x, n, d) := (b.longitude - a.longitude, p.latitude - a.latitude, b.latitude - a.latitude);
      assert x * n / d == t * x by { ProductQuotient(x, n, d); }
      if RayMeetsEdge(p, a, b) {
        var s: real :| 0.0 <= s <= 1.0 && OnEdgeEastOf(p, a, b, s);
        assert (s - t) * d == 0.0;
        assert s == t;
      }
      if Crosses(p, a, b) {
        assert OnEdgeEastOf(p, a, b, t);
      }
    }
  }

  lemma ProductQuotient(x: real, n: real, d: real)
    requires d != 0.0
    ensures x * n / d == n / d * x
  {
    var q := n / d;
    assert x * n == x * q * d;
  }

  ghost function Crossings(p: Point, ring: seq<Point>, n: nat): set<nat>
    requires n <= |ring|
  {
    set i: nat | i < n && Crosses(p, ring[i], ring[Prev(i, |ring|)])
  }

  ghost predicate OddCrossings(p: Point, ring: seq<Point>, n: nat)
    requires n <= |ring|
  {
    |Crossings(p, ring, n)| % 2 == 1
  }

  /** A point is inside when an odd number of edges lie east of it. */
  ghost predicate Inside(p: Point, ring: seq<Point>) {
    |ring| >= 3 && OddCrossings(p, ring, |ring|)
  }

  method IsPointInPolygon(point: Point, polygon: seq<Point>) returns (inside: bool)
    ensures inside <==> Inside(point, polygon)
  {
    if |polygon| < 3 {
      return false;
    }
    inside := false;
    var i, j := 0, |polygon| - 1;
    while i < |polygon|
      invariant 0 <= i <= |polygon|
      invariant i < |polygon| ==> j == Prev(i, |polygon|)
      invariant inside <==> OddCrossings(point, polygon, i)
    {
      CrossingsStep(point, polygon, i);
      if Crosses(point, polygon[i], polygon[j]) {
        inside := !inside;
      }
      j := i;
      i := i + 1;
    }
  }

  lemma CrossingsStep(p: Point, ring: seq<Point>, n: nat)
    requires n < |ring|
    ensures OddCrossings(p, ring, n + 1)
            <==> OddCrossings(p, ring, n) != Crosses(p, ring[n], ring[Prev(n, |ring|)])
  {
    OneIndexMore(Crossings(p, ring, n), Crossings(p, ring, n + 1), n, Crosses(p, ring[n], ring[Prev(n, |ring|)]));
  }

  lemma OneIndexMore(s: set<nat>, t: set<nat>, n: nat, hit: bool)
    requires n !in s
    requires forall i: nat :: i in t <==> i in s || (i == n && hit)
    ensures |t| % 2 == 1 <==> (|s| % 2 == 1) != hit
  {
    assert t == if hit then s + {n} else s;
  }

  // ----- why a box is enough

  /** No edge reaches past its own ends. */
  lemma MeetingLongitude(p: Point, a: Point, b: Point)
    requires Straddles(p, a, b)
    ensures Crosses(p, a, b) ==> p.longitude < a.longitude || p.longitude < b.longitude
    ensures p.longitude < a.longitude && p.longitude < b.longitude ==> Crosses(p, a, b)
  {
    CrossesIsRayMeetsEdge(p, a, b);
    var t := Fraction(p, a, b);
    var (x, y) := (a.longitude, b.longitude);
    if Crosses(p, a, b) && x <= p.longitude && y <= p.longitude {
      var s: real :| 0.0 <= s <= 1.0 && OnEdgeEastOf(p, a, b, s);
      BetweenEnds(x, y, s);
    }
    if p.longitude < x && p.longitude < y {
      BetweenEnds(x, y, t);
      assert OnEdgeEastOf(p, a, b, t);
    }
  }

  lemma BetweenEnds(x: real, y: real, t: real)
    requires 0.0 <= t <= 1.0
    ensures MinReal(x, y) <= x + t * (y - x) <= MaxReal(x, y)
  {
    ProductSign(t, y - x);
    ProductSign(t, x - y);
    ProductSign(1.0 - t, y - x);
    ProductSign(1.0 - t, x - y);
    assert x + t * (y - x) == y - (1.0 - t) * (y - x);
  }

  ghost function SideChanges(p: Point, ring: seq<Point>, n: nat): set<nat>
    requires n <= |ring|
  {
    set i: nat | i < n && Straddles(p, ring[i], ring[Prev(i, |ring|)])
  }

  /** Going round a ring, the side of the parallel changes an even number of
      times: after n edges the parity only depends on where the walk stands. */
  lemma {:induction false} SideChangesParity(p: Point, ring: seq<Point>, n: nat)
    requires 1 <= n <= |ring|
    ensures |SideChanges(p, ring, n)| % 2 == 1 <==> Above(p, ring[|ring| - 1]) != Above(p, ring[n - 1])
  {
    var m := n - 1;
    var s := SideChanges(p, ring, m);
    if m == 0 {
      assert s == {};
    } else {
      SideChangesParity(p, ring, m);
    }
    OneIndexMore(s, SideChanges(p, ring, n), m, Straddles(p, ring[m], ring[Prev(m, |ring|)]));
  }

  lemma NotInsideWhenAllEast(p: Point, ring: seq<Point>)
    requires forall v :: v in ring ==> p.longitude < v.longitude
    ensures !Inside(p, ring)
  {
    var n := |ring|;
    if n >= 3 {
      forall i: nat | i < n
        ensures Crosses(p, ring[i], ring[Prev(i, n)]) <==> Straddles(p, ring[i], ring[Prev(i, n)])
      {
        if Straddles(p, ring[i], ring[Prev(i, n)]) {
          MeetingLongitude(p, ring[i], ring[Prev(i, n)]);
        }
      }
      assert Crossings(p, ring, n) == SideChanges(p, ring, n);
      SideChangesParity(p, ring, n);
    }
  }

  /** Ray casting never answers inside for a point beyond the vertices: some
      vertex lies strictly above, one at or below, one strictly east and one at
      or west of it. */
  lemma InsideIsAmongVertices(p: Point, ring: seq<Point>) returns (north: Point, south: Point, east: Point, west: Point)
    requires Inside(p, ring)
    ensures north in ring && p.latitude < north.latitude
    ensures south in ring && south.latitude <= p.latitude
    ensures east in ring && p.longitude < east.longitude
    ensures west in ring && west.longitude <= p.longitude
  {
    var c := Crossings(p, ring, |ring|);
    assert c != {};
    var i: nat :| i in c;
    var (a, b) := (ring[i], ring[Prev(i, |ring|)]);
    if Above(p, a) {
      north, south := a, b;
    } else {
      north, south := b, a;
    }
    MeetingLongitude(p, a, b);
    east := if p.longitude < a.longitude then a else b;
    if forall v :: v in ring ==> p.longitude < v.longitude {
      NotInsideWhenAllEast(p, ring);
    }
    west :| west in ring && west.longitude <= p.longitude;
  }

  // ----- bounding boxes

  /** The box grown point by point from the inverted whole-world box. */
  function BoundingBox(points: seq<Point>): (b: Box)
    ensures forall p :: p in points ==> b.Has(p)
    ensures b.minLat <= 90.0 && b.minLng <= 180.0 && b.maxLat >= -90.0 && b.maxLng >= -180.0
  {
    if points == [] then
      Box(90.0, 180.0, -90.0, -180.0)
    else
      var (rest, p) := (BoundingBox(points[..|points| - 1]), points[|points| - 1]);
      assert forall q :: q in points ==> q in points[..|points| - 1] || q == p;
      Box(MinReal(rest.minLat, p.latitude), MinReal(rest.minLng, p.longitude),
          MaxReal(rest.maxLat, p.latitude), MaxReal(rest.maxLng, p.longitude))
  }

  /** It is the least box that has every point and reaches the four seeds. */
  lemma {:induction false} BoundingBoxIsLeast(points: seq<Point>, other: Box)
    requires forall p :: p in points ==> other.Has(p)
    requires other.minLat <= 90.0 && other.minLng <= 180.0 && -90.0 <= other.maxLat && -180.0 <= other.maxLng
    ensures var b := BoundingBox(points);
            && other.minLat <= b.minLat && other.minLng <= b.minLng
            && b.maxLat <= other.maxLat && b.maxLng <= other.maxLng
  {
    if points != [] {
      assert other.Has(points[|points| - 1]);
      BoundingBoxIsLeast(points[..|points| - 1], other);
    }
  }

  /** Whatever ray casting accepts lies in the box, for every polygon and point. */
  lemma InsideIsInBox(p: Point, ring: seq<Point>)
    requires Inside(p, ring)
    ensures BoundingBox(ring).Has(p)
  {
    var north, south, east, west := InsideIsAmongVertices(p, ring);
    var b := BoundingBox(ring);
    assert b.Has(north) && b.Has(south) && b.Has(east) && b.Has(west);
  }
}
