/**
 What ray casting means for every polygon: a triangle contains what lies between
 its vertices, and a diagonal cuts any ring into two whose memberships it adds up.
 So membership is the parity of a fan of triangles.
 */
module Polygons {
  import opened GeoUtils
  import opened Sequences

  // ----- the parity of a ring

  /** An edge is crossed or not whichever way it is walked. */
  lemma CrossesEitherWay(p: Point, a: Point, b: Point)
    ensures Crosses(p, a, b) <==> Crosses(p, b, a)
  {
    MeetsEitherWay(p, a, b);
    MeetsEitherWay(p, b, a);
    CrossesIsRayMeetsEdge(p, a, b);
    CrossesIsRayMeetsEdge(p, b, a);
  }

  lemma MeetsEitherWay(p: Point, a: Point, b: Point)
    ensures RayMeetsEdge(p, a, b) ==> RayMeetsEdge(p, b, a)
  {
    if RayMeetsEdge(p, a, b) {
      var t: real :| 0.0 <= t <= 1.0 && OnEdgeEastOf(p, a, b, t);
      assert b.latitude + (1.0 - t) * (a.latitude - b.latitude) == a.latitude + t * (b.latitude - a.latitude);
      assert b.longitude + (1.0 - t) * (a.longitude - b.longitude) == a.longitude + t * (b.longitude - a.longitude);
      assert OnEdgeEastOf(p, b, a, 1.0 - t);
    }
  }

  /** Whether an open path is crossed an odd number of times. */
  ghost predicate OddPath(p: Point, path: seq<Point>) {
    |path| >= 2 && OddPath(p, path[..|path| - 1]) != Crosses(p, path[|path| - 1], path[|path| - 2])
  }

  lemma {:induction false} PathParity(p: Point, ring: seq<Point>, n: nat)
    requires 1 <= n <= |ring|
    ensures OddCrossings(p, ring, n) <==> Crosses(p, ring[0], ring[|ring| - 1]) != OddPath(p, ring[..n])
  {
    CrossingsStep(p, ring, n - 1);
    if n == 1 {
      assert Crossings(p, ring, 0) == {};
    } else {
      PathParity(p, ring, n - 1);
      assert ring[..n][..n - 1] == ring[..n - 1];
    }
  }

  lemma {:induction false} PathsJoin(p: Point, s: seq<Point>, m: Point, t: seq<Point>)
    ensures OddPath(p, s + [m] + t) <==> OddPath(p, s + [m]) != OddPath(p, [m] + t)
  {
    if t == [] {
      assert s + [m] + t == s + [m] && [m] + t == [m];
    } else {
      var front := t[..|t| - 1];
      PathsJoin(p, s, m, front);
      assert (s + [m] + t)[..|s + [m] + t| - 1] == s + [m] + front;
      assert ([m] + t)[..|[m] + t| - 1] == [m] + front;
    }
  }

  /** A closed ring: its path and the edge that closes it. */
  lemma InsideIsParity(p: Point, ring: seq<Point>)
    requires |ring| >= 2
    ensures Inside(p, ring) <==> Crosses(p, ring[0], ring[|ring| - 1]) != OddPath(p, ring)
  {
    PathParity(p, ring, |ring|);
    assert ring[..|ring|] == ring;
    if |ring| == 2 {
      CrossesEitherWay(p, ring[0], ring[1]);
      assert !OddPath(p, ring[..1]);
    }
  }

  // ----- diagonals

  /** Membership in a ring is the exclusive or of the memberships in the two rings
      that a diagonal cuts it into. */
  lemma DiagonalLaw(p: Point, ring: seq<Point>, i: nat, j: nat)
    requires i < j < |ring|
    ensures Inside(p, ring) <==> Inside(p, ring[i..j + 1]) != Inside(p, ring[..i + 1] + ring[j..])
  {
    CutAt(ring, i, j);
    CutRings(p, ring[..i], ring[i], ring[i + 1..j], ring[j], ring[j + 1..]);
  }

  lemma CutRings(p: Point, a: seq<Point>, x: Point, b: seq<Point>, y: Point, c: seq<Point>)
    ensures Inside(p, a + [x] + (b + [y] + c)) <==> Inside(p, [x] + b + [y]) != Inside(p, a + [x] + ([y] + c))
  {
    var (whole, near, far) := (a + [x] + (b + [y] + c), [x] + b + [y], a + [x] + ([y] + c));
    CutPaths(p, a, x, b, y, c);
    CrossesEitherWay(p, x, y);
    InsideIsParity(p, whole);
    InsideIsParity(p, near);
    InsideIsParity(p, far);
    assert whole[0] == far[0] && whole[|whole| - 1] == far[|far| - 1];
    assert near[0] == x && near[|near| - 1] == y;
  }

  lemma CutPaths(p: Point, a: seq<Point>, x: Point, b: seq<Point>, y: Point, c: seq<Point>)
    ensures (OddPath(p, a + [x] + (b + [y] + c)) != OddPath(p, a + [x] + ([y] + c)))
            <==> OddPath(p, [x] + b + [y]) != Crosses(p, y, x)
  {
    PathsJoin(p, a, x, b + [y] + c);
    ConcatAssociative([x], b + [y], c);
    ConcatAssociative([x], b, [y]);
    PathsJoin(p, [x] + b, y, c);
    PathsJoin(p, a, x, [y] + c);
    ConcatAssociative([x], [y], c);
    PathsJoin(p, [x], y, c);
    OneEdge(p, x, y);
  }

  lemma OneEdge(p: Point, x: Point, y: Point)
    ensures OddPath(p, [x] + [y]) <==> Crosses(p, y, x)
  {
    assert ([x] + [y])[..1] == [x];
  }

  // ----- triangles

  /** The point with the given weights. */
  function Mix(a: Point, b: Point, c: Point, u: real, v: real, w: real): Point {
    Point(u * a.latitude + v * b.latitude + w * c.latitude, u * a.longitude + v * b.longitude + w * c.longitude)
  }

  /** Twice the signed area; zero when the three points lie on one line. */
  function Area(a: Point, b: Point, c: Point): real {
    (c.latitude - a.latitude) * (b.longitude - a.longitude) - (b.latitude - a.latitude) * (c.longitude - a.longitude)
  }

  predicate Weights(u: real, v: real, w: real) {
    u + v + w == 1.0 && u != 0.0 && v != 0.0 && w != 0.0
  }

  predicate Between(u: real, v: real, w: real) {
    u > 0.0 && v > 0.0 && w > 0.0
  }

  lemma SignOfFactor(x: real, y: real, z: real)
    requires y != 0.0 && x * y == z
    ensures x > 0.0 <==> (y > 0.0 && z > 0.0) || (y < 0.0 && z < 0.0)
  {
    ProductSign(x, y);
    ProductSign(-x, y);
    ProductSign(x, -y);
    assert (-x) * y == -z && x * (-y) == -z;
  }

  /** Seen from a vertex: how far east of a mixed point its parallel meets the edge
      to b, times the height of that edge. */
  lemma EdgeMeets(bx: real, bh: real, cx: real, ch: real, v: real, w: real)
    requires bh != 0.0
    ensures var (px, ph) := (v * bx + w * cx, v * bh + w * ch);
            (bx * ph / bh - px) * bh == w * (ch * bx - bh * cx)
  {
    var (px, ph) := (v * bx + w * cx, v * bh + w * ch);
    var q := bx * ph / bh;
    assert q * bh == bx * ph;
    assert bx * ph == bx * (v * bh) + bx * (w * ch);
    assert px * bh == v * bx * bh + w * cx * bh;
  }

  /** The edge from a to b is crossed exactly when area and weight of the third
      vertex point the way the edge does. */
  lemma EdgeSign(p: Point, a: Point, b: Point, c: Point, u: real, v: real, w: real)
    requires u + v + w == 1.0 && p == Mix(a, b, c, u, v, w) && Straddles(p, a, b)
    ensures Crosses(p, a, b) <==>
              if b.latitude > a.latitude then w * Area(a, b, c) > 0.0 else w * Area(a, b, c) < 0.0
  {
    var (bx, bh) := (b.longitude - a.longitude, b.latitude - a.latitude);
    var (cx, ch) := (c.longitude - a.longitude, c.latitude - a.latitude);
    Relative(p, a, b, c, u, v, w);
    EdgeMeets(bx, bh, cx, ch, v, w);
    SignOfFactor(bx * (p.latitude - a.latitude) / bh - (p.longitude - a.longitude), bh, w * Area(a, b, c));
  }

  lemma Relative(p: Point, a: Point, b: Point, c: Point, u: real, v: real, w: real)
    requires u + v + w == 1.0 && p == Mix(a, b, c, u, v, w)
    ensures p.latitude - a.latitude == v * (b.latitude - a.latitude) + w * (c.latitude - a.latitude)
    ensures p.longitude - a.longitude == v * (b.longitude - a.longitude) + w * (c.longitude - a.longitude)
  {
    RelativeTo(a.latitude, b.latitude, c.latitude, u, v, w);
    RelativeTo(a.longitude, b.longitude, c.longitude, u, v, w);
  }

  lemma RelativeTo(x: real, y: real, z: real, u: real, v: real, w: real)
    requires u + v + w == 1.0
    ensures u * x + v * y + w * z - x == v * (y - x) + w * (z - x)
  {
    assert u * x == (1.0 - v - w) * x == x - v * x - w * x;
  }

  /** Two heights on one side of a level h that they mix to with the weights v and
      w of one sign: both weights are positive, and so is the rest. */
  lemma WeightsAgree(bh: real, ch: real, v: real, w: real)
    requires v != 0.0 && w != 0.0 && 1.0 - v - w != 0.0
    requires var h := v * bh + w * ch; (h < 0.0 && bh <= h && ch <= h) || (0.0 <= h && h < bh && h < ch)
    ensures (v > 0.0) == (w > 0.0) ==> Between(1.0 - v - w, v, w)
  {
    var h := v * bh + w * ch;
    if v < 0.0 && w < 0.0 {
      ProductSign(v, bh);
      ProductSign(w, ch);
    } else if v > 0.0 && w > 0.0 && v + w > 1.0 {
      MixedHeights(bh, ch, v, w);
      HeightsClash(bh - h, ch - h, h, v, w, v + w - 1.0);
    }
  }

  lemma HeightsClash(x: real, y: real, h: real, v: real, w: real, rest: real)
    requires v > 0.0 && w > 0.0 && rest > 0.0
    requires (h < 0.0 && x <= 0.0 && y <= 0.0) || (0.0 <= h && x > 0.0 && y > 0.0)
    ensures v * x + w * y != -(rest * h)
  {
    Scaled(v, x);
    Scaled(w, y);
    Scaled(rest, h);
  }

  lemma MixedHeights(bh: real, ch: real, v: real, w: real)
    ensures var h := v * bh + w * ch; v * (bh - h) + w * (ch - h) == -((v + w - 1.0) * h)
  {
    var h := v * bh + w * ch;
    assert v * (bh - h) == v * bh - v * h && w * (ch - h) == w * ch - w * h;
    assert (v + w - 1.0) * h == v * h + w * h - h;
  }

  lemma Scaled(x: real, y: real)
    requires x > 0.0
    ensures (y > 0.0 <==> x * y > 0.0) && (y < 0.0 <==> x * y < 0.0)
  {
    ProductSign(x, y);
    ProductSign(-x, y);
    ProductSign(x, -y);
    assert x * (-y) == -(x * y);
  }

  /** The vertex a alone on its side: one of its two edges is crossed, and not the
      other, exactly when the point is between the vertices. */
  lemma VertexAlone(p: Point, a: Point, b: Point, c: Point, u: real, v: real, w: real)
    requires Weights(u, v, w) && p == Mix(a, b, c, u, v, w) && Area(a, b, c) != 0.0
    requires Straddles(p, a, b) && Straddles(p, a, c)
    ensures Crosses(p, a, b) != Crosses(p, a, c) <==> Between(u, v, w)
  {
    var d := Area(a, b, c);
    EdgeSign(p, a, b, c, u, v, w);
    assert p == Mix(a, c, b, u, w, v);
    EdgeSign(p, a, c, b, u, w, v);
    assert Area(a, c, b) == -d && v * -d == -(v * d);
    Relative(p, a, b, c, u, v, w);
    WeightsAgree(b.latitude - a.latitude, c.latitude - a.latitude, v, w);
    SignOfProduct(v, d);
    SignOfProduct(w, d);
  }

  lemma SignOfProduct(x: real, y: real)
    requires x != 0.0 && y != 0.0
    ensures x * y > 0.0 <==> (x > 0.0) == (y > 0.0)
    ensures x * y < 0.0 <==> (x > 0.0) != (y > 0.0)
  {
    ProductSign(x, y);
    ProductSign(-x, y);
    ProductSign(x, -y);
    assert (-x) * y == -(x * y) && x * (-y) == -(x * y);
  }

  /** With all vertices on one side of its parallel a point is not between them. */
  lemma NoneAlone(p: Point, a: Point, b: Point, c: Point, u: real, v: real, w: real)
    requires Weights(u, v, w) && p == Mix(a, b, c, u, v, w) && Area(a, b, c) != 0.0
    requires !Straddles(p, a, b) && !Straddles(p, a, c)
    ensures !Between(u, v, w)
  {
    if Between(u, v, w) {
      var (x, y, z) := (a.latitude - p.latitude, b.latitude - p.latitude, c.latitude - p.latitude);
      WeightsBalance(a.latitude, b.latitude, c.latitude, u, v, w);
      Balanced(x, y, z, u, v, w);
    }
  }

  lemma WeightsBalance(x: real, y: real, z: real, u: real, v: real, w: real)
    requires u + v + w == 1.0
    ensures var h := u * x + v * y + w * z; u * (x - h) + v * (y - h) + w * (z - h) == 0.0
  {
    var h := u * x + v * y + w * z;
    assert u * (x - h) == u * x - u * h && v * (y - h) == v * y - v * h && w * (z - h) == w * z - w * h;
    assert u * h + v * h + w * h == (u + v + w) * h;
  }

  lemma Balanced(x: real, y: real, z: real, u: real, v: real, w: real)
    requires Between(u, v, w) && u * x + v * y + w * z == 0.0
    requires (x > 0.0 && y > 0.0 && z > 0.0) || (x <= 0.0 && y <= 0.0 && z <= 0.0)
    ensures x == y == z == 0.0
  {
    Scaled(u, x);
    Scaled(v, y);
    Scaled(w, z);
  }

  /** Off the lines through its sides, a point is inside a triangle exactly when it
      lies between the vertices: when all its weights are positive. */
  lemma TriangleIff(a: Point, b: Point, c: Point, u: real, v: real, w: real)
    requires Weights(u, v, w) && Area(a, b, c) != 0.0
    ensures Inside(Mix(a, b, c, u, v, w), [a, b, c]) <==> Between(u, v, w)
  {
    var p := Mix(a, b, c, u, v, w);
    TriangleParity(p, a, b, c);
    if Straddles(p, a, b) && Straddles(p, a, c) {
      VertexAlone(p, a, b, c, u, v, w);
    } else if Straddles(p, a, b) {
      assert p == Mix(b, a, c, v, u, w) && Area(b, a, c) == -Area(a, b, c);
      VertexAlone(p, b, a, c, v, u, w);
      CrossesEitherWay(p, a, b);
    } else if Straddles(p, a, c) {
      assert p == Mix(c, a, b, w, u, v) && Area(c, a, b) == Area(a, b, c);
      VertexAlone(p, c, a, b, w, u, v);
      CrossesEitherWay(p, a, c);
      CrossesEitherWay(p, b, c);
    } else {
      NoneAlone(p, a, b, c, u, v, w);
    }
  }

  lemma TriangleParity(p: Point, a: Point, b: Point, c: Point)
    ensures Inside(p, [a, b, c]) <==> (Crosses(p, a, c) != Crosses(p, a, b)) != Crosses(p, b, c)
  {
    var ring := [a, b, c];
    InsideIsParity(p, ring);
    assert ring[..2][..1] == [a] && !OddPath(p, [a]);
    assert OddPath(p, ring) <==> OddPath(p, ring[..2]) != Crosses(p, c, b);
    CrossesEitherWay(p, a, b);
    CrossesEitherWay(p, b, c);
  }

  /** Every point has weights in a triangle whose vertices are not on one line. */
  lemma EveryPointIsMixed(a: Point, b: Point, c: Point, p: Point) returns (u: real, v: real, w: real)
    requires Area(a, b, c) != 0.0
    ensures u + v + w == 1.0 && p == Mix(a, b, c, u, v, w)
  {
    var (bx, bh) := (b.longitude - a.longitude, b.latitude - a.latitude);
    var (cx, ch) := (c.longitude - a.longitude, c.latitude - a.latitude);
    var (px, ph) := (p.longitude - a.longitude, p.latitude - a.latitude);
    v, w := Solve(bx, bh, cx, ch, px, ph);
    u := 1.0 - v - w;
    RelativeTo(a.latitude, b.latitude, c.latitude, u, v, w);
    RelativeTo(a.longitude, b.longitude, c.longitude, u, v, w);
  }

  lemma Solve(bx: real, bh: real, cx: real, ch: real, px: real, ph: real) returns (v: real, w: real)
    requires ch * bx - bh * cx != 0.0
    ensures v * bx + w * cx == px && v * bh + w * ch == ph
  {
    var d := ch * bx - bh * cx;
    v, w := (ch * px - cx * ph) / d, (bx * ph - bh * px) / d;
    assert v * d == ch * px - cx * ph && w * d == bx * ph - bh * px;
    assert (v * bx + w * cx) * d == v * d * bx + w * d * cx == px * d;
    assert (v * bh + w * ch) * d == v * d * bh + w * d * ch == ph * d;
    Cancel(v * bx + w * cx, px, d);
    Cancel(v * bh + w * ch, ph, d);
  }

  lemma Cancel(x: real, y: real, d: real)
    requires d != 0.0 && x * d == y * d
    ensures x == y
  {
    assert (x - y) * d == 0.0;
  }

  // ----- every polygon

  /** The parity of the triangles that the first vertex spans with the edges. */
  ghost predicate InsideFan(p: Point, ring: seq<Point>) {
    var n := |ring|;
    n >= 3 && InsideFan(p, ring[..n - 1]) != Inside(p, [ring[0], ring[n - 2], ring[n - 1]])
  }

  /** A point is inside a polygon exactly when it is inside an odd number of the
      triangles of its fan, whatever the shape of the polygon. */
  lemma {:induction false} InsideIsFan(p: Point, ring: seq<Point>)
    ensures Inside(p, ring) <==> InsideFan(p, ring)
  {
    var n := |ring|;
    if n >= 3 {
      DiagonalLaw(p, ring, 0, n - 2);
      InsideIsFan(p, ring[..n - 1]);
      assert ring[0..n - 2 + 1] == ring[..n - 1];
      assert ring[..1] + ring[n - 2..] == [ring[0], ring[n - 2], ring[n - 1]];
    }
  }
}
