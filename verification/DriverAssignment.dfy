/**
 Choosing a driver: keep the available drivers in range, order them by distance,
 score them, keep the best scores, and take the shortest route among those.
 Distances come from a given function of two points.
 */
module DriverAssignment {
  import opened Wrappers
  import opened GeoUtils
  import opened StableSort
  import opened Numbers

  type Distance = (Point, Point) -> real

  datatype Vehicle = CAR | MOTORCYCLE | BICYCLE

  datatype Driver = Driver(id: string, location: Point, isAvailable: bool, vehicleType: Vehicle, rating: real)

  datatype Found = Found(driver: Driver, distance: real)

  datatype Assignment = Assignment(driver: Driver, distance: real, pickupMinutes: int, score: real)

  const DEFAULT_RADIUS := 5000.0
  const DEFAULT_LIMIT := 5

  function Ceiling(x: real): int {
    -(-x).Floor
  }

  function Score(d: Driver, distance: real): real {
    var distanceScore := MaxReal(0.0, 100.0 - distance / 50.0);
    var ratingScore := d.rating * 20.0;
    var vehicleScore := match d.vehicleType
      case CAR => 80.0
      case MOTORCYCLE => 100.0
      case BICYCLE => MaxReal(0.0, 100.0 - distance / 100.0);
    distanceScore * 0.5 + ratingScore * 0.3 + vehicleScore * 0.2
  }

  /** In range, scores run from 0 to 100, and for one driver they fall as the
      distance grows. */
  lemma ScoreProperties(d: Driver, near: real, far: real)
    requires 0.0 <= near < far <= DEFAULT_RADIUS && 0.0 <= d.rating <= 5.0
    ensures 0.0 <= Score(d, far) < Score(d, near) <= 100.0
    ensures d.vehicleType == CAR ==> Score(d, near) == 66.0 + 6.0 * d.rating - near / 100.0
    ensures d.vehicleType == MOTORCYCLE ==> Score(d, near) == 70.0 + 6.0 * d.rating - near / 100.0
    ensures d.vehicleType == BICYCLE ==> Score(d, near) == 70.0 + 6.0 * d.rating - near / 100.0 - near / 500.0
  {
  }

  /** Out of the default range nearness no longer counts, except for bicycles up to
      ten kilometres. */
  lemma ScoreBeyondRange(d: Driver, distance: real)
    requires DEFAULT_RADIUS <= distance
    ensures d.vehicleType == CAR ==> Score(d, distance) == 16.0 + 6.0 * d.rating
    ensures d.vehicleType == MOTORCYCLE ==> Score(d, distance) == 20.0 + 6.0 * d.rating
    ensures d.vehicleType == BICYCLE ==> Score(d, distance) == MaxReal(0.0, 20.0 - distance / 500.0) + 6.0 * d.rating
  {
  }

  function Assess(): Found -> Assignment {
    (f: Found) => Assignment(f.driver, f.distance, Ceiling(f.distance / 500.0) + 2, Score(f.driver, f.distance))
  }

  function ByFoundDistance(): Found -> real { (f: Found) => f.distance }

  function ByDistance(): Assignment -> real { (a: Assignment) => a.distance }

  /** Descending score is ascending negated score. */
  function ByScore(): Assignment -> real { (a: Assignment) => -a.score }

  /** The whole route is the way to the restaurant plus the same last leg. */
  function ByRoute(lastLeg: real): Assignment -> real { (a: Assignment) => a.distance + lastLeg }

  // ----- what the pipeline computes

  function Available(drivers: seq<Driver>): seq<Driver> {
    if drivers == [] then []
    else Available(drivers[..|drivers| - 1]) + if drivers[|drivers| - 1].isAvailable then [drivers[|drivers| - 1]] else []
  }

  function InRange(drivers: seq<Driver>, at: Point, radius: real, distance: Distance): seq<Found> {
    if drivers == [] then []
    else
      var (front, d) := (InRange(drivers[..|drivers| - 1], at, radius, distance), drivers[|drivers| - 1]);
      if distance(at, d.location) <= radius then front + [Found(d, distance(at, d.location))] else front
  }

  /** `slice(0, n)`: a negative n counts from the end. */
  function Slice<T>(s: seq<T>, n: int): seq<T> {
    if n >= |s| then s else if n >= 0 then s[..n] else if |s| + n >= 0 then s[..|s| + n] else []
  }

  /** A search; a limit that is missing or not positive is no limit. */
  function Search(drivers: seq<Driver>, at: Point, radius: real, limit: int, distance: Distance): seq<Found> {
    var sorted := SortBy(InRange(drivers, at, radius, distance), ByFoundDistance());
    if limit > 0 then Slice(sorted, limit) else sorted
  }

  function Best(drivers: seq<Driver>, at: Point, radius: real, limit: int, distance: Distance): seq<Assignment> {
    var near := Search(Available(drivers), at, radius, 0, distance);
    Slice(SortBy(Map(near, Assess()), ByScore()), limit)
  }

  function Assign(drivers: seq<Driver>, at: Point, delivery: Point, distance: Distance): Option<Assignment> {
    var best := Best(drivers, at, DEFAULT_RADIUS, DEFAULT_LIMIT, distance);
    if best == [] then None
    else
      SortByLength(best, ByRoute(distance(at, delivery)));
      Some(SortBy(best, ByRoute(distance(at, delivery)))[0])
  }

  lemma {:induction false} SortByLength<T>(s: seq<T>, key: T -> real)
    ensures |SortBy(s, key)| == |s|
  {
    if s != [] {
      SortByLength(s[..|s| - 1], key);
      InsertLength(SortBy(s[..|s| - 1], key), s[|s| - 1], key);
    }
  }

  lemma {:induction false} InsertLength<T>(s: seq<T>, x: T, key: T -> real)
    ensures |Insert(s, x, key)| == |s| + 1
  {
    if s != [] {
      InsertLength(s[..|s| - 1], x, key);
    }
  }

  // ----- what a search finds

  /** In range are exactly the drivers at most the radius away, with their distance. */
  lemma {:induction false} InRangeMeans(drivers: seq<Driver>, at: Point, radius: real, distance: Distance, f: Found)
    ensures multiset(InRange(drivers, at, radius, distance))[f]
            == if f.distance == distance(at, f.driver.location) && f.distance <= radius then multiset(drivers)[f.driver] else 0
  {
    if drivers != [] {
      var (front, d) := (drivers[..|drivers| - 1], drivers[|drivers| - 1]);
      assert drivers == front + [d];
      InRangeMeans(front, at, radius, distance, f);
    }
  }

  /** A search returns what is in range, nearest first, and with a positive limit
      the nearest of it: nothing left out is nearer than anything returned. */
  lemma SearchFindsTheNearest(drivers: seq<Driver>, at: Point, radius: real, limit: int, distance: Distance)
    returns (leftOut: seq<Found>)
    ensures var (found, all) := (Search(drivers, at, radius, limit, distance), InRange(drivers, at, radius, distance));
            && |found| == (if 0 < limit < |all| then limit else |all|)
            && multiset(found) + multiset(leftOut) == multiset(all)
            && (forall i, j :: 0 <= i < j < |found| ==> found[i].distance <= found[j].distance)
            && (forall x, y :: x in found && y in leftOut ==> x.distance <= y.distance)
  {
    var all := InRange(drivers, at, radius, distance);
    var sorted := SortBy(all, ByFoundDistance());
    SortByMeans(all, ByFoundDistance());
    SortByLength(all, ByFoundDistance());
    var k: nat := if 0 < limit < |all| then limit else |all|;
    leftOut := sorted[k..];
    assert Search(drivers, at, radius, limit, distance) == sorted[..k] by { WholeSlice(sorted); }
    CutCounts(sorted, k);
    CutByDistance(sorted, k);
  }

  lemma WholeSlice<T>(s: seq<T>)
    ensures s == s[..|s|]
  {
  }

  /** A cut of results that are in order of distance. */
  lemma CutByDistance(sorted: seq<Found>, k: nat)
    requires k <= |sorted| && Sorted(sorted, ByFoundDistance())
    ensures forall i, j :: 0 <= i < j < k ==> sorted[..k][i].distance <= sorted[..k][j].distance
    ensures forall x, y :: x in sorted[..k] && y in sorted[k..] ==> x.distance <= y.distance
  {
    CutSorted(sorted, k, ByFoundDistance());
    SortedMeans(sorted, ByFoundDistance());
    forall x, y | x in sorted[..k] && y in sorted[k..] ensures x.distance <= y.distance {
      assert ByFoundDistance()(x) <= ByFoundDistance()(y);
    }
    forall i, j | 0 <= i < j < k ensures sorted[i].distance <= sorted[j].distance {
      assert ByFoundDistance()(sorted[i]) <= ByFoundDistance()(sorted[j]);
    }
  }

  // ----- what it should compute

  predicate Eligible(d: Driver, at: Point, radius: real, distance: Distance) {
    d.isAvailable && distance(at, d.location) <= radius
  }

  function AssignmentOf(d: Driver, at: Point, distance: Distance): Assignment {
    Assess()(Found(d, distance(at, d.location)))
  }

  /** Every eligible driver, assessed, in the order given. */
  function Candidates(drivers: seq<Driver>, at: Point, radius: real, distance: Distance): seq<Assignment> {
    if drivers == [] then []
    else
      var (front, d) := (Candidates(drivers[..|drivers| - 1], at, radius, distance), drivers[|drivers| - 1]);
      if Eligible(d, at, radius, distance) then front + [AssignmentOf(d, at, distance)] else front
  }

  /** An assessment: the distance to the driver, the whole minutes for it at 500
      metres a minute, rounded up, and two more, and the score. */
  predicate Assessed(a: Assignment, at: Point, distance: Distance) {
    && a.distance == distance(at, a.driver.location)
    && 500.0 * (a.pickupMinutes - 3) as real < a.distance <= 500.0 * (a.pickupMinutes - 2) as real
    && a.score == Score(a.driver, a.distance)
  }

  lemma AssessmentIsAssessed(d: Driver, at: Point, distance: Distance, a: Assignment)
    ensures a == AssignmentOf(d, at, distance) <==> a.driver == d && Assessed(a, at, distance)
  {
    CeilingIsLeast(distance(at, d.location) / 500.0, a.pickupMinutes - 2);
  }

  lemma CeilingIsLeast(x: real, n: int)
    ensures n == Ceiling(x) <==> (n - 1) as real < x <= n as real
  {
  }

  /** The candidates are exactly the assessments of the drivers that are available
      and at most the radius away, each as often as the driver is listed. */
  lemma {:induction false} CandidatesMeans(drivers: seq<Driver>, at: Point, radius: real, distance: Distance, a: Assignment)
    ensures multiset(Candidates(drivers, at, radius, distance))[a]
            == if Assessed(a, at, distance) && a.driver.isAvailable && a.distance <= radius then multiset(drivers)[a.driver] else 0
  {
    if drivers != [] {
      var (front, d) := (drivers[..|drivers| - 1], drivers[|drivers| - 1]);
      assert drivers == front + [d];
      CandidatesMeans(front, at, radius, distance, a);
      AssessmentIsAssessed(d, at, distance, a);
    }
  }

  lemma {:induction false} PipelineIsCandidates(drivers: seq<Driver>, at: Point, radius: real, distance: Distance)
    ensures Map(InRange(Available(drivers), at, radius, distance), Assess()) == Candidates(drivers, at, radius, distance)
  {
    if drivers != [] {
      var (front, d) := (drivers[..|drivers| - 1], drivers[|drivers| - 1]);
      PipelineIsCandidates(front, at, radius, distance);
      var a := Available(front);
      if d.isAvailable {
        assert (a + [d])[..|a|] == a;
        var r := InRange(a, at, radius, distance);
        assert (r + [Found(d, distance(at, d.location))])[..|r|] == r;
      } else {
        assert Available(drivers) == a;
      }
    }
  }

  /** The list before truncation: the candidates ordered by descending score,
      equal scores by distance, and those by position. */
  function Ranking(drivers: seq<Driver>, at: Point, radius: real, distance: Distance): seq<Assignment> {
    SortBy(SortBy(Candidates(drivers, at, radius, distance), ByDistance()), ByScore())
  }

  lemma BestIsRanking(drivers: seq<Driver>, at: Point, radius: real, limit: int, distance: Distance)
    ensures Best(drivers, at, radius, limit, distance) == Slice(Ranking(drivers, at, radius, distance), limit)
  {
    PipelineIsCandidates(drivers, at, radius, distance);
    MapSortBy(InRange(Available(drivers), at, radius, distance), Assess(), ByFoundDistance(), ByDistance());
  }

  lemma RankingOrder(drivers: seq<Driver>, at: Point, radius: real, distance: Distance)
    ensures var (r, c) := (Ranking(drivers, at, radius, distance), Candidates(drivers, at, radius, distance));
            && multiset(r) == multiset(c)
            && Lexicographic(r, ByScore(), ByDistance())
  {
    var c := Candidates(drivers, at, radius, distance);
    SortByMeans(c, ByDistance());
    SortByMeans(SortBy(c, ByDistance()), ByScore());
    SortByLexicographic(SortBy(c, ByDistance()), ByScore(), ByDistance());
  }

  lemma NotAfterMeans(x: Assignment, y: Assignment)
    ensures NotAfter(x, y, ByScore(), ByDistance())
            <==> x.score > y.score || (x.score == y.score && x.distance <= y.distance)
  {
  }

  lemma SliceIsPrefix<T>(s: seq<T>, n: int) returns (k: nat)
    ensures k == (if n >= |s| then |s| else if n >= 0 then n else Max(0, |s| + n)) && k <= |s|
    ensures Slice(s, n) == s[..k]
  {
    k := if n >= |s| then |s| else if n >= 0 then n else Max(0, |s| + n);
  }

  /** The best drivers are the top `limit` candidates (a negative limit drops that
      many from the end): nothing left out scores
      higher than anything chosen, no candidate is lost or doubled, and among
      the chosen a higher score comes first, and on a tie the shorter distance. */
  lemma BestAreTheTop(drivers: seq<Driver>, at: Point, radius: real, limit: int, distance: Distance)
    returns (leftOut: seq<Assignment>)
    ensures var (best, all) := (Best(drivers, at, radius, limit, distance), Candidates(drivers, at, radius, distance));
            && |best| == (if limit >= |all| then |all| else if limit >= 0 then limit else Max(0, |all| + limit))
            && multiset(best) + multiset(leftOut) == multiset(all)
            && (forall x, y :: x in best && y in leftOut ==> y.score <= x.score)
            && (forall i, j :: 0 <= i < j < |best| ==>
                  best[i].score > best[j].score || (best[i].score == best[j].score && best[i].distance <= best[j].distance))
  {
    var (r, all) := (Ranking(drivers, at, radius, distance), Candidates(drivers, at, radius, distance));
    var best := Best(drivers, at, radius, limit, distance);
    BestIsRanking(drivers, at, radius, limit, distance);
    RankingOrder(drivers, at, radius, distance);
    SortByLength(all, ByDistance());
    SortByLength(SortBy(all, ByDistance()), ByScore());
    var k := SliceIsPrefix(r, limit);
    leftOut := r[k..];
    PrefixIsTop(r, k, ByScore(), ByDistance());
    forall x, y | x in best && y in leftOut ensures y.score <= x.score {
      NotAfterMeans(x, y);
    }
    forall i, j | 0 <= i < j < |best|
      ensures best[i].score > best[j].score || (best[i].score == best[j].score && best[i].distance <= best[j].distance)
    {
      NotAfterMeans(best[i], best[j]);
    }
  }

  /** The choice: the nearest of the best five, a tie going to the higher score. */
  lemma AssignTakesNearestOfBest(drivers: seq<Driver>, at: Point, delivery: Point, distance: Distance)
    ensures var (best, chosen) := (Best(drivers, at, 5000.0, 5, distance), Assign(drivers, at, delivery, distance));
            && (chosen.None? <==> Candidates(drivers, at, 5000.0, distance) == [])
            && (chosen.Some? ==>
                  && chosen.value in best
                  && forall x :: x in best ==>
                       chosen.value.distance < x.distance
                       || (chosen.value.distance == x.distance && chosen.value.score >= x.score))
  {
    var best := Best(drivers, at, DEFAULT_RADIUS, DEFAULT_LIMIT, distance);
    var all := Candidates(drivers, at, DEFAULT_RADIUS, distance);
    var (route, r) := (ByRoute(distance(at, delivery)), Ranking(drivers, at, DEFAULT_RADIUS, distance));
    BestIsRanking(drivers, at, DEFAULT_RADIUS, DEFAULT_LIMIT, distance);
    SortByLength(all, ByDistance());
    SortByLength(SortBy(all, ByDistance()), ByScore());
    if best != [] {
      SortByMeans(SortBy(all, ByDistance()), ByScore());
      PrefixSorted(r, |best|, ByScore());
      assert best == r[..|best|];
      NearestFirst(best, route);
      forall x | x in best ensures NotAfter(SortBy(best, route)[0], x, ByDistance(), ByScore()) {
        assert NotAfter(SortBy(best, route)[0], x, route, ByScore());
      }
    }
  }

  lemma NearestFirst(best: seq<Assignment>, route: Assignment -> real)
    requires best != [] && Sorted(best, ByScore())
    ensures var s := SortBy(best, route);
            && |s| == |best|
            && s[0] in best
            && forall x :: x in best ==> NotAfter(s[0], x, route, ByScore())
  {
    SortByLexicographic(best, route, ByScore());
    SortByMeans(best, route);
    SortByLength(best, route);
    HeadIsFirst(SortBy(best, route), route, ByScore());
    assert SortBy(best, route)[0] in SortBy(best, route);
  }

  /** Where the order goes to does not matter. */
  lemma ChoiceIgnoresDelivery(drivers: seq<Driver>, at: Point, delivery: Point, elsewhere: Point, distance: Distance)
    ensures Assign(drivers, at, delivery, distance) == Assign(drivers, at, elsewhere, distance)
  {
    var best := Best(drivers, at, DEFAULT_RADIUS, DEFAULT_LIMIT, distance);
    SortByOrderOnly(best, ByRoute(distance(at, delivery)), ByRoute(distance(at, elsewhere)));
  }

  // ----- the services

  method FindEntitiesWithinRadius(drivers: seq<Driver>, at: Point, radius: real, limit: int, distance: Distance)
    returns (results: seq<Found>)
    ensures results == Search(drivers, at, radius, limit, distance)
  {
    results := [];
    var i := 0;
    while i < |drivers|
      invariant 0 <= i <= |drivers|
      invariant results == InRange(drivers[..i], at, radius, distance)
    {
      assert drivers[..i + 1][..i] == drivers[..i];
      var d := distance(at, drivers[i].location);
      if d <= radius {
        results := results + [Found(drivers[i], d)];
      }
      i := i + 1;
    }
    assert drivers[..i] == drivers;
    results := SortBy(results, ByFoundDistance());
    if limit > 0 {
      results := Slice(results, limit);
    }
  }

  method FindBestDriversForRestaurant(drivers: seq<Driver>, at: Point, radius: real, limit: int, distance: Distance)
    returns (results: seq<Assignment>)
    ensures results == Slice(Ranking(drivers, at, radius, distance), limit)
  {
    BestIsRanking(drivers, at, radius, limit, distance);
    var near := FindEntitiesWithinRadius(Available(drivers), at, radius, 0, distance);
    results := Slice(SortBy(Map(near, Assess()), ByScore()), limit);
  }
}
