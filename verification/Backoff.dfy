/**
 Exponential backoff with jitter.  Jitter is any number in [0, 1).
 */
module Backoff {
  import opened Numbers

  datatype Config = Config(maxRetries: nat, initialDelayMs: real, maxDelayMs: real, backoffMultiplier: real, jitterFactor: real)

  const DEFAULT_CONFIG := Config(5, 1000.0, 60000.0, 2.0, 0.2)

  // ----- backoff

  function Power(x: real, n: nat): real {
    if n == 0 then 1.0 else x * Power(x, n - 1)
  }

  function Exponential(c: Config, retryCount: nat): real {
    c.initialDelayMs * Power(c.backoffMultiplier, retryCount)
  }

  /** Cap an exponential delay, then add jitter. */
  function Jittered(c: Config, exponential: real, random: real): real {
    var capped := MinReal(exponential, c.maxDelayMs);
    var jitter := capped * c.jitterFactor * (random * 2.0 - 1.0);
    MaxReal(0.0, capped + jitter)
  }

  /** The delay before it is cut to whole milliseconds. */
  function Delay(c: Config, retryCount: nat, random: real): real {
    Jittered(c, Exponential(c, retryCount), random)
  }

  /** A date holds whole milliseconds. */
  function NextRetryAt(c: Config, retryCount: nat, random: real, now: int): int {
    (now as real + Delay(c, retryCount, random)).Floor
  }

  predicate Unit(x: real) {
    0.0 <= x < 1.0
  }

  lemma Product(x: real, y: real, z: real)
    requires x <= y && 0.0 <= z
    ensures x * z <= y * z
  {
  }

  lemma ProductStrict(x: real, y: real, z: real)
    requires x < y && 0.0 < z
    ensures x * z < y * z
  {
    assert (y - x) * z > 0.0;
  }

  /** The factor that jitter r puts on a delay. */
  function Factor(j: real, r: real): real {
    1.0 + j * (r * 2.0 - 1.0)
  }

  lemma FactorRange(j: real, r: real)
    requires 0.0 <= j && Unit(r)
    ensures 1.0 - j <= Factor(j, r) <= 1.0 + j
    ensures 0.0 < j ==> Factor(j, r) < 1.0 + j
  {
    Product(-1.0, r * 2.0 - 1.0, j);
    Product(r * 2.0 - 1.0, 1.0, j);
    if 0.0 < j {
      ProductStrict(r * 2.0 - 1.0, 1.0, j);
    }
  }

  /** Under the cap a delay d is scaled by at most the jitter. */
  lemma JitteredUnderCap(c: Config, d: real, r: real) returns (f: real)
    requires 0.0 < d <= c.maxDelayMs && 0.0 <= c.jitterFactor <= 1.0 && Unit(r)
    ensures f == Factor(c.jitterFactor, r)
    ensures 1.0 - c.jitterFactor <= f <= 1.0 + c.jitterFactor && (0.0 < c.jitterFactor ==> f < 1.0 + c.jitterFactor)
    ensures Jittered(c, d, r) == f * d
  {
    f := Factor(c.jitterFactor, r);
    FactorRange(c.jitterFactor, r);
    Product(0.0, f, d);
    assert d + d * c.jitterFactor * (r * 2.0 - 1.0) == f * d;
  }

  lemma ExponentialStep(c: Config, k: nat)
    ensures Exponential(c, k + 1) == c.backoffMultiplier * Exponential(c, k)
  {
  }

  /** Two steps of the backoff that both stay under the cap, for a configuration
      whose jitter is in the documented range. */
  predicate UnderCap(c: Config, k: nat) {
    && 0.0 < Exponential(c, k) <= c.maxDelayMs && Exponential(c, k + 1) <= c.maxDelayMs
    && 0.0 <= c.jitterFactor <= 1.0
  }

  /** The longest delay before jitter meets the shortest one after it. */
  predicate Outgrows(c: Config) {
    1.0 < c.backoffMultiplier && 1.0 + c.jitterFactor <= c.backoffMultiplier * (1.0 - c.jitterFactor)
  }

  lemma StaysPositive(c: Config, k: nat)
    requires 0.0 < Exponential(c, k) && 1.0 <= c.backoffMultiplier
    ensures Exponential(c, k) <= Exponential(c, k + 1) == c.backoffMultiplier * Exponential(c, k)
  {
    ExponentialStep(c, k);
    Product(1.0, c.backoffMultiplier, Exponential(c, k));
  }

  predicate Grows(c: Config, k: nat, r: real, s: real) {
    Delay(c, k, r) < Delay(c, k + 1, s)
  }

  predicate Shrinks(c: Config, k: nat, r: real, s: real) {
    Delay(c, k + 1, s) < Delay(c, k, r)
  }

  /** Two successive delays compare as their factors do. */
  lemma CompareByFactors(c: Config, k: nat, r: real, s: real) returns (f: real, g: real)
    requires UnderCap(c, k) && 1.0 <= c.backoffMultiplier && Unit(r) && Unit(s)
    ensures f <= 1.0 + c.jitterFactor && (0.0 < c.jitterFactor ==> f < 1.0 + c.jitterFactor)
    ensures 1.0 - c.jitterFactor <= g
    ensures Grows(c, k, r, s) <==> f < c.backoffMultiplier * g
    ensures Shrinks(c, k, r, s) <==> c.backoffMultiplier * g < f
  {
    StaysPositive(c, k);
    f, g := CompareJittered(c, Exponential(c, k), Exponential(c, k + 1), r, s);
  }

  lemma CompareJittered(c: Config, d: real, e: real, r: real, s: real) returns (f: real, g: real)
    requires 0.0 < d <= e <= c.maxDelayMs && e == c.backoffMultiplier * d
    requires 0.0 <= c.jitterFactor <= 1.0 && Unit(r) && Unit(s)
    ensures f == Factor(c.jitterFactor, r) && g == Factor(c.jitterFactor, s)
    ensures f <= 1.0 + c.jitterFactor && (0.0 < c.jitterFactor ==> f < 1.0 + c.jitterFactor)
    ensures 1.0 - c.jitterFactor <= g
    ensures Jittered(c, d, r) < Jittered(c, e, s) <==> f < c.backoffMultiplier * g
    ensures Jittered(c, e, s) < Jittered(c, d, r) <==> c.backoffMultiplier * g < f
  {
    f := JitteredUnderCap(c, d, r);
    g := JitteredUnderCap(c, e, s);
    CompareScaled(f, g, c.backoffMultiplier, d, e, Jittered(c, d, r), Jittered(c, e, s));
  }

  lemma CompareScaled(f: real, g: real, m: real, d: real, e: real, x: real, y: real)
    requires 0.0 < d && e == m * d && x == f * d && y == g * e
    ensures (x < y <==> f < m * g) && (y < x <==> m * g < f)
  {
    var h := m * g;
    assert y == h * d;
    if f < h {
      ProductStrict(f, h, d);
    } else if h < f {
      ProductStrict(h, f, d);
    }
  }

  lemma FactorsNotBelow(f: real, g: real, m: real, j: real)
    requires f <= 1.0 + j && 1.0 - j <= g && 0.0 <= m && 1.0 + j <= m * (1.0 - j)
    ensures f <= m * g
  {
    Product(1.0 - j, g, m);
  }

  lemma FactorsBelow(f: real, g: real, m: real, j: real)
    requires f <= 1.0 + j && 1.0 - j <= g && 0.0 <= j && 1.0 < m && 1.0 + j <= m * (1.0 - j)
    requires 0.0 < j ==> f < 1.0 + j
    ensures f < m * g
  {
    FactorsNotBelow(1.0 + j, g, m, j);
    if j == 0.0 {
      Product(1.0, g, m);
    }
  }

  lemma GrowsWhenMultiplierOutgrows(c: Config, k: nat, r: real, s: real)
    requires UnderCap(c, k) && Unit(r) && Unit(s) && Outgrows(c)
    ensures Grows(c, k, r, s)
  {
    var f, g := CompareByFactors(c, k, r, s);
    FactorsBelow(f, g, c.backoffMultiplier, c.jitterFactor);
  }

  lemma NeverShrinks(c: Config, k: nat, r: real, s: real)
    requires UnderCap(c, k) && Unit(r) && Unit(s)
    requires 1.0 + c.jitterFactor <= c.backoffMultiplier * (1.0 - c.jitterFactor)
    ensures !Shrinks(c, k, r, s)
  {
    AtLeastOne(c.backoffMultiplier, c.jitterFactor);
    var f, g := CompareByFactors(c, k, r, s);
    FactorsNotBelow(f, g, c.backoffMultiplier, c.jitterFactor);
  }

  lemma AtLeastOne(m: real, j: real)
    requires 0.0 <= j <= 1.0 && 1.0 + j <= m * (1.0 - j)
    ensures 1.0 <= m
  {
    ProductAtLeastOne(m, 1.0 - j);
  }

  lemma ProductAtLeastOne(m: real, d: real)
    requires 0.0 <= d <= 1.0 && 1.0 <= m * d
    ensures 1.0 <= m
  {
    if m < 1.0 && 0.0 < d {
      ProductStrict(m, 1.0, d);
    }
  }

  /** Below one the next delay is shorter for jitters in the middle. */
  lemma SmallMultiplierShrinks(c: Config, k: nat)
    requires UnderCap(c, k) && c.backoffMultiplier < 1.0
    ensures Shrinks(c, k, 0.5, 0.5)
  {
    var (d, e) := (Exponential(c, k), Exponential(c, k + 1));
    ExponentialStep(c, k);
    ProductStrict(c.backoffMultiplier, 1.0, d);
    MiddleJitter(c, d);
    MiddleJitter(c, e);
  }

  lemma MiddleJitter(c: Config, d: real)
    requires d <= c.maxDelayMs
    ensures Jittered(c, d, 0.5) == MaxReal(0.0, d)
  {
    assert d * c.jitterFactor * (0.5 * 2.0 - 1.0) == 0.0;
  }

  lemma QuotientBetween(n: real, j: real)
    requires 0.0 < j && -j <= n < j
    ensures -1.0 <= n / j < 1.0 && n / j * j == n
  {
    var q := n / j;
    assert q * j == n;
    if q >= 1.0 {
      Product(1.0, q, j);
    }
    if q < -1.0 {
      ProductStrict(q, -1.0, j);
    }
  }

  /** Every factor in the range is put on by some jitter. */
  lemma JitterFor(j: real, v: real) returns (r: real)
    requires 0.0 < j && 1.0 - j <= v < 1.0 + j
    ensures Unit(r) && Factor(j, r) == v
  {
    QuotientBetween(v - 1.0, j);
    r := ((v - 1.0) / j + 1.0) / 2.0;
    assert r * 2.0 - 1.0 == (v - 1.0) / j;
  }

  /** The delay with factor v against the shortest one after it. */
  lemma CompareWithShortest(c: Config, k: nat, r: real, v: real)
    requires UnderCap(c, k) && 1.0 <= c.backoffMultiplier && Unit(r) && Factor(c.jitterFactor, r) == v
    ensures Shrinks(c, k, r, 0.0) <==> c.backoffMultiplier * (1.0 - c.jitterFactor) < v
    ensures Grows(c, k, r, 0.0) <==> v < c.backoffMultiplier * (1.0 - c.jitterFactor)
  {
    StaysPositive(c, k);
    var f, g := CompareJittered(c, Exponential(c, k), Exponential(c, k + 1), r, 0.0);
    assert g == 1.0 - c.jitterFactor;
  }

  /** A factor that beats the least one after it, when the multiplier is too
      small for the jitter. */
  lemma JitterAbove(m: real, j: real) returns (r: real)
    requires 0.0 <= j <= 1.0 <= m && m * (1.0 - j) < 1.0 + j
    ensures Unit(r) && m * (1.0 - j) < Factor(j, r)
  {
    Product(1.0, m, 1.0 - j);
    var low := m * (1.0 - j);
    assert 1.0 - j <= low < 1.0 + j;
    r := JitterFor(j, (low + 1.0 + j) / 2.0);
  }

  lemma ShrinksOtherwise(c: Config, k: nat) returns (r: real, s: real)
    requires UnderCap(c, k)
    ensures c.backoffMultiplier * (1.0 - c.jitterFactor) < 1.0 + c.jitterFactor ==>
              Unit(r) && Unit(s) && Shrinks(c, k, r, s)
  {
    r, s := 0.5, 0.5;
    if c.backoffMultiplier < 1.0 {
      SmallMultiplierShrinks(c, k);
    } else if c.backoffMultiplier * (1.0 - c.jitterFactor) < 1.0 + c.jitterFactor {
      s := 0.0;
      r := JitterAbove(c.backoffMultiplier, c.jitterFactor);
      CompareWithShortest(c, k, r, Factor(c.jitterFactor, r));
    }
  }

  /** While under the cap, some jitters make the next delay shorter exactly when
      the jitter outweighs the multiplier. */
  lemma MayShrinkIff(c: Config, k: nat)
    requires UnderCap(c, k)
    ensures (exists r, s :: Unit(r) && Unit(s) && Shrinks(c, k, r, s))
            <==> c.backoffMultiplier * (1.0 - c.jitterFactor) < 1.0 + c.jitterFactor
  {
    if 1.0 + c.jitterFactor <= c.backoffMultiplier * (1.0 - c.jitterFactor) {
      forall r, s | Unit(r) && Unit(s) ensures !Shrinks(c, k, r, s) {
        NeverShrinks(c, k, r, s);
      }
    } else {
      var r, s := ShrinksOtherwise(c, k);
      assert Unit(r) && Unit(s) && Shrinks(c, k, r, s);
    }
  }

  /** While under the cap, a delay is strictly shorter than the next one for all
      jitters exactly when the multiplier outgrows the jitter; without jitter,
      exactly when the multiplier is above one. */
  lemma BackoffGrowsIff(c: Config, k: nat)
    requires UnderCap(c, k)
    ensures (forall r, s :: Unit(r) && Unit(s) ==> Grows(c, k, r, s)) <==> Outgrows(c)
  {
    if Outgrows(c) {
      forall r, s | Unit(r) && Unit(s) ensures Grows(c, k, r, s) {
        GrowsWhenMultiplierOutgrows(c, k, r, s);
      }
    } else {
      var r, s := StallsOtherwise(c, k);
      assert Unit(r) && Unit(s) && !Grows(c, k, r, s);
    }
  }

  lemma StallsOtherwise(c: Config, k: nat) returns (r: real, s: real)
    requires UnderCap(c, k)
    ensures Unit(r) && Unit(s) && (Outgrows(c) || !Grows(c, k, r, s))
  {
    r, s := 0.0, 0.0;
    if c.backoffMultiplier * (1.0 - c.jitterFactor) < 1.0 + c.jitterFactor {
      r, s := ShrinksOtherwise(c, k);
    } else {
      AtLeastOne(c.backoffMultiplier, c.jitterFactor);
      if c.backoffMultiplier == 1.0 {
        assert c.jitterFactor == 0.0;
        CompareWithShortest(c, k, 0.0, 1.0);
      }
    }
  }

  /** The default delays are 1, 2, 4, 8, 16 and 32 seconds, all under the cap. */
  lemma DefaultPowers(k: nat)
    requires k <= 5
    ensures 1000.0 <= Exponential(DEFAULT_CONFIG, k) <= DEFAULT_CONFIG.maxDelayMs
  {
    assert Power(2.0, 1) == 2.0 && Power(2.0, 2) == 4.0;
    assert Power(2.0, 3) == 8.0 && Power(2.0, 4) == 16.0 && Power(2.0, 5) == 32.0;
  }

  lemma DelayBetween(c: Config, k: nat, r: real, low: real, high: real)
    requires 0.0 < Exponential(c, k) <= c.maxDelayMs && 0.0 < c.jitterFactor <= 1.0 && Unit(r)
    requires low <= (1.0 - c.jitterFactor) * Exponential(c, k) && (1.0 + c.jitterFactor) * Exponential(c, k) <= high
    ensures low <= Delay(c, k, r) < high
  {
    var (d, j) := (Exponential(c, k), c.jitterFactor);
    var f := JitteredUnderCap(c, d, r);
    ScaledBetween(1.0 - j, f, 1.0 + j, d, low, high, Delay(c, k, r));
  }

  lemma ScaledBetween(lo: real, f: real, hi: real, d: real, low: real, high: real, scaled: real)
    requires 0.0 < d && lo <= f < hi && low <= lo * d && hi * d <= high && scaled == f * d
    ensures low <= scaled < high
  {
    Product(lo, f, d);
    ProductStrict(f, hi, d);
  }

  /** The default delay before retry k is 2^k seconds, give or take a fifth: from
      that much less at the lowest jitter to that much more at the highest. */
  lemma DefaultDelays(k: nat, r: real)
    requires k <= 5 && Unit(r)
    ensures Delay(DEFAULT_CONFIG, k, r) == [1000.0, 2000.0, 4000.0, 8000.0, 16000.0, 32000.0][k] * (0.8 + 0.4 * r)
  {
    DefaultPowers(k);
    assert Power(2.0, 1) == 2.0 && Power(2.0, 2) == 4.0;
    assert Power(2.0, 3) == 8.0 && Power(2.0, 4) == 16.0 && Power(2.0, 5) == 32.0;
    var f := JitteredUnderCap(DEFAULT_CONFIG, Exponential(DEFAULT_CONFIG, k), r);
  }

  predicate Exceeds(c: Config, k: nat, r: real) {
    Delay(c, k, r) > c.maxDelayMs
  }

  /** The cap is put on before the jitter, so some jitters give a delay above the
      maximum exactly when there is jitter and its upper end reaches that far. */
  lemma MaximumExceededIff(c: Config, k: nat)
    requires 0.0 < c.maxDelayMs && 0.0 < Exponential(c, k) && 0.0 <= c.jitterFactor <= 1.0
    ensures (exists r :: Unit(r) && Exceeds(c, k, r))
            <==> 0.0 < c.jitterFactor && c.maxDelayMs < (1.0 + c.jitterFactor) * Exponential(c, k)
  {
    var (d, j) := (MinReal(Exponential(c, k), c.maxDelayMs), c.jitterFactor);
    UpperEnd(Exponential(c, k), c.maxDelayMs, j);
    if 0.0 < j && c.maxDelayMs < (1.0 + j) * d {
      var v := FactorBeyond(c.maxDelayMs, d, j);
      var r := JitterFor(j, v);
      CappedDelay(c, k, d, r);
      assert Unit(r) && Exceeds(c, k, r);
    } else {
      forall r | Unit(r) ensures !Exceeds(c, k, r) {
        NotExceeded(c, k, d, r);
      }
    }
  }

  lemma CappedDelay(c: Config, k: nat, d: real, r: real)
    requires d == MinReal(Exponential(c, k), c.maxDelayMs) && 0.0 < d && 0.0 <= c.jitterFactor <= 1.0 && Unit(r)
    ensures Delay(c, k, r) == Factor(c.jitterFactor, r) * d
  {
    var f := JitteredUnderCap(c, d, r);
  }

  lemma NotExceeded(c: Config, k: nat, d: real, r: real)
    requires d == MinReal(Exponential(c, k), c.maxDelayMs) && 0.0 < d && 0.0 <= c.jitterFactor <= 1.0 && Unit(r)
    requires (1.0 + c.jitterFactor) * d <= c.maxDelayMs
    ensures !Exceeds(c, k, r)
  {
    CappedDelay(c, k, d, r);
    FactorRange(c.jitterFactor, r);
    Product(Factor(c.jitterFactor, r), 1.0 + c.jitterFactor, d);
  }

  lemma UpperEnd(e: real, max: real, j: real)
    requires 0.0 < e && 0.0 < max && 0.0 <= j
    ensures var d := MinReal(e, max);
            && (0.0 < j ==> (max < (1.0 + j) * d <==> max < (1.0 + j) * e))
            && (j == 0.0 ==> (1.0 + j) * d <= max)
  {
    if 0.0 < j && max < e {
      ProductStrict(0.0, j, max);
      ProductStrict(0.0, j, e);
    }
  }

  /** A factor under 1 + j that takes d above the maximum. */
  lemma FactorBeyond(max: real, d: real, j: real) returns (v: real)
    requires 0.0 < d <= max < (1.0 + j) * d && 0.0 < j
    ensures 1.0 - j <= v < 1.0 + j && max < v * d
  {
    var q := max / d;
    assert q * d == max;
    if q >= 1.0 + j {
      Product(1.0 + j, q, d);
    }
    if q < 1.0 {
      ProductStrict(q, 1.0, d);
    }
    v := (q + 1.0 + j) / 2.0;
    ProductStrict(q, v, d);
  }

  lemma DefaultDelaysApart(count: nat, r: real, s: real)
    requires count < DEFAULT_CONFIG.maxRetries && Unit(r) && Unit(s)
    ensures Delay(DEFAULT_CONFIG, count, r) + 1.0 <= Delay(DEFAULT_CONFIG, count + 1, s)
  {
    var x := Exponential(DEFAULT_CONFIG, count);
    DefaultPowers(count);
    DefaultPowers(count + 1);
    ExponentialStep(DEFAULT_CONFIG, count);
    DelayBetween(DEFAULT_CONFIG, count, r, 0.8 * x, 1.2 * x);
    DelayBetween(DEFAULT_CONFIG, count + 1, s, 1.6 * x, 2.4 * x);
  }

  lemma FloorsApart(a: real, b: real)
    requires a + 1.0 <= b
    ensures a.Floor < b.Floor
  {
  }
}
