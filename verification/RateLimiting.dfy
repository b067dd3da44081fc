/**
 The fixed-window rate limiter.  A stored entry is named by a key and a window
 number; the text "key:window" is such a name, because a window number has no
 colon in it.  Expired entries are swept at arbitrary moments.
 */
module RateLimiting {
  import opened Numbers

  type Width = x: int | x > 0 witness 1

  datatype Config = Config(windowMs: Width, maxRequests: int)

  datatype Slot = Slot(key: string, window: int)

  datatype Entry = Entry(count: int, resetTime: int)

  type Store = map<Slot, Entry>

  datatype Result = Result(allowed: bool, remaining: int, resetTime: int, totalHits: int)

  function WindowOf(config: Config, now: int): int {
    now / config.windowMs
  }

  function ResetTime(config: Config, window: int): int {
    (window + 1) * config.windowMs
  }

  predicate Live(s: Store, slot: Slot, now: int) {
    slot in s && s[slot].resetTime >= now
  }

  function Check(s: Store, key: string, config: Config, now: int): (Store, Result) {
    var window := WindowOf(config, now);
    var (slot, resetTime) := (Slot(key, window), ResetTime(config, window));
    if !Live(s, slot, now) then
      (s[slot := Entry(1, resetTime)], Result(true, config.maxRequests - 1, resetTime, 1))
    else
      var count := s[slot].count + 1;
      (s[slot := s[slot].(count := count)],
       Result(count <= config.maxRequests, Max(0, config.maxRequests - count), resetTime, count))
  }

  function Status(s: Store, key: string, config: Config, now: int): Result {
    var window := WindowOf(config, now);
    var (slot, resetTime) := (Slot(key, window), ResetTime(config, window));
    if !Live(s, slot, now) then Result(true, config.maxRequests, resetTime, 0)
    else
      Result(s[slot].count <= config.maxRequests, Max(0, config.maxRequests - s[slot].count), resetTime, s[slot].count)
  }

  function Cleanup(s: Store, now: int): Store {
    map slot | slot in s && s[slot].resetTime >= now :: s[slot]
  }

  /** A reset clears every stored name that starts with "key:". */
  predicate ClearedBy(key: string, other: string) {
    key + ":" <= other + ":"
  }

  function ResetKey(s: Store, key: string): Store {
    map slot | slot in s && !ClearedBy(key, slot.key) :: s[slot]
  }

  /** A reset clears the entries of the key itself and of every key that continues
      it with a colon, in every window, and no other. */
  lemma ResetClears(s: Store, key: string, slot: Slot)
    ensures slot in ResetKey(s, key)
            <==> && slot in s
                 && slot.key != key
                 && !(|key| < |slot.key| && slot.key[..|key|] == key && slot.key[|key|] == ':')
    ensures slot in ResetKey(s, key) ==> ResetKey(s, key)[slot] == s[slot]
  {
    var (k, o) := (key + ":", slot.key + ":");
    if |key| < |slot.key| {
      assert k <= o <==> o[..|k|] == k;
      assert o[..|k|] == slot.key[..|key| + 1] == slot.key[..|key|] + [slot.key[|key|]];
      assert k[..|key|] == key && k[|key|] == ':';
    } else if |key| == |slot.key| {
      assert k <= o <==> k == o;
      assert k[..|key|] == key && o[..|key|] == slot.key;
    }
  }

  /** The first check after a reset counts from one, and the status before it from
      zero, whatever had been used up. */
  lemma ResetForgets(s: Store, key: string, config: Config, now: int)
    ensures var cleared := ResetKey(s, key);
            && Check(cleared, key, config, now).1.allowed && Check(cleared, key, config, now).1.totalHits == 1
            && Check(cleared, key, config, now).1.remaining == config.maxRequests - 1
            && Status(cleared, key, config, now).allowed && Status(cleared, key, config, now).totalHits == 0
            && Status(cleared, key, config, now).remaining == config.maxRequests
  {
    ResetClears(s, key, Slot(key, WindowOf(config, now)));
  }

  // ----- runs

  datatype Step =
    | DoCheck(key: string, config: Config, now: int)
    | DoCleanup(now: int)
    | DoReset(other: string, now: int)

  function Next(s: Store, step: Step): Store {
    match step
    case DoCheck(key, config, now) => Check(s, key, config, now).0
    case DoCleanup(now) => Cleanup(s, now)
    case DoReset(other, _) => ResetKey(s, other)
  }

  function After(run: seq<Step>): Store {
    if run == [] then map[] else Next(After(run[..|run| - 1]), run[|run| - 1])
  }

  predicate NotAfter(run: seq<Step>, now: int) {
    run == [] || run[|run| - 1].now <= now
  }

  /** Time does not go back; the key always comes with one configuration and is
      not reset.  Other keys and cleanups are unrestricted. */
  ghost predicate Regular(run: seq<Step>, key: string, config: Config) {
    run == [] ||
    var (front, step) := (run[..|run| - 1], run[|run| - 1]);
    && Regular(front, key, config)
    && NotAfter(front, step.now)
    && (step.DoCheck? && step.key == key ==> step.config == config)
    && (step.DoReset? ==> !ClearedBy(step.other, key))
  }

  predicate IsCheckIn(step: Step, key: string, config: Config, window: int) {
    step.DoCheck? && step.key == key && WindowOf(config, step.now) == window
  }

  predicate IsAllowed(before: Store, step: Step) {
    step.DoCheck? && Check(before, step.key, step.config, step.now).1.allowed
  }

  /** How often the key was checked in a window, and how often allowed. */
  function Hits(run: seq<Step>, key: string, config: Config, window: int): nat {
    if run == [] then 0
    else Hits(run[..|run| - 1], key, config, window)
         + if IsCheckIn(run[|run| - 1], key, config, window) then 1 else 0
  }

  function Allowed(run: seq<Step>, key: string, config: Config, window: int): nat {
    if run == [] then 0
    else
      var (front, step) := (run[..|run| - 1], run[|run| - 1]);
      Allowed(front, key, config, window)
      + if IsCheckIn(step, key, config, window) && IsAllowed(After(front), step) then 1 else 0
  }

  /** How often the key was allowed at a time in [from, to). */
  function AllowedBetween(run: seq<Step>, key: string, from: int, to: int): nat {
    if run == [] then 0
    else
      var (front, step) := (run[..|run| - 1], run[|run| - 1]);
      AllowedBetween(front, key, from, to)
      + if step.DoCheck? && step.key == key && from <= step.now < to && IsAllowed(After(front), step) then 1 else 0
  }

  lemma WindowBounds(config: Config, now: int)
    ensures WindowOf(config, now) * config.windowMs <= now < ResetTime(config, WindowOf(config, now))
  {
  }

  lemma WindowUnique(config: Config, now: int, window: int)
    requires window * config.windowMs <= now < ResetTime(config, window)
    ensures WindowOf(config, now) == window
  {
    var q := now / config.windowMs;
    assert q * config.windowMs <= now < (q + 1) * config.windowMs;
    if q < window {
      MulLe(q + 1, window, config.windowMs);
    } else if window < q {
      MulLe(window + 1, q, config.windowMs);
    }
  }

  lemma MulLe(x: int, y: int, w: Width)
    requires x <= y
    ensures x * w <= y * w
  {
  }

  /** The entry of a window that is not over counts the checks made in it. */
  ghost predicate Counts(run: seq<Step>, key: string, config: Config, window: int) {
    var (s, n, slot) := (After(run), Hits(run, key, config, window), Slot(key, window));
    && (slot in s <==> n > 0)
    && (slot in s ==> s[slot] == Entry(n, ResetTime(config, window)))
  }

  ghost predicate NotOver(run: seq<Step>, config: Config, window: int) {
    run == [] || run[|run| - 1].now < ResetTime(config, window)
  }

  lemma {:induction false} OpenWindowCounts(run: seq<Step>, key: string, config: Config, window: int)
    requires Regular(run, key, config) && NotOver(run, config, window)
    ensures Counts(run, key, config, window)
  {
    if run != [] {
      var front := run[..|run| - 1];
      OpenWindowCounts(front, key, config, window);
      WindowBounds(config, run[|run| - 1].now);
    }
  }

  // ----- runs in which the key is reset as well

  /** Time does not go back, and the key always comes with one configuration. */
  ghost predicate Steady(run: seq<Step>, key: string, config: Config) {
    run == [] ||
    var (front, step) := (run[..|run| - 1], run[|run| - 1]);
    && Steady(front, key, config)
    && NotAfter(front, step.now)
    && (step.DoCheck? && step.key == key ==> step.config == config)
  }

  /** How often the key was checked in a window since it was last reset. */
  function HitsSinceReset(run: seq<Step>, key: string, config: Config, window: int): nat {
    if run == [] then 0
    else
      var (front, step) := (run[..|run| - 1], run[|run| - 1]);
      if step.DoReset? && (step.other == key || step.other + ":" <= key) then 0
      else HitsSinceReset(front, key, config, window) + if IsCheckIn(step, key, config, window) then 1 else 0
  }

  lemma ColonPrefix(key: string, other: string)
    ensures ClearedBy(other, key) <==> other == key || other + ":" <= key
  {
    var (k, o) := (key + ":", other + ":");
    if |o| <= |key| {
      assert k[..|o|] == key[..|o|];
    } else if |o| == |k| {
      assert k[..|key|] == key && o[..|other|] == other;
    }
  }

  /** Until a window is over its entry counts the checks made in it since the last
      reset of the key. */
  lemma {:induction false} OpenWindowCountsSinceReset(run: seq<Step>, key: string, config: Config, window: int)
    requires Steady(run, key, config) && NotOver(run, config, window)
    ensures var (s, n, slot) := (After(run), HitsSinceReset(run, key, config, window), Slot(key, window));
            && (slot in s <==> n > 0)
            && (slot in s ==> s[slot] == Entry(n, ResetTime(config, window)))
  {
    if run != [] {
      var (front, step) := (run[..|run| - 1], run[|run| - 1]);
      OpenWindowCountsSinceReset(front, key, config, window);
      WindowBounds(config, step.now);
      if step.DoReset? {
        ColonPrefix(key, step.other);
      }
    }
  }

  /** So with resets as well a check is allowed exactly when, itself included, the
      checks in its window since the last reset are within the limit, or it is the
      first of them. */
  lemma CheckReportsSinceReset(run: seq<Step>, key: string, config: Config, now: int)
    requires Steady(run, key, config) && NotAfter(run, now)
    ensures var hits := HitsSinceReset(run, key, config, WindowOf(config, now)) + 1;
            var r := Check(After(run), key, config, now).1;
            r.totalHits == hits && (r.allowed <==> hits <= Max(1, config.maxRequests))
  {
    WindowBounds(config, now);
    OpenWindowCountsSinceReset(run, key, config, WindowOf(config, now));
  }

  // ----- sweeps are invisible

  /** A sweep takes away the entries whose reset time has passed, and no other. */
  lemma CleanupKeeps(s: Store, now: int, slot: Slot)
    ensures slot in Cleanup(s, now) <==> slot in s && now <= s[slot].resetTime
    ensures slot in Cleanup(s, now) ==> Cleanup(s, now)[slot] == s[slot]
  {
  }

  /** A check goes on counting in the entry of its window exactly as long as a sweep
      would leave it there. */
  lemma CountsWhatASweepLeaves(s: Store, key: string, config: Config, now: int)
    ensures var (slot, swept) := (Slot(key, now / config.windowMs), Cleanup(s, now));
            var counted := if slot in swept then s[slot].count else 0;
            && Status(s, key, config, now).totalHits == counted
            && Check(s, key, config, now).1.totalHits == counted + 1
            && Check(s, key, config, now).0[slot].count == counted + 1
            && (slot in swept ==> Check(s, key, config, now).0[slot].resetTime == s[slot].resetTime)
  {
    CleanupKeeps(s, now, Slot(key, WindowOf(config, now)));
  }

  ghost predicate Agree(s: Store, t: Store, now: int) {
    forall slot | slot in s || slot in t ::
      || (slot in s && slot in t && s[slot] == t[slot])
      || ((slot in s ==> s[slot].resetTime < now) && (slot in t ==> t[slot].resetTime < now))
  }

  lemma AgreeAnswersAlike(s: Store, t: Store, key: string, config: Config, now: int)
    requires Agree(s, t, now)
    ensures Check(s, key, config, now).1 == Check(t, key, config, now).1
    ensures Status(s, key, config, now) == Status(t, key, config, now)
    ensures Agree(Check(s, key, config, now).0, Check(t, key, config, now).0, now)
  {
    var slot := Slot(key, WindowOf(config, now));
    assert slot in s || slot in t ==> (Live(s, slot, now) <==> Live(t, slot, now));
  }

  /** A step keeps two stores agreeing, and so does a sweep of the first alone. */
  lemma StepKeepsAgreeing(s: Store, t: Store, step: Step, now: int)
    requires Agree(s, t, step.now) && step.now <= now
    ensures Agree(Next(s, step), if step.DoCleanup? then t else Next(t, step), now)
  {
    if step.DoCheck? {
      AgreeAnswersAlike(s, t, step.key, step.config, step.now);
    }
  }

  function WithoutSweeps(run: seq<Step>): seq<Step> {
    if run == [] then []
    else WithoutSweeps(run[..|run| - 1]) + if run[|run| - 1].DoCleanup? then [] else [run[|run| - 1]]
  }

  ghost predicate InTime(run: seq<Step>) {
    run == [] || (InTime(run[..|run| - 1]) && NotAfter(run[..|run| - 1], run[|run| - 1].now))
  }

  lemma {:induction false} SweptAgrees(run: seq<Step>, now: int)
    requires InTime(run) && NotAfter(run, now)
    ensures Agree(After(run), After(WithoutSweeps(run)), now)
  {
    if run != [] {
      var (front, step) := (run[..|run| - 1], run[|run| - 1]);
      var bare := WithoutSweeps(front);
      SweptAgrees(front, step.now);
      StepKeepsAgreeing(After(front), After(bare), step, now);
      assert (bare + [step])[..|bare|] == bare;
      assert step.DoCleanup? ==> WithoutSweeps(run) == bare;
    }
  }

  /** Whatever configurations a key is checked with and whatever is reset, every
      check and every status is answered as if there had never been a sweep. */
  lemma SweepsAreInvisible(run: seq<Step>, key: string, config: Config, now: int)
    requires InTime(run) && NotAfter(run, now)
    ensures var (swept, bare) := (After(run), After(WithoutSweeps(run)));
            && Check(swept, key, config, now).1 == Check(bare, key, config, now).1
            && Status(swept, key, config, now) == Status(bare, key, config, now)
  {
    SweptAgrees(run, now);
    AgreeAnswersAlike(After(run), After(WithoutSweeps(run)), key, config, now);
  }

  /** In every window exactly the first maxRequests checks are allowed, however
      cleanups and other keys interleave; one is allowed even when maxRequests is
      below one. */
  lemma {:induction false} AllowsExactly(run: seq<Step>, key: string, config: Config, window: int)
    requires Regular(run, key, config)
    ensures Allowed(run, key, config, window)
            == Min(Hits(run, key, config, window), Max(1, config.maxRequests))
  {
    if run != [] {
      var (front, step) := (run[..|run| - 1], run[|run| - 1]);
      AllowsExactly(front, key, config, window);
      if IsCheckIn(step, key, config, window) {
        WindowBounds(config, step.now);
        OpenWindowCounts(front, key, config, window);
      }
    }
  }

  /** What a check reports: the hits of its window so far, itself included, and
      what is left of the limit.  (The first check reports one less than the
      limit even when that is negative.) */
  lemma CheckReports(run: seq<Step>, key: string, config: Config, now: int)
    requires Regular(run, key, config) && NotAfter(run, now)
    ensures var hits := Hits(run, key, config, WindowOf(config, now)) + 1;
            var r := Check(After(run), key, config, now).1;
            && r.totalHits == hits
            && (r.allowed <==> hits <= Max(1, config.maxRequests))
            && r.remaining == (if hits == 1 then config.maxRequests - 1 else Max(0, config.maxRequests - hits))
            && now < r.resetTime <= now + config.windowMs
  {
    WindowBounds(config, now);
    OpenWindowCounts(run, key, config, WindowOf(config, now));
  }

  /** A status query counts the hits so far and foretells the next check, except
      when the limit is just used up: it then still says allowed. */
  lemma StatusForetellsIff(run: seq<Step>, key: string, config: Config, now: int)
    requires Regular(run, key, config) && NotAfter(run, now)
    ensures var hits := Hits(run, key, config, WindowOf(config, now));
            var (status, next) := (Status(After(run), key, config, now), Check(After(run), key, config, now).1);
            && status.totalHits == hits == next.totalHits - 1
            && status.remaining == (if hits == 0 then config.maxRequests else Max(0, config.maxRequests - hits))
            && status.resetTime == next.resetTime
            && ((status.allowed <==> next.allowed) <==> !(hits == config.maxRequests && config.maxRequests >= 1))
  {
    WindowBounds(config, now);
    OpenWindowCounts(run, key, config, WindowOf(config, now));
  }

  /** So min(n, maxRequests) is right, once a window is hit, exactly when
      maxRequests is at least one. */
  lemma LimitRespectedIff(run: seq<Step>, key: string, config: Config, window: int)
    requires Regular(run, key, config) && Hits(run, key, config, window) > 0
    ensures Allowed(run, key, config, window) == Min(Hits(run, key, config, window), config.maxRequests)
            <==> config.maxRequests >= 1
  {
    AllowsExactly(run, key, config, window);
  }

  lemma {:induction false} TwoWindows(run: seq<Step>, key: string, config: Config, from: int)
    ensures AllowedBetween(run, key, from, from + config.windowMs)
            <= Allowed(run, key, config, WindowOf(config, from)) + Allowed(run, key, config, WindowOf(config, from) + 1)
  {
    if run != [] {
      var (step, w) := (run[|run| - 1], WindowOf(config, from));
      TwoWindows(run[..|run| - 1], key, config, from);
      if step.DoCheck? && from <= step.now < from + config.windowMs {
        WindowBounds(config, from);
        if step.now < ResetTime(config, w) {
          WindowUnique(config, step.now, w);
        } else {
          WindowUnique(config, step.now, w + 1);
        }
      }
    }
  }

  /** Any half-open interval as long as a window, wherever it starts, holds at
      most twice the limit. */
  lemma AnyIntervalBounded(run: seq<Step>, key: string, config: Config, from: int)
    requires Regular(run, key, config)
    ensures AllowedBetween(run, key, from, from + config.windowMs) <= 2 * Max(1, config.maxRequests)
  {
    TwoWindows(run, key, config, from);
    AllowsExactly(run, key, config, WindowOf(config, from));
    AllowsExactly(run, key, config, WindowOf(config, from) + 1);
  }

  // ----- the bound is reached

  function Burst(key: string, config: Config, now: int, n: nat): seq<Step> {
    seq(n, _ => DoCheck(key, config, now))
  }

  lemma BurstSnoc(before: seq<Step>, key: string, config: Config, now: int, n: nat)
    requires n > 0
    ensures var run := before + Burst(key, config, now, n);
            && run[..|run| - 1] == before + Burst(key, config, now, n - 1)
            && run[|run| - 1] == DoCheck(key, config, now)
  {
  }

  lemma {:induction false} BurstHits(before: seq<Step>, key: string, config: Config, now: int, n: nat, w: int)
    ensures Hits(before + Burst(key, config, now, n), key, config, w)
            == Hits(before, key, config, w) + if WindowOf(config, now) == w then n else 0
  {
    if n == 0 {
      assert before + Burst(key, config, now, n) == before;
    } else {
      BurstSnoc(before, key, config, now, n);
      BurstHits(before, key, config, now, n - 1, w);
    }
  }

  lemma {:induction false} BurstRegular(before: seq<Step>, key: string, config: Config, now: int, n: nat)
    requires Regular(before, key, config) && NotAfter(before, now)
    ensures var run := before + Burst(key, config, now, n);
            Regular(run, key, config) && NotAfter(run, now)
  {
    if n == 0 {
      assert before + Burst(key, config, now, n) == before;
    } else {
      BurstSnoc(before, key, config, now, n);
      BurstRegular(before, key, config, now, n - 1);
    }
  }

  lemma AllowedBetweenSnoc(run: seq<Step>, key: string, config: Config, now: int, from: int, to: int)
    ensures AllowedBetween(run + [DoCheck(key, config, now)], key, from, to)
            == AllowedBetween(run, key, from, to)
               + if from <= now < to && Check(After(run), key, config, now).1.allowed then 1 else 0
  {
    assert (run + [DoCheck(key, config, now)])[..|run|] == run;
  }

  lemma {:induction false} BurstAllowed(before: seq<Step>, key: string, config: Config, now: int, n: nat, from: int, to: int)
    requires Regular(before, key, config) && NotAfter(before, now)
    requires Hits(before, key, config, WindowOf(config, now)) == 0
    requires n <= Max(1, config.maxRequests) && from <= now < to
    ensures AllowedBetween(before + Burst(key, config, now, n), key, from, to)
            == AllowedBetween(before, key, from, to) + n
  {
    if n == 0 {
      assert before + Burst(key, config, now, n) == before;
    } else {
      var front := before + Burst(key, config, now, n - 1);
      BurstAllowed(before, key, config, now, n - 1, from, to);
      BurstRegular(before, key, config, now, n - 1);
      BurstHits(before, key, config, now, n - 1, WindowOf(config, now));
      CheckReports(front, key, config, now);
      BurstSnoc(before, key, config, now, n);
      AllowedBetweenSnoc(front, key, config, now, from, to);
      assert before + Burst(key, config, now, n) == front + [DoCheck(key, config, now)];
    }
  }

  /** Twice the limit is reached in an interval that is not aligned: a full burst
      at the end of one window and another at the start of the next. */
  lemma UnalignedReachesTwice(key: string, config: Config, from: int) returns (run: seq<Step>)
    requires from % config.windowMs != 0
    ensures Regular(run, key, config)
    ensures AllowedBetween(run, key, from, from + config.windowMs) == 2 * Max(1, config.maxRequests)
  {
    var edge := ResetTime(config, WindowOf(config, from));
    EdgeInside(config, from);
    var first := AnotherBurst([], key, config, edge - 1, from);
    run := AnotherBurst(first, key, config, edge, from);
  }

  lemma AnotherBurst(before: seq<Step>, key: string, config: Config, now: int, from: int) returns (run: seq<Step>)
    requires Regular(before, key, config) && NotAfter(before, now)
    requires Hits(before, key, config, WindowOf(config, now)) == 0
    requires from <= now < from + config.windowMs
    ensures Regular(run, key, config) && NotAfter(run, now)
    ensures forall w :: w != WindowOf(config, now) ==> Hits(run, key, config, w) == Hits(before, key, config, w)
    ensures AllowedBetween(run, key, from, from + config.windowMs)
            == AllowedBetween(before, key, from, from + config.windowMs) + Max(1, config.maxRequests)
  {
    var limit: nat := Max(1, config.maxRequests);
    run := before + Burst(key, config, now, limit);
    BurstRegular(before, key, config, now, limit);
    BurstAllowed(before, key, config, now, limit, from, from + config.windowMs);
    forall w | w != WindowOf(config, now) ensures Hits(run, key, config, w) == Hits(before, key, config, w) {
      BurstHits(before, key, config, now, limit, w);
    }
  }

  lemma EdgeInside(config: Config, from: int)
    requires from % config.windowMs != 0
    ensures var (w, edge) := (WindowOf(config, from), ResetTime(config, WindowOf(config, from)));
            && from <= edge - 1 && edge < from + config.windowMs
            && WindowOf(config, edge - 1) == w && WindowOf(config, edge) == w + 1
  {
    var w := WindowOf(config, from);
    assert from == w * config.windowMs + from % config.windowMs;
    WindowBounds(config, from);
    WindowUnique(config, ResetTime(config, w) - 1, w);
    assert ResetTime(config, w + 1) == ResetTime(config, w) + config.windowMs;
    WindowUnique(config, ResetTime(config, w), w + 1);
  }

  ghost predicate KeepsLimit(run: seq<Step>, key: string, config: Config, from: int) {
    AllowedBetween(run, key, from, from + config.windowMs) <= Max(1, config.maxRequests)
  }

  /** An interval of one window's length keeps the single limit on every run
      exactly when it starts where a window starts. */
  lemma SingleLimitIffAligned(key: string, config: Config, from: int)
    ensures (forall run :: Regular(run, key, config) ==> KeepsLimit(run, key, config, from))
            <==> from % config.windowMs == 0
  {
    if from % config.windowMs == 0 {
      forall run | Regular(run, key, config) ensures KeepsLimit(run, key, config, from) {
        AlignedIsOneWindow(run, key, config, from);
        AllowsExactly(run, key, config, WindowOf(config, from));
      }
    } else {
      var run := UnalignedReachesTwice(key, config, from);
      assert !KeepsLimit(run, key, config, from);
    }
  }

  lemma {:induction false} AlignedIsOneWindow(run: seq<Step>, key: string, config: Config, from: int)
    requires from % config.windowMs == 0
    ensures AllowedBetween(run, key, from, from + config.windowMs) == Allowed(run, key, config, WindowOf(config, from))
  {
    if run != [] {
      AlignedIsOneWindow(run[..|run| - 1], key, config, from);
      SameInstants(config, from, run[|run| - 1].now);
    }
  }

  lemma SameInstants(config: Config, from: int, now: int)
    requires from % config.windowMs == 0
    ensures from <= now < from + config.windowMs <==> WindowOf(config, now) == WindowOf(config, from)
  {
    var w := WindowOf(config, from);
    assert from == w * config.windowMs;
    WindowBounds(config, now);
    if from <= now < from + config.windowMs {
      WindowUnique(config, now, w);
    }
  }

  /** A limit that is just used up: the status still says allowed, and the next
      check is refused. */
  lemma JustUsedUp(key: string, config: Config, now: int) returns (run: seq<Step>)
    requires config.maxRequests >= 1
    ensures Regular(run, key, config) && NotAfter(run, now)
    ensures Status(After(run), key, config, now).allowed && !Check(After(run), key, config, now).1.allowed
  {
    run := [] + Burst(key, config, now, config.maxRequests);
    BurstRegular([], key, config, now, config.maxRequests);
    BurstHits([], key, config, now, config.maxRequests, WindowOf(config, now));
    StatusForetellsIff(run, key, config, now);
    CheckReports(run, key, config, now);
    WindowBounds(config, now);
    OpenWindowCounts(run, key, config, WindowOf(config, now));
  }

  /** A limit of zero lets the first check of a window through. */
  lemma ZeroLimitAllowsOne(key: string, windowMs: Width, now: int)
    ensures var (config, run) := (Config(windowMs, 0), [DoCheck(key, Config(windowMs, 0), now)]);
            && Regular(run, key, config) && Hits(run, key, config, WindowOf(config, now)) == 1
            && Allowed(run, key, config, WindowOf(config, now)) == 1
  {
    var (config, run) := (Config(windowMs, 0), [DoCheck(key, Config(windowMs, 0), now)]);
    assert run[..|run| - 1] == [] && Regular([], key, config) && NotAfter([], now);
    assert run[|run| - 1] == DoCheck(key, config, now);
    assert Regular(run, key, config);
    AllowsExactly(run, key, config, WindowOf(config, now));
  }

  // ----- the class

  class RateLimitingService {
    var rateLimitStore: Store

    constructor ()
      ensures rateLimitStore == map[]
    {
      rateLimitStore := map[];
    }

    method CheckRateLimit(key: string, config: Config, now: int) returns (r: Result)
      modifies this
      ensures (rateLimitStore, r) == Check(old(rateLimitStore), key, config, now)
    {
      var window := now / config.windowMs;
      var slot := Slot(key, window);
      var resetTime := (window + 1) * config.windowMs;
      if slot !in rateLimitStore || rateLimitStore[slot].resetTime < now {
        rateLimitStore := rateLimitStore[slot := Entry(1, resetTime)];
        return Result(true, config.maxRequests - 1, resetTime, 1);
      }
      var count := rateLimitStore[slot].count + 1;
      rateLimitStore := rateLimitStore[slot := rateLimitStore[slot].(count := count)];
      r := Result(count <= config.maxRequests, Max(0, config.maxRequests - count), resetTime, count);
    }

    method GetRateLimitStatus(key: string, config: Config, now: int) returns (r: Result)
      ensures r == Status(rateLimitStore, key, config, now)
      ensures var next := Check(rateLimitStore, key, config, now).1;
              r.totalHits == next.totalHits - 1 && r.resetTime == next.resetTime && (next.allowed ==> r.allowed)
    {
      var window := now / config.windowMs;
      var slot := Slot(key, window);
      var resetTime := (window + 1) * config.windowMs;
      if slot !in rateLimitStore || rateLimitStore[slot].resetTime < now {
        return Result(true, config.maxRequests, resetTime, 0);
      }
      var count := rateLimitStore[slot].count;
      r := Result(count <= config.maxRequests, Max(0, config.maxRequests - count), resetTime, count);
    }

    method CleanupExpiredKeys(now: int)
      modifies this
      ensures rateLimitStore == Cleanup(old(rateLimitStore), now)
    {
      var keysToDelete: set<Slot> := {};
      var todo := rateLimitStore.Keys;
      while todo != {}
        invariant todo <= rateLimitStore.Keys && rateLimitStore == old(rateLimitStore)
        invariant forall k :: k in keysToDelete <==>
                    k in rateLimitStore && k !in todo && rateLimitStore[k].resetTime < now
      {
        var k :| k in todo;
        if rateLimitStore[k].resetTime < now {
          keysToDelete := keysToDelete + {k};
        }
        todo := todo - {k};
      }
      rateLimitStore := rateLimitStore - keysToDelete;
    }

    method ResetRateLimit(key: string)
      modifies this
      ensures rateLimitStore == ResetKey(old(rateLimitStore), key)
    {
      var keysToDelete: set<Slot> := {};
      var todo := rateLimitStore.Keys;
      while todo != {}
        invariant todo <= rateLimitStore.Keys && rateLimitStore == old(rateLimitStore)
        invariant forall k :: k in keysToDelete <==> k in rateLimitStore && k !in todo && ClearedBy(key, k.key)
      {
        var k :| k in todo;
        if ClearedBy(key, k.key) {
          keysToDelete := keysToDelete + {k};
        }
        todo := todo - {k};
      }
      rateLimitStore := rateLimitStore - keysToDelete;
    }
  }
}
