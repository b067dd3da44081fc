/**
 The circuit breaker.  An operation is one step when it is admitted and another
 when it settles, so any number of operations can be in flight, settle in any
 order, and settle long after the circuit changed state.

 The call that moves a circuit from OPEN to HALF_OPEN runs no operation: it
 answers null.
 */
module CircuitBreaker {

  datatype State = CLOSED | OPEN | HALF_OPEN

  datatype Config = Config(failureThreshold: int, failureWindowMs: int, resetTimeoutMs: int, successThreshold: int, hasFallback: bool)

  const DEFAULT_CONFIG := Config(5, 60000, 30000, 2, false)

  datatype Circuit = Circuit(state: State, failures: seq<int>, successCount: int, lastStateChange: int, config: Config)

  /** What a call answers.  At its admission the operation starts, or null, the
      fallback's value, or an error is returned without running it; an operation
      that settles answers its own value, the fallback's, or its error. */
  datatype Reply = Started | Null | Fallback | Thrown | Value

  function New(config: Config, now: int): Circuit {
    Circuit(CLOSED, [], 0, now, config)
  }

  function Begin(c: Circuit, now: int): (Circuit, Reply) {
    if c.state != OPEN then (c, Started)
    else if now - c.lastStateChange >= c.config.resetTimeoutMs then
      (c.(state := HALF_OPEN, lastStateChange := now, successCount := 0), Null)
    else (c, if c.config.hasFallback then Fallback else Thrown)
  }

  function Closed(c: Circuit, now: int): Circuit {
    c.(state := CLOSED, failures := [], successCount := 0, lastStateChange := now)
  }

  function Succeed(c: Circuit, now: int): Circuit {
    if c.state != HALF_OPEN then c
    else if c.successCount + 1 >= c.config.successThreshold then Closed(c, now)
    else c.(successCount := c.successCount + 1)
  }

  function Recent(times: seq<int>, from: int): seq<int> {
    if times == [] then []
    else
      var (front, t) := (Recent(times[..|times| - 1], from), times[|times| - 1]);
      if t >= from then front + [t] else front
  }

  function Fail(c: Circuit, now: int): Circuit {
    if c.state == HALF_OPEN then
      c.(state := OPEN, lastStateChange := now, successCount := 0)
    else
      var kept := Recent(c.failures + [now], now - c.config.failureWindowMs);
      if c.state == CLOSED && |kept| >= c.config.failureThreshold then
        c.(state := OPEN, failures := kept, lastStateChange := now)
      else
        c.(failures := kept)
  }

  // ----- runs of one circuit

  datatype Step = Admit(now: int) | Success(now: int) | Failure(now: int) | Reset(now: int)

  function Next(c: Circuit, s: Step): Circuit {
    match s
    case Admit(now) => Begin(c, now).0
    case Success(now) => Succeed(c, now)
    case Failure(now) => Fail(c, now)
    case Reset(now) => Closed(c, now)
  }

  /** The circuit after every step of a run that started at t0. */
  function After(config: Config, t0: int, run: seq<Step>): Circuit {
    if run == [] then New(config, t0) else Next(After(config, t0, run[..|run| - 1]), run[|run| - 1])
  }

  function LastTime(t0: int, run: seq<Step>): int {
    if run == [] then t0 else run[|run| - 1].now
  }

  /** The clock never goes back. */
  ghost predicate Timed(t0: int, run: seq<Step>) {
    run == [] || (Timed(t0, run[..|run| - 1]) && LastTime(t0, run[..|run| - 1]) <= run[|run| - 1].now)
  }

  lemma AfterSnoc(config: Config, t0: int, run: seq<Step>, s: Step)
    ensures After(config, t0, run + [s]) == Next(After(config, t0, run), s)
  {
    assert (run + [s])[..|run|] == run;
  }

  lemma {:induction false} ConfigNeverChanges(config: Config, t0: int, run: seq<Step>)
    ensures After(config, t0, run).config == config
  {
    if run != [] {
      ConfigNeverChanges(config, t0, run[..|run| - 1]);
    }
  }

  // ----- the pruned window refines the full history

  /** Every failure counted since the circuit last became CLOSED, never pruned. */
  ghost function History(config: Config, t0: int, run: seq<Step>): seq<int> {
    if run == [] then
      []
    else
      var (front, s) := (run[..|run| - 1], run[|run| - 1]);
      var (h, c) := (History(config, t0, front), After(config, t0, front));
      match s
      case Admit(_) => h
      case Success(_) => if c.state == HALF_OPEN && Next(c, s).state == CLOSED then [] else h
      case Failure(now) => if c.state == HALF_OPEN then h else h + [now]
      case Reset(_) => []
  }

  /** The history filtered to the window that ends at its latest failure. */
  ghost function Window(h: seq<int>, width: int): seq<int> {
    if h == [] then [] else Recent(h, h[|h| - 1] - width)
  }

  lemma RecentSnoc(h: seq<int>, t: int, from: int)
    ensures Recent(h + [t], from) == Recent(h, from) + if t >= from then [t] else []
  {
    assert (h + [t])[..|h|] == h;
  }

  /** Pruning early and pruning again later keeps what pruning once would keep. */
  lemma {:induction false} RecentTwice(h: seq<int>, early: int, late: int)
    requires early <= late
    ensures Recent(Recent(h, early), late) == Recent(h, late)
  {
    if h != [] {
      var (front, t) := (h[..|h| - 1], h[|h| - 1]);
      RecentTwice(front, early, late);
      if t >= early {
        RecentSnoc(Recent(front, early), t, late);
      }
    }
  }

  lemma {:induction false} HistoryBounded(config: Config, t0: int, run: seq<Step>)
    requires Timed(t0, run)
    ensures var h := History(config, t0, run); h == [] || h[|h| - 1] <= LastTime(t0, run)
  {
    if run != [] {
      HistoryBounded(config, t0, run[..|run| - 1]);
    }
  }

  /** In every state the kept list is the full history cut to the window that
      ends at the latest failure. */
  lemma {:induction false} FailuresAreTheWindow(config: Config, t0: int, run: seq<Step>)
    requires Timed(t0, run)
    ensures After(config, t0, run).failures == Window(History(config, t0, run), config.failureWindowMs)
  {
    if run != [] {
      var (front, s) := (run[..|run| - 1], run[|run| - 1]);
      var (c, h) := (After(config, t0, front), History(config, t0, front));
      FailuresAreTheWindow(config, t0, front);
      ConfigNeverChanges(config, t0, front);
      if s.Failure? && c.state != HALF_OPEN {
        HistoryBounded(config, t0, front);
        WindowSlides(h, s.now, config.failureWindowMs);
      }
    }
  }

  /** Appending a failure to the pruned list and pruning gives the new window. */
  lemma WindowSlides(h: seq<int>, now: int, width: int)
    requires h == [] || h[|h| - 1] <= now
    ensures Recent(Window(h, width) + [now], now - width) == Window(h + [now], width)
  {
    RecentSnoc(Window(h, width), now, now - width);
    RecentSnoc(h, now, now - width);
    if h != [] {
      RecentTwice(h, h[|h| - 1] - width, now - width);
    }
  }

  /** No failure of the history was the threshold-th one of its own window. */
  ghost predicate NeverReached(h: seq<int>, config: Config) {
    h == [] || (NeverReached(h[..|h| - 1], config) && |Window(h, config.failureWindowMs)| < config.failureThreshold)
  }

  /** A CLOSED circuit has never reached the threshold, and the next failure
      opens it exactly when the unpruned count reaches it. */
  lemma {:induction false} OpensWhenCountReached(config: Config, t0: int, run: seq<Step>, now: int)
    requires Timed(t0, run) && LastTime(t0, run) <= now
    requires After(config, t0, run).state == CLOSED
    ensures var h := History(config, t0, run);
            && NeverReached(h, config)
            && (Next(After(config, t0, run), Failure(now)).state == OPEN
                <==> |Window(h + [now], config.failureWindowMs)| >= config.failureThreshold)
  {
    ClosedNeverReached(config, t0, run);
    var longer := run + [Failure(now)];
    assert longer[..|run|] == run;
    AfterSnoc(config, t0, run, Failure(now));
    FailuresAreTheWindow(config, t0, longer);
    ConfigNeverChanges(config, t0, run);
  }

  lemma {:induction false} ClosedNeverReached(config: Config, t0: int, run: seq<Step>)
    requires Timed(t0, run) && After(config, t0, run).state == CLOSED
    ensures NeverReached(History(config, t0, run), config)
  {
    if run != [] {
      var (front, s) := (run[..|run| - 1], run[|run| - 1]);
      var (c, h) := (After(config, t0, front), History(config, t0, front));
      ConfigNeverChanges(config, t0, front);
      if c.state == CLOSED {
        ClosedNeverReached(config, t0, front);
        if s.Failure? {
          FailuresAreTheWindow(config, t0, run);
          assert (h + [s.now])[..|h|] == h;
        }
      }
    }
  }

  // ----- invariants of every interleaving

  /** CLOSED stays under the threshold (an empty list counts as under it, for a
      threshold below one); successes are counted in HALF_OPEN only, and stay
      under theirs. */
  ghost predicate Invariant(c: Circuit) {
    && (c.state == CLOSED ==> c.failures == [] || |c.failures| < c.config.failureThreshold)
    && (c.state != HALF_OPEN ==> c.successCount == 0)
    && (c.state == HALF_OPEN ==> c.successCount == 0 || 0 < c.successCount < c.config.successThreshold)
  }

  lemma {:induction false} InvariantAlways(config: Config, t0: int, run: seq<Step>)
    ensures Invariant(After(config, t0, run))
  {
    if run != [] {
      InvariantAlways(config, t0, run[..|run| - 1]);
    }
  }

  ghost function StateAt(config: Config, t0: int, run: seq<Step>, i: nat): State
    requires i <= |run|
  {
    After(config, t0, run[..i]).state
  }

  /** The step at `i` entered state `x`, which has held ever since. */
  ghost predicate EnteredAt(config: Config, t0: int, run: seq<Step>, i: nat, x: State) {
    && i < |run|
    && StateAt(config, t0, run, i) != x
    && forall k :: i < k <= |run| ==> StateAt(config, t0, run, k) == x
  }

  lemma StateAtSnoc(config: Config, t0: int, run: seq<Step>, s: Step, k: nat)
    requires k <= |run| + 1
    ensures StateAt(config, t0, run + [s], k)
            == if k <= |run| then StateAt(config, t0, run, k) else Next(After(config, t0, run), s).state
  {
    if k <= |run| {
      assert (run + [s])[..k] == run[..k];
    } else {
      assert (run + [s])[..k] == run + [s];
      AfterSnoc(config, t0, run, s);
    }
  }

  lemma EnteredSnoc(config: Config, t0: int, run: seq<Step>, s: Step, i: nat, x: State)
    requires Next(After(config, t0, run), s).state == x
    requires if i == |run| then After(config, t0, run).state != x else EnteredAt(config, t0, run, i, x)
    ensures EnteredAt(config, t0, run + [s], i, x)
  {
    StateAtSnoc(config, t0, run, s, i);
    assert run[..|run|] == run;
    forall k | i < k <= |run| + 1 ensures StateAt(config, t0, run + [s], k) == x {
      StateAtSnoc(config, t0, run, s, k);
    }
  }

  lemma OpenStep(c: Circuit, s: Step)
    requires Next(c, s).state == OPEN
    ensures if c.state == OPEN then Next(c, s).lastStateChange == c.lastStateChange
            else s.Failure? && Next(c, s).lastStateChange == s.now
  {
  }

  /** A circuit found OPEN was opened by a failure, at its recorded time. */
  lemma {:induction false} OpenSince(config: Config, t0: int, run: seq<Step>) returns (i: nat)
    requires After(config, t0, run).state == OPEN
    ensures EnteredAt(config, t0, run, i, OPEN)
    ensures run[i].Failure? && After(config, t0, run).lastStateChange == run[i].now
  {
    var (front, s) := (run[..|run| - 1], run[|run| - 1]);
    assert run == front + [s];
    OpenStep(After(config, t0, front), s);
    if After(config, t0, front).state == OPEN {
      i := OpenSince(config, t0, front);
    } else {
      i := |front|;
    }
    EnteredSnoc(config, t0, front, s, i, OPEN);
  }

  /** OPEN ends, short of a reset, exactly at an admission that comes at least
      resetTimeoutMs after the failure that opened the circuit; it ends in
      HALF_OPEN, and no operation starts before that. */
  lemma OpenLastsLongEnough(config: Config, t0: int, run: seq<Step>, s: Step) returns (i: nat)
    requires After(config, t0, run).state == OPEN
    ensures EnteredAt(config, t0, run, i, OPEN) && run[i].Failure?
    ensures s.Admit? ==> Begin(After(config, t0, run), s.now).1 != Started
    ensures Next(After(config, t0, run), s).state == HALF_OPEN
            <==> s.Admit? && s.now - run[i].now >= config.resetTimeoutMs
    ensures Next(After(config, t0, run), s).state == CLOSED <==> s.Reset?
  {
    i := OpenSince(config, t0, run);
    ConfigNeverChanges(config, t0, run);
  }

  /** An admission starts the operation exactly when the circuit is not OPEN, and
      then changes nothing.  While OPEN it answers null exactly when it half-opens
      the circuit, which it does from resetTimeoutMs after the failure that opened
      it; before that it answers by the fallback if there is one, else throws. */
  lemma AdmissionAnswers(config: Config, t0: int, run: seq<Step>, now: int) returns (i: nat)
    ensures var (c, (after, reply)) := (After(config, t0, run), Begin(After(config, t0, run), now));
            && (reply == Started <==> c.state != OPEN)
            && (reply == Null <==> c.state == OPEN && after.state == HALF_OPEN)
            && (reply != Null ==> after == c)
    ensures After(config, t0, run).state == OPEN ==>
              && EnteredAt(config, t0, run, i, OPEN) && run[i].Failure?
              && var (reply, elapsed) := (Begin(After(config, t0, run), now).1, now - run[i].now);
              && (reply == Null <==> elapsed >= config.resetTimeoutMs)
              && (reply == Fallback <==> elapsed < config.resetTimeoutMs && config.hasFallback)
              && (reply == Thrown <==> elapsed < config.resetTimeoutMs && !config.hasFallback)
  {
    i := 0;
    ConfigNeverChanges(config, t0, run);
    if After(config, t0, run).state == OPEN {
      i := OpenSince(config, t0, run);
    }
  }

  /** When the state last changed; a reset counts as a change. */
  ghost function LastChange(config: Config, t0: int, run: seq<Step>): int {
    if run == [] then t0
    else
      var (front, s) := (run[..|run| - 1], run[|run| - 1]);
      if s.Reset? || After(config, t0, front).state != After(config, t0, run).state then s.now
      else LastChange(config, t0, front)
  }

  lemma {:induction false} LastChangeIsRecorded(config: Config, t0: int, run: seq<Step>)
    ensures After(config, t0, run).lastStateChange == LastChange(config, t0, run)
  {
    if run != [] {
      LastChangeIsRecorded(config, t0, run[..|run| - 1]);
    }
  }

  function Successes(run: seq<Step>): nat {
    if run == [] then 0
    else Successes(run[..|run| - 1]) + if run[|run| - 1].Success? then 1 else 0
  }

  ghost predicate NoFailureNorReset(run: seq<Step>) {
    forall k :: 0 <= k < |run| ==> !run[k].Failure? && !run[k].Reset?
  }

  lemma SuffixSnoc(run: seq<Step>, s: Step, i: nat)
    requires i <= |run|
    ensures Successes((run + [s])[i..]) == Successes(run[i..]) + if s.Success? then 1 else 0
    ensures NoFailureNorReset(run[i..]) && !s.Failure? && !s.Reset? ==> NoFailureNorReset((run + [s])[i..])
  {
    assert (run + [s])[i..] == run[i..] + [s];
    assert (run[i..] + [s])[..|run[i..]|] == run[i..];
  }

  /** A step that ends in HALF_OPEN is an admission that half-opens the circuit,
      or one that counts a success and is neither a failure nor a reset. */
  lemma HalfOpenStep(c: Circuit, s: Step)
    requires Invariant(c) && Next(c, s).state == HALF_OPEN
    ensures c.state != HALF_OPEN ==> s.Admit? && Next(c, s).successCount == 0
    ensures c.state == HALF_OPEN ==>
              && !s.Failure? && !s.Reset?
              && Next(c, s).successCount == c.successCount + if s.Success? then 1 else 0
  {
  }

  /** The circuit half-opened at step i and has counted every success since,
      with no failure in between. */
  ghost predicate HalfOpenedAt(config: Config, t0: int, run: seq<Step>, i: nat) {
    && EnteredAt(config, t0, run, i, HALF_OPEN) && run[i].Admit?
    && NoFailureNorReset(run[i + 1..])
    && After(config, t0, run).successCount == Successes(run[i + 1..])
  }

  lemma StaysHalfOpen(config: Config, t0: int, run: seq<Step>, s: Step, i: nat)
    requires HalfOpenedAt(config, t0, run, i) && After(config, t0, run).state == HALF_OPEN
    requires After(config, t0, run + [s]).state == HALF_OPEN
    ensures HalfOpenedAt(config, t0, run + [s], i)
  {
    AfterSnoc(config, t0, run, s);
    InvariantAlways(config, t0, run);
    HalfOpenStep(After(config, t0, run), s);
    SuffixSnoc(run, s, i + 1);
    EnteredSnoc(config, t0, run, s, i, HALF_OPEN);
  }

  lemma BecomesHalfOpen(config: Config, t0: int, run: seq<Step>, s: Step)
    requires After(config, t0, run).state != HALF_OPEN
    requires After(config, t0, run + [s]).state == HALF_OPEN
    ensures HalfOpenedAt(config, t0, run + [s], |run|)
  {
    AfterSnoc(config, t0, run, s);
    InvariantAlways(config, t0, run);
    HalfOpenStep(After(config, t0, run), s);
    EnteredSnoc(config, t0, run, s, |run|, HALF_OPEN);
    assert (run + [s])[|run| + 1..] == [];
  }

  /** In HALF_OPEN the counter is the number of success completions since the
      admission that half-opened the circuit, with no failure in between. */
  lemma {:induction false} HalfOpenSince(config: Config, t0: int, run: seq<Step>) returns (i: nat)
    requires After(config, t0, run).state == HALF_OPEN
    ensures HalfOpenedAt(config, t0, run, i)
  {
    var (front, s) := (run[..|run| - 1], run[|run| - 1]);
    assert run == front + [s];
    if After(config, t0, front).state == HALF_OPEN {
      i := HalfOpenSince(config, t0, front);
      StaysHalfOpen(config, t0, front, s, i);
    } else {
      i := |front|;
      BecomesHalfOpen(config, t0, front, s);
    }
  }

  /** Without a reset a circuit leaves HALF_OPEN for CLOSED only at the success
      completion that is number successThreshold (or the first, for a threshold
      below one) since it half-opened, with no failure completion in between;
      any failure completion sends it back to OPEN. */
  lemma ClosesAfterEnoughSuccesses(config: Config, t0: int, run: seq<Step>, s: Step) returns (i: nat)
    requires After(config, t0, run).state == HALF_OPEN && !s.Reset?
    ensures EnteredAt(config, t0, run, i, HALF_OPEN) && run[i].Admit?
    ensures NoFailureNorReset(run[i + 1..])
    ensures Next(After(config, t0, run), s).state == CLOSED
            <==> s.Success? && Successes(run[i + 1..] + [s]) == if config.successThreshold > 1 then config.successThreshold else 1
    ensures Next(After(config, t0, run), s).state == OPEN <==> s.Failure?
  {
    i := HalfOpenSince(config, t0, run);
    ConfigNeverChanges(config, t0, run);
    InvariantAlways(config, t0, run);
    assert (run[i + 1..] + [s])[..|run[i + 1..]|] == run[i + 1..];
  }

  // ----- many circuits

  datatype Call = Call(id: string, step: Step, config: Config)

  type Circuits = map<string, Circuit>

  /** An admission creates a missing circuit with its own configuration; later
      configurations are ignored.  Nothing else touches a missing circuit. */
  function Dispatch(m: Circuits, call: Call): Circuits {
    if call.id in m then m[call.id := Next(m[call.id], call.step)]
    else if call.step.Admit? then m[call.id := New(call.config, call.step.now)]
    else m
  }

  function AfterCalls(calls: seq<Call>): Circuits {
    if calls == [] then map[] else Dispatch(AfterCalls(calls[..|calls| - 1]), calls[|calls| - 1])
  }

  datatype Trace = Absent | Trace(config: Config, t0: int, run: seq<Step>)

  /** The part of a run that concerns one circuit. */
  function Project(calls: seq<Call>, id: string): Trace {
    if calls == [] then
      Absent
    else
      var (front, call) := (Project(calls[..|calls| - 1], id), calls[|calls| - 1]);
      if call.id != id then front
      else if front.Trace? then front.(run := front.run + [call.step])
      else if call.step.Admit? then Trace(call.config, call.step.now, [])
      else Absent
  }

  /** Circuits do not interfere: each one is what its own steps make it. */
  lemma {:induction false} CircuitsAreIndependent(calls: seq<Call>, id: string)
    ensures id in AfterCalls(calls) <==> Project(calls, id).Trace?
    ensures id in AfterCalls(calls) ==>
              var t := Project(calls, id); AfterCalls(calls)[id] == After(t.config, t.t0, t.run)
  {
    if calls != [] {
      var front := calls[..|calls| - 1];
      CircuitsAreIndependent(front, id);
      var t := Project(front, id);
      if t.Trace? {
        AfterSnoc(t.config, t.t0, t.run, calls[|calls| - 1].step);
      }
    }
  }

  ghost predicate CallsTimed(calls: seq<Call>) {
    forall i, j :: 0 <= i < j < |calls| ==> calls[i].step.now <= calls[j].step.now
  }

  /** One clock for all circuits is a clock for each of them, so the lemmas about
      runs of one circuit apply to every circuit of every run of the service. */
  lemma {:induction false} ProjectKeepsTime(calls: seq<Call>, id: string)
    requires CallsTimed(calls)
    ensures Project(calls, id).Trace? ==>
              var t := Project(calls, id);
              && Timed(t.t0, t.run)
              && LastTime(t.t0, t.run) <= calls[|calls| - 1].step.now
  {
    if calls != [] {
      var front := calls[..|calls| - 1];
      ProjectKeepsTime(front, id);
      var t := Project(front, id);
      if t.Trace? {
        assert (t.run + [calls[|calls| - 1].step])[..|t.run|] == t.run;
      }
    }
  }

  /** What the admission of a call answers; the first call of a circuit runs. */
  function Answer(m: Circuits, id: string, now: int): Reply {
    if id in m then Begin(m[id], now).1 else Started
  }

  /** After any calls on any circuits: a call on a new circuit starts its operation,
      and one on a known circuit answers from that circuit's own steps and the
      configuration of its first call. */
  lemma CallAnswers(calls: seq<Call>, id: string, now: int) returns (i: nat)
    ensures var (t, reply) := (Project(calls, id), Answer(AfterCalls(calls), id, now));
            && (id !in AfterCalls(calls) ==> reply == Started)
            && (id in AfterCalls(calls) ==> t.Trace? && (reply == Started <==> After(t.config, t.t0, t.run).state != OPEN))
            && (id in AfterCalls(calls) && AfterCalls(calls)[id].state == OPEN ==>
                  && EnteredAt(t.config, t.t0, t.run, i, OPEN) && t.run[i].Failure?
                  && var elapsed := now - t.run[i].now;
                  && (reply == Null <==> elapsed >= t.config.resetTimeoutMs)
                  && (reply == Fallback <==> elapsed < t.config.resetTimeoutMs && t.config.hasFallback)
                  && (reply == Thrown <==> elapsed < t.config.resetTimeoutMs && !t.config.hasFallback))
  {
    i := 0;
    CircuitsAreIndependent(calls, id);
    var t := Project(calls, id);
    if t.Trace? {
      i := AdmissionAnswers(t.config, t.t0, t.run, now);
    }
  }

  // ----- the service

  class CircuitData {
    var state: State
    var failures: seq<int>
    var successCount: int
    var lastStateChange: int
    const config: Config

    ghost function View(): Circuit
      reads this
    {
      Circuit(state, failures, successCount, lastStateChange, config)
    }

    constructor (config: Config, now: int)
      ensures View() == New(config, now)
    {
      this.config := config;
      state, failures, successCount, lastStateChange := CLOSED, [], 0, now;
    }
  }

  class CircuitBreakerService {
    var circuits: map<string, CircuitData>

    /** No two ids share a record. */
    ghost predicate Valid()
      reads this
    {
      forall a, b :: a in circuits && b in circuits && circuits[a] == circuits[b] ==> a == b
    }

    ghost function View(): Circuits
      reads this, circuits.Values
    {
      map id | id in circuits :: circuits[id].View()
    }

    constructor ()
      ensures Valid() && View() == map[]
    {
      circuits := map[];
    }

    method GetOrCreateCircuit(id: string, config: Config, now: int) returns (c: CircuitData)
      requires Valid()
      modifies this
      ensures Valid() && id in circuits && circuits[id] == c
      ensures id in old(circuits) ==> circuits == old(circuits)
      ensures id !in old(circuits) ==> fresh(c) && circuits == old(circuits)[id := c] && c.View() == New(config, now)
    {
      if id !in circuits {
        var made := new CircuitData(config, now);
        circuits := circuits[id := made];
      }
      c := circuits[id];
    }

    /** The part of a protected call up to the point where the operation starts. */
    method Enter(id: string, config: Config, now: int) returns (c: CircuitData, reply: Reply)
      requires Valid()
      modifies this, circuits.Values
      ensures Valid() && id in circuits && circuits[id] == c
      ensures View() == Dispatch(old(View()), Call(id, Admit(now), config))
      ensures reply == Answer(old(View()), id, now)
    {
      c := GetOrCreateCircuit(id, config, now);
      if c.state == OPEN {
        reply := HandleOpenCircuit(c, now);
      } else {
        reply := Started;
      }
    }

    method HandleOpenCircuit(c: CircuitData, now: int) returns (reply: Reply)
      requires c.state == OPEN
      modifies c
      ensures (c.View(), reply) == Begin(old(c.View()), now)
    {
      if now - c.lastStateChange >= c.config.resetTimeoutMs {
        c.state := HALF_OPEN;
        c.lastStateChange := now;
        c.successCount := 0;
        return Null;
      }
      reply := if c.config.hasFallback then Fallback else Thrown;
    }

    /** The part of a protected call after its operation settled. */
    method Settle(id: string, c: CircuitData, succeeded: bool, now: int) returns (reply: Reply)
      requires Valid() && id in circuits && circuits[id] == c
      modifies c
      ensures reply == Value <==> succeeded
      ensures reply == Fallback <==> !succeeded && c.config.hasFallback
      ensures reply == Thrown <==> !succeeded && !c.config.hasFallback
      ensures View() == Dispatch(old(View()), Call(id, if succeeded then Success(now) else Failure(now), c.config))
    {
      if succeeded {
        HandleSuccess(c, now);
        reply := Value;
      } else {
        HandleFailure(c, now);
        reply := if c.config.hasFallback then Fallback else Thrown;
      }
    }

    method HandleSuccess(c: CircuitData, now: int)
      modifies c
      ensures c.View() == Succeed(old(c.View()), now)
    {
      if c.state == HALF_OPEN {
        c.successCount := c.successCount + 1;
        if c.successCount >= c.config.successThreshold {
          CloseCircuit(c, now);
        }
      }
    }

    method CloseCircuit(c: CircuitData, now: int)
      modifies c
      ensures c.View() == Closed(old(c.View()), now)
    {
      c.state := CLOSED;
      c.failures := [];
      c.successCount := 0;
      c.lastStateChange := now;
    }

    method HandleFailure(c: CircuitData, now: int)
      modifies c
      ensures c.View() == Fail(old(c.View()), now)
    {
      if c.state == HALF_OPEN {
        c.state := OPEN;
        c.lastStateChange := now;
        c.successCount := 0;
        return;
      }
      TrackFailureInClosedState(c, now);
    }

    method TrackFailureInClosedState(c: CircuitData, now: int)
      requires c.state != HALF_OPEN
      modifies c
      ensures c.View() == Fail(old(c.View()), now)
    {
      c.failures := c.failures + [now];
      c.failures := Recent(c.failures, now - c.config.failureWindowMs);
      if c.state == CLOSED && |c.failures| >= c.config.failureThreshold {
        c.state := OPEN;
        c.lastStateChange := now;
      }
    }

    method ResetCircuit(id: string, now: int)
      requires Valid()
      modifies circuits.Values
      ensures View() == Dispatch(old(View()), Call(id, Reset(now), DEFAULT_CONFIG))
    {
      if id in circuits {
        CloseCircuit(circuits[id], now);
      }
    }
  }
}
