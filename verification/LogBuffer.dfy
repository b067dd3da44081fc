/**
 The log shipper: logs are pushed to a buffer, a flush takes the whole buffer to
 the search cluster, and a failed flush puts its logs back in front and trims.
 A flush is one step when it starts and another when it settles, so any number
 of flushes can be in flight and settle in any order.
 */
module LogBuffer {
  import opened Sequences

  type Log = string

  /** `ready` is fixed at start-up: the shipper is enabled and connected. */
  datatype Shipper = Shipper(
    ready: bool, bulkSize: int, buffer: seq<Log>, inFlight: seq<seq<Log>>,
    accepted: multiset<Log>, delivered: multiset<Log>, trimmed: multiset<Log>)

  function New(ready: bool, bulkSize: int): Shipper {
    Shipper(ready, bulkSize, [], [], multiset{}, multiset{}, multiset{})
  }

  /** `slice(-n)`: the last n elements, but everything when n is zero. */
  function Tail(s: seq<Log>, n: int): (start: nat)
    ensures start <= |s|
  {
    if n > 0 then (if n < |s| then |s| - n else 0)
    else if -n < |s| then -n else |s|
  }

  function StartFlush(x: Shipper): Shipper {
    if !x.ready || x.buffer == [] then x
    else x.(inFlight := x.inFlight + [x.buffer], buffer := [])
  }

  function Accept(x: Shipper, log: Log): Shipper {
    if !x.ready then x
    else
      var y := x.(buffer := x.buffer + [log], accepted := x.accepted + multiset{log});
      if |y.buffer| >= y.bulkSize then StartFlush(y) else y
  }

  function Without(s: seq<seq<Log>>, i: nat): seq<seq<Log>>
    requires i < |s|
  {
    s[..i] + s[i + 1..]
  }

  function PutBack(x: Shipper, logs: seq<Log>): Shipper {
    var all := logs + x.buffer;
    if |all| > x.bulkSize * 2 then
      var start := Tail(all, x.bulkSize);
      x.(buffer := all[start..], trimmed := x.trimmed + multiset(all[..start]))
    else
      x.(buffer := all)
  }

  function Settle(x: Shipper, i: nat, ok: bool): Shipper {
    if i >= |x.inFlight| then x
    else
      var (logs, y) := (x.inFlight[i], x.(inFlight := Without(x.inFlight, i)));
      if ok then y.(delivered := y.delivered + multiset(logs)) else PutBack(y, logs)
  }

  datatype Step = DoLog(log: Log) | Timer | DoSettle(flight: nat, ok: bool)

  function Next(x: Shipper, step: Step): Shipper {
    match step
    case DoLog(log) => Accept(x, log)
    case Timer => StartFlush(x)
    case DoSettle(i, ok) => Settle(x, i, ok)
  }

  function After(ready: bool, bulkSize: int, run: seq<Step>): Shipper {
    if run == [] then New(ready, bulkSize) else Next(After(ready, bulkSize, run[..|run| - 1]), run[|run| - 1])
  }

  // ----- conservation

  ghost function Flat(s: seq<seq<Log>>): multiset<Log> {
    if s == [] then multiset{} else Flat(s[..|s| - 1]) + multiset(s[|s| - 1])
  }

  lemma {:induction false} FlatWithout(s: seq<seq<Log>>, i: nat)
    requires i < |s|
    ensures Flat(s) == multiset(s[i]) + Flat(Without(s, i))
  {
    var front := s[..|s| - 1];
    if i == |front| {
      assert Without(s, i) == front;
    } else {
      FlatWithout(front, i);
      var w := Without(s, i);
      assert w[..|w| - 1] == Without(front, i) && w[|w| - 1] == s[|s| - 1];
    }
  }

  lemma FlatSnoc(s: seq<seq<Log>>, logs: seq<Log>)
    ensures Flat(s + [logs]) == Flat(s) + multiset(logs)
  {
    assert (s + [logs])[..|s|] == s;
  }

  lemma SplitCounts(s: seq<Log>, n: nat)
    requires n <= |s|
    ensures multiset(s) == multiset(s[..n]) + multiset(s[n..])
  {
    assert s == s[..n] + s[n..];
  }

  /** Every accepted log is in exactly one place. */
  ghost predicate Conserved(x: Shipper) {
    x.accepted == x.delivered + Flat(x.inFlight) + multiset(x.buffer) + x.trimmed
  }

  /** Regrouping when a batch `l` and the buffer `b` become `cut` and `kept`. */
  lemma Regroup(d: multiset<Log>, l: multiset<Log>, f: multiset<Log>, b: multiset<Log>, t: multiset<Log>, cut: multiset<Log>, kept: multiset<Log>)
    requires l + b == cut + kept
    ensures d + (l + f) + b + t == d + f + kept + (t + cut)
  {
    assert d + (l + f) + b + t == d + f + t + (l + b);
    assert d + f + kept + (t + cut) == d + f + t + (cut + kept);
  }

  lemma PutBackConserves(x: Shipper, logs: seq<Log>)
    requires x.accepted == x.delivered + (multiset(logs) + Flat(x.inFlight)) + multiset(x.buffer) + x.trimmed
    ensures Conserved(PutBack(x, logs))
  {
    var all := logs + x.buffer;
    var start := if |all| > x.bulkSize * 2 then Tail(all, x.bulkSize) else 0;
    SplitCounts(all, start);
    assert multiset(all) == multiset(logs) + multiset(x.buffer);
    Regroup(x.delivered, multiset(logs), Flat(x.inFlight), multiset(x.buffer), x.trimmed,
            multiset(all[..start]), multiset(all[start..]));
  }

  lemma StartFlushConserves(x: Shipper)
    requires Conserved(x)
    ensures Conserved(StartFlush(x))
  {
    FlatSnoc(x.inFlight, x.buffer);
    assert Flat(x.inFlight) + multiset(x.buffer) + multiset{} == Flat(x.inFlight) + multiset(x.buffer);
  }

  lemma NextConserves(x: Shipper, step: Step)
    requires Conserved(x)
    ensures Conserved(Next(x, step))
  {
    match step
    case DoLog(log) =>
      var y := x.(buffer := x.buffer + [log], accepted := x.accepted + multiset{log});
      assert multiset(y.buffer) == multiset(x.buffer) + multiset{log};
      assert Conserved(y);
      StartFlushConserves(y);
    case Timer =>
      StartFlushConserves(x);
    case DoSettle(i, ok) =>
      if i < |x.inFlight| {
        FlatWithout(x.inFlight, i);
        if !ok {
          PutBackConserves(x.(inFlight := Without(x.inFlight, i)), x.inFlight[i]);
        }
      }
  }

  /** Conservation over every run: whatever flushes are in flight and however
      they fail, no accepted log is lost unaccounted for and none is doubled. */
  lemma {:induction false} NoLogUnaccounted(ready: bool, bulkSize: int, run: seq<Step>)
    ensures Conserved(After(ready, bulkSize, run))
  {
    if run != [] {
      NoLogUnaccounted(ready, bulkSize, run[..|run| - 1]);
      NextConserves(After(ready, bulkSize, run[..|run| - 1]), run[|run| - 1]);
    }
  }

  // ----- the bound

  lemma {:induction false} BufferBounded(ready: bool, bulkSize: int, run: seq<Step>)
    requires bulkSize >= 1
    ensures After(ready, bulkSize, run).bulkSize == bulkSize
    ensures |After(ready, bulkSize, run).buffer| <= 2 * bulkSize
  {
    if run != [] {
      BufferBounded(ready, bulkSize, run[..|run| - 1]);
    }
  }

  /** With a bulk size of zero a failed flush is never trimmed. */
  lemma ZeroBulkSizeNeverTrims()
    ensures |After(true, 0, [DoLog("a"), DoSettle(0, false)]).buffer| == 1
  {
    var run := [DoLog("a"), DoSettle(0, false)];
    assert run[..1] == [DoLog("a")];
    assert [DoLog("a")][..0] == [];
    assert After(true, 0, []) == New(true, 0);
    assert After(true, 0, [DoLog("a")]) == Accept(New(true, 0), "a");
  }

  /** The buffer stays within twice the bulk size on every run exactly when the
      bulk size is positive. */
  lemma BoundIff(bulkSize: int)
    ensures (forall run :: |After(true, bulkSize, run).buffer| <= 2 * bulkSize) <==> bulkSize >= 1
  {
    if bulkSize >= 1 {
      forall run ensures |After(true, bulkSize, run).buffer| <= 2 * bulkSize {
        BufferBounded(true, bulkSize, run);
      }
    } else if bulkSize == 0 {
      ZeroBulkSizeNeverTrims();
    } else {
      assert |After(true, bulkSize, []).buffer| == 0;
    }
  }

  /** A failed flush keeps the newest logs: the buffer becomes a tail of its logs
      followed by what was buffered meanwhile, cut to the bulk size only when
      that is more than twice the bulk size. */
  lemma PutBackKeepsNewest(x: Shipper, logs: seq<Log>) returns (dropped: seq<Log>)
    requires x.bulkSize >= 1
    ensures var (all, after) := (logs + x.buffer, PutBack(x, logs));
            && all == dropped + after.buffer
            && |after.buffer| == (if |all| > 2 * x.bulkSize then x.bulkSize else |all|)
            && after.trimmed == x.trimmed + multiset(dropped)
  {
    var all := logs + x.buffer;
    dropped := if |all| > x.bulkSize * 2 then all[..Tail(all, x.bulkSize)] else [];
    assert x.trimmed + multiset([]) == x.trimmed;
  }

  /** Logs are lost only by trimming, and trimming needs a failed flush. */
  lemma {:induction false} NothingTrimmedWithoutFailure(ready: bool, bulkSize: int, run: seq<Step>)
    requires forall i :: 0 <= i < |run| ==> !(run[i].DoSettle? && !run[i].ok)
    ensures After(ready, bulkSize, run).trimmed == multiset{}
  {
    if run != [] {
      NothingTrimmedWithoutFailure(ready, bulkSize, run[..|run| - 1]);
    }
  }

  // ----- what is accepted, and in which order it is sent

  /** The logs that the run passes to the shipper, in order. */
  ghost function Logged(run: seq<Step>): seq<Log> {
    if run == [] then []
    else Logged(run[..|run| - 1]) + if run[|run| - 1].DoLog? then [run[|run| - 1].log] else []
  }

  /** A ready shipper accepts every log, one that is not ready none. */
  lemma {:induction false} AcceptsAll(ready: bool, bulkSize: int, run: seq<Step>)
    ensures After(ready, bulkSize, run).ready == ready
    ensures After(ready, bulkSize, run).accepted == if ready then multiset(Logged(run)) else multiset{}
  {
    if run != [] {
      var (front, s) := (run[..|run| - 1], run[|run| - 1]);
      AcceptsAll(ready, bulkSize, front);
      NextAccepts(After(ready, bulkSize, front), s);
      assert s.DoLog? ==> multiset(Logged(front) + [s.log]) == multiset(Logged(front)) + multiset{s.log};
    }
  }

  lemma NextAccepts(x: Shipper, s: Step)
    ensures Next(x, s).ready == x.ready && Next(x, s).bulkSize == x.bulkSize
    ensures Next(x, s).accepted == if x.ready && s.DoLog? then x.accepted + multiset{s.log} else x.accepted
  {
  }

  /** The batches that were sent off, in order: each new flight is one. */
  ghost function Sent(ready: bool, bulkSize: int, run: seq<Step>): seq<Log> {
    if run == [] then []
    else
      var (x, y) := (After(ready, bulkSize, run[..|run| - 1]), After(ready, bulkSize, run));
      Sent(ready, bulkSize, run[..|run| - 1])
      + if |y.inFlight| > |x.inFlight| then y.inFlight[|y.inFlight| - 1] else []
  }

  ghost predicate NoFailure(run: seq<Step>) {
    forall i :: 0 <= i < |run| ==> !(run[i].DoSettle? && !run[i].ok)
  }

  /** While no flush fails logs are sent in the order in which they came, and never
      as many as the bulk size wait: the batches sent off, one after the other, and
      then the buffer, are the logs that came. */
  lemma {:induction false} SentInOrder(bulkSize: int, run: seq<Step>)
    requires NoFailure(run)
    ensures Sent(true, bulkSize, run) + After(true, bulkSize, run).buffer == Logged(run)
    ensures var buffer := After(true, bulkSize, run).buffer; buffer == [] || |buffer| < bulkSize
    ensures After(true, bulkSize, run).ready && After(true, bulkSize, run).bulkSize == bulkSize
  {
    if run != [] {
      var (front, s) := (run[..|run| - 1], run[|run| - 1]);
      SentInOrder(bulkSize, front);
      assert run[|front|] == s && forall i :: 0 <= i < |front| ==> front[i] == run[i];
      var x := After(true, bulkSize, front);
      NextSends(x, s);
      NextAccepts(x, s);
      var (sent, more) := (Sent(true, bulkSize, front), if s.DoLog? then [s.log] else []);
      ConcatAssociative(sent, x.buffer, more);
      ConcatNothing(sent);
      ConcatNothing(sent + (x.buffer + more));
    }
  }

  /** A step without failure: the buffer grows by what is logged, and is sent off
      as one batch or stays. */
  lemma NextSends(x: Shipper, s: Step)
    requires x.ready && (s.DoSettle? ==> s.ok) && (x.buffer == [] || |x.buffer| < x.bulkSize)
    ensures var (y, all) := (Next(x, s), x.buffer + if s.DoLog? then [s.log] else []);
            && (y.buffer == [] || |y.buffer| < x.bulkSize)
            && if |y.inFlight| > |x.inFlight| then y.buffer == [] && y.inFlight[|y.inFlight| - 1] == all else y.buffer == all
  {
  }

  /** A log waits until the bulk size is reached; then all that wait are sent off as
      one batch. */
  lemma LogsWait(x: Shipper, log: Log)
    requires x.ready
    ensures var (y, all) := (Next(x, DoLog(log)), x.buffer + [log]);
            if |all| >= x.bulkSize then y.buffer == [] && y.inFlight == x.inFlight + [all]
            else y.buffer == all && y.inFlight == x.inFlight
  {
  }

  /** The timer leaves nothing waiting. */
  lemma TimerSendsAll(x: Shipper)
    requires x.ready
    ensures var y := Next(x, Timer);
            && y.buffer == []
            && y.inFlight == x.inFlight + if x.buffer == [] then [] else [x.buffer]
  {
  }

  // ----- the class

  class ElasticsearchLogger {
    const ready: bool
    const bulkSize: int
    var logBuffer: seq<Log>
    /** The local copies of the flushes that wait for the cluster. */
    var inFlight: seq<seq<Log>>
    ghost var accepted: multiset<Log>
    ghost var delivered: multiset<Log>
    ghost var trimmed: multiset<Log>

    ghost function State(): Shipper
      reads this
    {
      Shipper(ready, bulkSize, logBuffer, inFlight, accepted, delivered, trimmed)
    }

    constructor (ready: bool, bulkSize: int)
      ensures State() == New(ready, bulkSize)
    {
      this.ready, this.bulkSize := ready, bulkSize;
      logBuffer, inFlight := [], [];
      accepted, delivered, trimmed := multiset{}, multiset{}, multiset{};
    }

    method LogMessage(log: Log)
      modifies this
      ensures State() == Accept(old(State()), log)
    {
      if !ready {
        return;
      }
      logBuffer := logBuffer + [log];
      accepted := accepted + multiset{log};
      if |logBuffer| >= bulkSize {
        BeginFlush();
      }
    }

    method BeginFlush()
      modifies this
      ensures State() == StartFlush(old(State()))
    {
      if !ready || |logBuffer| == 0 {
        return;
      }
      inFlight := inFlight + [logBuffer];
      logBuffer := [];
    }

    method EndFlush(i: nat, ok: bool)
      requires i < |inFlight|
      modifies this
      ensures State() == Settle(old(State()), i, ok)
    {
      var logs := inFlight[i];
      inFlight := Without(inFlight, i);
      if ok {
        delivered := delivered + multiset(logs);
        return;
      }
      logBuffer := logs + logBuffer;
      if |logBuffer| > bulkSize * 2 {
        var start := Tail(logBuffer, bulkSize);
        trimmed := trimmed + multiset(logBuffer[..start]);
        logBuffer := logBuffer[start..];
      }
    }
  }
}
