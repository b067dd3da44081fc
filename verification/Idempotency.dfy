/**
 Order creation made idempotent by a transaction id.

 Every database access of a caller is one atomic step, callers interleave in any
 order, and any access may fail: it is refused, or it is applied but the caller
 is told it failed.  A caller that is late overwrites what faster ones wrote:
 `save` resets a record to pending and a failure marks it failed, even when it
 was already completed.
 */
module Idempotency {
  import opened Wrappers

  type TxId = string
  type OrderId = string

  datatype Status = PENDING | COMPLETED | FAILED

  datatype Transaction = Transaction(status: Status, orderId: Option<OrderId>, attempts: int)

  datatype Order = Order(id: OrderId, transactionId: TxId)

  datatype Store = Store(transactions: map<TxId, Transaction>, orders: seq<Order>)

  // ----- the atomic accesses

  /** An upsert; the order id column is not among the columns it writes. */
  function Record(s: Store, tx: TxId): Store {
    var orderId := if tx in s.transactions then s.transactions[tx].orderId else None;
    s.(transactions := s.transactions[tx := Transaction(PENDING, orderId, 1)])
  }

  function Increment(s: Store, tx: TxId): Store {
    if tx !in s.transactions then s
    else s.(transactions := s.transactions[tx := s.transactions[tx].(attempts := s.transactions[tx].attempts + 1)])
  }

  function Complete(s: Store, tx: TxId, order: OrderId): Store {
    if tx !in s.transactions then s
    else s.(transactions := s.transactions[tx := s.transactions[tx].(status := COMPLETED, orderId := Some(order))])
  }

  function Fail(s: Store, tx: TxId): Store {
    if tx !in s.transactions then s
    else s.(transactions := s.transactions[tx := s.transactions[tx].(status := FAILED)])
  }

  function FindOrder(orders: seq<Order>, tx: TxId): (r: Option<OrderId>)
    ensures r.Some? ==> Order(r.value, tx) in orders
    ensures r.None? ==> forall o :: o in orders ==> o.transactionId != tx
  {
    if orders == [] then None
    else if orders[0].transactionId == tx then Some(orders[0].id)
    else
      assert forall o :: o in orders ==> o == orders[0] || o in orders[1..];
      FindOrder(orders[1..], tx)
  }

  /** The serializable transaction: look the transaction id up, insert if absent. */
  function CreateOrder(s: Store, tx: TxId, newId: OrderId): (Store, OrderId) {
    match FindOrder(s.orders, tx)
    case Some(id) => (s, id)
    case None => (s.(orders := s.orders + [Order(newId, tx)]), newId)
  }

  // ----- callers

  datatype Phase =
    | Checking
    | Recording
    | Incrementing
    | Running
    | Completing(order: OrderId)
    | Failing
    | Returned(order: OrderId)
    | Threw

  datatype Caller = Caller(tx: TxId, phase: Phase)

  datatype World = World(store: Store, callers: map<nat, Caller>)

  datatype Step = Arrive(caller: nat, tx: TxId) | Advance(caller: nat, newId: OrderId, outcome: Outcome)

  /** What a caller does with the record it found. */
  function AfterCheck(s: Store, tx: TxId): Phase {
    if tx !in s.transactions then Recording
    else
      var t := s.transactions[tx];
      if t.status == COMPLETED && t.orderId.Some? then Returned(t.orderId.value)
      else if t.status == PENDING then Incrementing
      else Running
  }

  /** One database access of a caller: the new contents and the caller's new phase. */
  function Access(s: Store, caller: Caller, newId: OrderId, outcome: Outcome): (Store, Phase) {
    var tx := caller.tx;
    match caller.phase
    case Checking => (s, if outcome == Done then AfterCheck(s, tx) else Threw)
    case Recording => (if outcome == Refused then s else Record(s, tx), if outcome == Done then Running else Threw)
    case Incrementing => (if outcome == Refused then s else Increment(s, tx), if outcome == Done then Running else Threw)
    case Running =>
      var (created, order) := CreateOrder(s, tx, newId);
      (if outcome == Refused then s else created, if outcome == Done then Completing(order) else Failing)
    case Completing(order) =>
      (if outcome == Refused then s else Complete(s, tx, order), if outcome == Done then Returned(order) else Failing)
    case Failing => (if outcome == Refused then s else Fail(s, tx), Threw)
    case Returned(_) => (s, caller.phase)
    case Threw => (s, caller.phase)
  }

  function Next(w: World, step: Step): World {
    match step
    case Arrive(c, tx) =>
      if c in w.callers then w else w.(callers := w.callers[c := Caller(tx, Checking)])
    case Advance(c, newId, outcome) =>
      if c !in w.callers then w
      else
        var (store, phase) := Access(w.store, w.callers[c], newId, outcome);
        World(store, w.callers[c := w.callers[c].(phase := phase)])
  }

  /** Generated order ids are fresh. */
  predicate Fresh(s: Store, id: OrderId) {
    forall o :: o in s.orders ==> o.id != id
  }

  ghost predicate Enabled(w: World, step: Step) {
    step.Advance? ==> Fresh(w.store, step.newId)
  }

  function After(run: seq<Step>): World {
    if run == [] then World(Store(map[], []), map[])
    else Next(After(run[..|run| - 1]), run[|run| - 1])
  }

  ghost predicate Valid(run: seq<Step>) {
    run == [] || (Valid(run[..|run| - 1]) && Enabled(After(run[..|run| - 1]), run[|run| - 1]))
  }

  // ----- safety

  ghost predicate OneOrderEach(orders: seq<Order>) {
    forall i, j :: 0 <= i < j < |orders| ==>
      orders[i].transactionId != orders[j].transactionId && orders[i].id != orders[j].id
  }

  ghost predicate StoreOk(s: Store) {
    && OneOrderEach(s.orders)
    && (forall tx :: tx in s.transactions ==>
          var t := s.transactions[tx];
          && (t.status == COMPLETED ==> t.orderId.Some?)
          && (t.orderId.Some? ==> Order(t.orderId.value, tx) in s.orders))
  }

  ghost predicate CallerOk(s: Store, c: Caller) {
    && (c.phase.Completing? || c.phase.Returned? ==> Order(c.phase.order, c.tx) in s.orders)
    && (!c.phase.Checking? && !c.phase.Recording? && !c.phase.Threw? ==> c.tx in s.transactions)
  }

  ghost predicate Ok(w: World) {
    StoreOk(w.store) && forall c :: c in w.callers ==> CallerOk(w.store, w.callers[c])
  }

  /** Orders and records are never taken back. */
  ghost predicate Grows(before: Store, after: Store) {
    before.orders <= after.orders && before.transactions.Keys <= after.transactions.Keys
  }

  lemma AccessIsSafe(s: Store, caller: Caller, newId: OrderId, outcome: Outcome)
    requires StoreOk(s) && CallerOk(s, caller) && (caller.phase.Running? ==> Fresh(s, newId))
    ensures var (after, phase) := Access(s, caller, newId, outcome);
            StoreOk(after) && Grows(s, after) && CallerOk(after, caller.(phase := phase))
  {
    if caller.phase.Running? {
      var (created, order) := CreateOrder(s, caller.tx, newId);
      assert created.orders == s.orders || created.orders[|s.orders|] == Order(order, caller.tx);
    }
  }

  lemma NextKeepsOk(w: World, step: Step)
    requires Ok(w) && Enabled(w, step)
    ensures Ok(Next(w, step)) && Grows(w.store, Next(w, step).store)
  {
    if step.Advance? && step.caller in w.callers {
      AccessIsSafe(w.store, w.callers[step.caller], step.newId, step.outcome);
    }
  }

  lemma {:induction false} RunIsOk(run: seq<Step>)
    requires Valid(run)
    ensures Ok(After(run))
  {
    if run != [] {
      RunIsOk(run[..|run| - 1]);
      NextKeepsOk(After(run[..|run| - 1]), run[|run| - 1]);
    }
  }

  lemma SameTransactionSameOrder(orders: seq<Order>, a: OrderId, b: OrderId, tx: TxId)
    requires OneOrderEach(orders) && Order(a, tx) in orders && Order(b, tx) in orders
    ensures a == b
  {
    var i :| 0 <= i < |orders| && orders[i] == Order(a, tx);
    var j :| 0 <= j < |orders| && orders[j] == Order(b, tx);
    assert i == j;
  }

  /** Main result, for every interleaving of any number of callers with any
      faults: one order per transaction id at most, every completed record names
      it, and all successful calls for one transaction id return its id. */
  lemma AtMostOnce(run: seq<Step>)
    requires Valid(run)
    ensures var w := After(run);
            && OneOrderEach(w.store.orders)
            && (forall tx :: tx in w.store.transactions && w.store.transactions[tx].status == COMPLETED ==>
                  w.store.transactions[tx].orderId.Some? &&
                  Order(w.store.transactions[tx].orderId.value, tx) in w.store.orders)
            && (forall c :: c in w.callers && w.callers[c].phase.Returned? ==>
                  Order(w.callers[c].phase.order, w.callers[c].tx) in w.store.orders)
            && (forall c, d ::
                  c in w.callers && w.callers[c].phase.Returned? && d in w.callers && w.callers[d].phase.Returned? ==>
                    w.callers[c].tx == w.callers[d].tx ==> w.callers[c].phase.order == w.callers[d].phase.order)
  {
    RunIsOk(run);
    var w := After(run);
    forall c, d | c in w.callers && d in w.callers && w.callers[c].phase.Returned?
                  && w.callers[d].phase.Returned? && w.callers[c].tx == w.callers[d].tx
      ensures w.callers[c].phase.order == w.callers[d].phase.order
    {
      assert CallerOk(w.store, w.callers[c]) && CallerOk(w.store, w.callers[d]);
      SameTransactionSameOrder(w.store.orders, w.callers[c].phase.order, w.callers[d].phase.order, w.callers[c].tx);
    }
  }

  /** An answer once given stays right: later steps keep it and its order. */
  lemma {:induction false} AnswersStay(run: seq<Step>, more: seq<Step>, c: nat)
    requires Valid(run + more) && c in After(run).callers && After(run).callers[c].phase.Returned?
    ensures c in After(run + more).callers && After(run + more).callers[c] == After(run).callers[c]
    ensures After(run).store.orders <= After(run + more).store.orders
  {
    if more == [] {
      assert run + more == run;
    } else {
      var front := more[..|more| - 1];
      assert (run + more)[..|run + more| - 1] == run + front;
      AnswersStay(run, front, c);
      RunIsOk(run + front);
      NextKeepsOk(After(run + front), more[|more| - 1]);
    }
  }

  ghost predicate Names(s: Store, tx: TxId, order: OrderId) {
    tx in s.transactions && s.transactions[tx].orderId == Some(order)
  }

  lemma NextKeepsName(w: World, step: Step, tx: TxId, order: OrderId)
    requires Ok(w) && Enabled(w, step) && Names(w.store, tx, order)
    ensures Names(Next(w, step).store, tx, order)
  {
    if step.Advance? && step.caller in w.callers {
      var c := w.callers[step.caller];
      assert CallerOk(w.store, c);
      if c.phase.Completing? && c.tx == tx {
        SameTransactionSameOrder(w.store.orders, c.phase.order, order, tx);
      }
    }
  }

  /** A record that ever named its order names it for good, whatever a late save
      or a late failure does to its status. */
  lemma {:induction false} RecordKeepsItsOrder(run: seq<Step>, more: seq<Step>, tx: TxId, order: OrderId)
    requires Valid(run + more) && Names(After(run).store, tx, order)
    ensures Names(After(run + more).store, tx, order)
  {
    if more == [] {
      assert run + more == run;
    } else {
      var front := more[..|more| - 1];
      assert (run + more)[..|run + more| - 1] == run + front;
      RecordKeepsItsOrder(run, front, tx, order);
      RunIsOk(run + front);
      NextKeepsName(After(run + front), more[|more| - 1], tx, order);
    }
  }

  // ----- what a record tells

  /** A write that was applied to a record. */
  datatype Mark = Saved | Counted | Named(order: OrderId) | Marred

  /** The applied writes to the record of a transaction id, whoever made them. */
  ghost function Marks(run: seq<Step>, tx: TxId): seq<Mark> {
    if run == [] then []
    else
      var (front, step, w) := (run[..|run| - 1], run[|run| - 1], After(run[..|run| - 1]));
      if !step.Advance? || step.outcome == Refused || step.caller !in w.callers || w.callers[step.caller].tx != tx
      then Marks(front, tx)
      else match w.callers[step.caller].phase
        case Recording => Marks(front, tx) + [Saved]
        case Incrementing => Marks(front, tx) + [Counted]
        case Completing(order) => Marks(front, tx) + [Named(order)]
        case Failing => Marks(front, tx) + [Marred]
        case _ => Marks(front, tx)
  }

  /** Counting leaves the status alone. */
  ghost function StatusBy(ms: seq<Mark>): Status {
    if ms == [] || ms[|ms| - 1].Saved? then PENDING
    else if ms[|ms| - 1].Named? then COMPLETED
    else if ms[|ms| - 1].Marred? then FAILED
    else StatusBy(ms[..|ms| - 1])
  }

  /** One attempt for the latest save, and one for each count since. */
  ghost function AttemptsBy(ms: seq<Mark>): int {
    if ms == [] || ms[|ms| - 1].Saved? then 1
    else AttemptsBy(ms[..|ms| - 1]) + if ms[|ms| - 1].Counted? then 1 else 0
  }

  /** The order named last; nothing unnames it. */
  ghost function OrderBy(ms: seq<Mark>): Option<OrderId> {
    if ms == [] then None
    else if ms[|ms| - 1].Named? then Some(ms[|ms| - 1].order)
    else OrderBy(ms[..|ms| - 1])
  }

  ghost predicate TellsMarks(s: Store, tx: TxId, ms: seq<Mark>) {
    && (tx in s.transactions <==> ms != [])
    && (tx in s.transactions ==> s.transactions[tx] == Transaction(StatusBy(ms), OrderBy(ms), AttemptsBy(ms)))
  }

  lemma MarkTold(s: Store, caller: Caller, newId: OrderId, outcome: Outcome, ms: seq<Mark>, m: Mark)
    requires StoreOk(s) && CallerOk(s, caller) && outcome != Refused && TellsMarks(s, caller.tx, ms)
    requires match m
             case Saved => caller.phase.Recording?
             case Counted => caller.phase.Incrementing?
             case Named(order) => caller.phase == Completing(order)
             case Marred => caller.phase.Failing?
    ensures TellsMarks(Access(s, caller, newId, outcome).0, caller.tx, ms + [m])
  {
    assert (ms + [m])[..|ms + [m]| - 1] == ms;
  }

  /** For every interleaving: there is a record exactly when one was saved, its
      status is that of the latest save, completion or failure mark, it counts the
      attempts since the latest save, and it names the order named last. */
  lemma {:induction false} RecordTellsHistory(run: seq<Step>, tx: TxId)
    requires Valid(run)
    ensures TellsMarks(After(run).store, tx, Marks(run, tx))
  {
    if run != [] {
      var (front, step, w) := (run[..|run| - 1], run[|run| - 1], After(run[..|run| - 1]));
      RecordTellsHistory(front, tx);
      RunIsOk(front);
      if step.Advance? && step.caller in w.callers && w.callers[step.caller].tx == tx && step.outcome != Refused {
        var c := w.callers[step.caller];
        assert CallerOk(w.store, c);
        match c.phase
        case Recording => MarkTold(w.store, c, step.newId, step.outcome, Marks(front, tx), Saved);
        case Incrementing => MarkTold(w.store, c, step.newId, step.outcome, Marks(front, tx), Counted);
        case Completing(order) => MarkTold(w.store, c, step.newId, step.outcome, Marks(front, tx), Named(order));
        case Failing => MarkTold(w.store, c, step.newId, step.outcome, Marks(front, tx), Marred);
        case _ =>
      }
    }
  }

  // ----- a caller that no other interrupts

  /** The fate of each access a caller may make. */
  datatype Fates = Fates(check: Outcome, record: Outcome, run: Outcome, complete: Outcome, fail: Outcome)

  const ALL_DONE := Fates(Done, Done, Done, Done, Done)

  function FateOf(f: Fates, p: Phase): Outcome {
    match p
    case Checking => f.check
    case Recording | Incrementing => f.record
    case Running => f.run
    case Completing(_) => f.complete
    case Failing => f.fail
    case Returned(_) => Done
    case Threw => Done
  }

  function Rank(p: Phase): nat {
    match p
    case Checking => 5
    case Recording | Incrementing => 4
    case Running => 3
    case Completing(_) => 2
    case Failing => 1
    case Returned(_) => 0
    case Threw => 0
  }

  /** One caller makes its accesses to the end, uninterrupted. */
  function Play(s: Store, caller: Caller, newId: OrderId, f: Fates): (Store, Phase)
    decreases Rank(caller.phase)
  {
    if Rank(caller.phase) == 0 then (s, caller.phase)
    else
      var (after, phase) := Access(s, caller, newId, FateOf(f, caller.phase));
      Play(after, caller.(phase := phase), newId, f)
  }

  lemma PlayOn(s: Store, caller: Caller, newId: OrderId, f: Fates)
    requires Rank(caller.phase) != 0
    ensures var (after, phase) := Access(s, caller, newId, FateOf(f, caller.phase));
            Play(s, caller, newId, f) == Play(after, caller.(phase := phase), newId, f)
  {
  }

  function Failed(s: Store, tx: TxId, f: Fates): Store {
    if f.fail == Refused then s else Fail(s, tx)
  }

  /** The operation, its completion, and the failure mark if either fails. */
  lemma PlayFromRunning(s: Store, tx: TxId, newId: OrderId, f: Fates)
    ensures var (created, order) := CreateOrder(s, tx, newId);
            var (s1, s2) := (if f.run == Refused then s else created, if f.complete == Refused then created else Complete(created, tx, order));
            Play(s, Caller(tx, Running), newId, f)
            == if f.run != Done then (Failed(s1, tx, f), Threw)
               else if f.complete != Done then (Failed(s2, tx, f), Threw)
               else (s2, Returned(order))
  {
    var (created, order) := CreateOrder(s, tx, newId);
    var (s1, s2) := (if f.run == Refused then s else created, if f.complete == Refused then created else Complete(created, tx, order));
    PlayOn(s, Caller(tx, Running), newId, f);
    if f.run != Done {
      PlayOn(s1, Caller(tx, Failing), newId, f);
    } else {
      PlayOn(created, Caller(tx, Completing(order)), newId, f);
      if f.complete != Done {
        PlayOn(s2, Caller(tx, Failing), newId, f);
      }
    }
  }

  /** The check, and what is recorded after it. */
  lemma PlayFromChecking(s: Store, tx: TxId, newId: OrderId, f: Fates)
    ensures var p := AfterCheck(s, tx);
            var recorded := if f.record == Refused then s else if p.Recording? then Record(s, tx) else Increment(s, tx);
            Play(s, Caller(tx, Checking), newId, f)
            == if f.check != Done then (s, Threw)
               else if p.Returned? then (s, p)
               else if p.Running? then Play(s, Caller(tx, Running), newId, f)
               else if f.record != Done then (recorded, Threw)
               else Play(recorded, Caller(tx, Running), newId, f)
  {
    var p := AfterCheck(s, tx);
    PlayOn(s, Caller(tx, Checking), newId, f);
    if f.check == Done && (p.Recording? || p.Incrementing?) {
      PlayOn(s, Caller(tx, p), newId, f);
    }
  }

  lemma {:induction false} PlayIsSafe(s: Store, caller: Caller, newId: OrderId, f: Fates)
    requires StoreOk(s) && CallerOk(s, caller) && (Rank(caller.phase) >= 3 ==> Fresh(s, newId))
    ensures var (after, phase) := Play(s, caller, newId, f);
            StoreOk(after) && Grows(s, after) && CallerOk(after, caller.(phase := phase))
    decreases Rank(caller.phase)
  {
    if Rank(caller.phase) != 0 {
      var (after, phase) := Access(s, caller, newId, FateOf(f, caller.phase));
      AccessIsSafe(s, caller, newId, FateOf(f, caller.phase));
      PlayIsSafe(after, caller.(phase := phase), newId, f);
    }
  }

  /** What a finished retry must have achieved, starting from `s`. */
  ghost predicate Recovered(s: Store, tx: TxId, newId: OrderId, result: (Store, Phase)) {
    var (after, phase) := result;
    && StoreOk(after)
    && phase.Returned?
    && Order(phase.order, tx) in after.orders
    && after.orders == (if FindOrder(s.orders, tx).Some? then s.orders else s.orders + [Order(newId, tx)])
    && tx in after.transactions
    && after.transactions[tx].status == COMPLETED
    && after.transactions[tx].orderId == Some(phase.order)
  }

  lemma RecoversFromRunning(s: Store, tx: TxId, newId: OrderId)
    requires StoreOk(s) && Fresh(s, newId) && tx in s.transactions
    ensures Recovered(s, tx, newId, Play(s, Caller(tx, Running), newId, ALL_DONE))
  {
    AccessIsSafe(s, Caller(tx, Running), newId, Done);
    var (s1, order) := CreateOrder(s, tx, newId);
    AccessIsSafe(s1, Caller(tx, Completing(order)), newId, Done);
    var s2 := Complete(s1, tx, order);
    assert Play(s, Caller(tx, Running), newId, ALL_DONE) == Play(s1, Caller(tx, Completing(order)), newId, ALL_DONE)
        == (s2, Returned(order));
  }

  /** After any history, however many callers crashed half-way, one retry that is
      neither interrupted nor hit by a fault returns the order of its transaction
      id: the existing one if there is one, else a single new one; and the record
      then names it as completed. */
  lemma RetryRecovers(s: Store, tx: TxId, newId: OrderId)
    requires StoreOk(s) && Fresh(s, newId)
    ensures Recovered(s, tx, newId, Play(s, Caller(tx, Checking), newId, ALL_DONE))
  {
    var (c, p) := (Caller(tx, Checking), AfterCheck(s, tx));
    match p {
      case Recording =>
        AccessIsSafe(s, Caller(tx, Recording), newId, Done);
        RecoversFromRunning(Record(s, tx), tx, newId);
      case Incrementing =>
        AccessIsSafe(s, Caller(tx, Incrementing), newId, Done);
        RecoversFromRunning(Increment(s, tx), tx, newId);
      case Running =>
        RecoversFromRunning(s, tx, newId);
      case Returned(order) =>
        assert FindOrder(s.orders, tx).Some?;
    }
  }

  // ----- a call that no other interrupts, inside any run

  lemma ExtendRun(run: seq<Step>, step: Step) returns (longer: seq<Step>)
    requires Valid(run) && Enabled(After(run), step)
    ensures longer == run + [step] && Valid(longer) && After(longer) == Next(After(run), step)
  {
    longer := run + [step];
    assert longer[..|longer| - 1] == run;
  }

  /** Only running uses the new id, and orders get no other one. */
  lemma OneAccess(s: Store, caller: Caller, newId: OrderId, spare: OrderId, fate: Outcome)
    requires Fresh(s, spare) && spare != newId && Rank(caller.phase) != 0
    ensures var (after, phase) := Access(s, caller, newId, fate);
            && Fresh(after, spare) && Rank(phase) < Rank(caller.phase)
            && (Rank(caller.phase) > 3 ==> after.orders == s.orders)
            && (!caller.phase.Running? ==> Access(s, caller, spare, fate) == (after, phase))
  {
  }

  /** From any reached state a caller can go on to its end while all others wait; the
      run then has the effect of its accesses in turn.  The spare id stands for the
      ids that other accesses do not use. */
  lemma {:induction false} PlaysInRun(run: seq<Step>, c: nat, newId: OrderId, spare: OrderId, f: Fates) returns (longer: seq<Step>)
    requires Valid(run) && c in After(run).callers && spare != newId && Fresh(After(run).store, spare)
    requires Rank(After(run).callers[c].phase) >= 3 ==> Fresh(After(run).store, newId)
    ensures Valid(longer) && run <= longer
    ensures var (w, (store, phase)) := (After(run), Play(After(run).store, After(run).callers[c], newId, f));
            After(longer) == World(store, w.callers[c := w.callers[c].(phase := phase)])
    decreases Rank(After(run).callers[c].phase)
  {
    var (w, caller) := (After(run), After(run).callers[c]);
    if Rank(caller.phase) == 0 {
      longer := run;
      assert w.callers[c := caller] == w.callers;
    } else {
      var id := if caller.phase.Running? then newId else spare;
      var fate := FateOf(f, caller.phase);
      OneAccess(w.store, caller, newId, spare, fate);
      var next := ExtendRun(run, Advance(c, id, fate));
      longer := PlaysInRun(next, c, newId, spare, f);
    }
  }

  /** So a new call can arrive in any reached state and leave what the lemmas on
      uninterrupted calls say. */
  lemma CallInRun(run: seq<Step>, c: nat, tx: TxId, newId: OrderId, spare: OrderId, f: Fates) returns (longer: seq<Step>)
    requires Valid(run) && c !in After(run).callers && spare != newId
    requires Fresh(After(run).store, newId) && Fresh(After(run).store, spare)
    ensures Valid(longer) && run <= longer
    ensures var (w, (store, phase)) := (After(run), Play(After(run).store, Caller(tx, Checking), newId, f));
            After(longer) == World(store, w.callers[c := Caller(tx, phase)])
  {
    var next := ExtendRun(run, Arrive(c, tx));
    longer := PlaysInRun(next, c, newId, spare, f);
  }

  // ----- what a call that no other interrupts leaves in the record

  predicate IsCompleted(s: Store, tx: TxId) {
    tx in s.transactions && s.transactions[tx].status == COMPLETED && s.transactions[tx].orderId.Some?
  }

  /** A missing or a PENDING record is written before the operation starts. */
  predicate IsCounted(s: Store, tx: TxId) {
    tx !in s.transactions || s.transactions[tx].status == PENDING
  }

  /** The call gets as far as starting its operation. */
  predicate Reaches(s: Store, tx: TxId, f: Fates) {
    f.check == Done && !IsCompleted(s, tx) && (IsCounted(s, tx) ==> f.record == Done)
  }

  /** A new record counts one attempt, a PENDING one gets one more, any other is
      run again without counting. */
  function AttemptsAfter(s: Store, tx: TxId): int {
    if tx !in s.transactions then 1
    else s.transactions[tx].attempts + if s.transactions[tx].status == PENDING then 1 else 0
  }

  function OrderIn(s: Store, tx: TxId): Option<OrderId> {
    if tx in s.transactions then s.transactions[tx].orderId else None
  }

  ghost predicate WentWell(f: Fates) {
    f.run == Done && f.complete == Done
  }

  /** The record after a call that started its operation. */
  ghost predicate LeavesRecord(before: Store, tx: TxId, f: Fates, after: Store, answer: Option<OrderId>) {
    && tx in after.transactions
    && var t := after.transactions[tx];
    && t.attempts == AttemptsAfter(before, tx)
    && (answer.Some? <==> WentWell(f))
    && (WentWell(f) ==> t.status == COMPLETED && t.orderId == answer)
    && (!WentWell(f) && f.fail != Refused ==> t.status == FAILED)
    && (!WentWell(f) && f.fail == Refused ==>
          t.status == if f.run == Done && f.complete == Lost then COMPLETED
                      else if IsCounted(before, tx) then PENDING
                      else before.transactions[tx].status)
    && (f.run == Done && f.complete != Refused ==> t.orderId.Some? && Order(t.orderId.value, tx) in after.orders)
    && (f.run != Done || f.complete == Refused ==> t.orderId == OrderIn(before, tx))
  }

  /** What was stored when the call ended before its operation. */
  ghost predicate LeavesUnstarted(before: Store, tx: TxId, f: Fates, after: Store, answer: Option<OrderId>) {
    && after.orders == before.orders
    && answer == (if f.check == Done && IsCompleted(before, tx) then before.transactions[tx].orderId else None)
    && (f.check != Done || IsCompleted(before, tx) || f.record == Refused ==> after == before)
    && (f.check == Done && IsCounted(before, tx) && f.record == Lost ==>
          && tx in after.transactions
          && after.transactions[tx] == Transaction(PENDING, OrderIn(before, tx), AttemptsAfter(before, tx)))
  }

  ghost predicate Leaves(before: Store, tx: TxId, newId: OrderId, f: Fates, after: Store, answer: Option<OrderId>) {
    && after.transactions - {tx} == before.transactions - {tx}
    && (Reaches(before, tx, f) ==> LeavesRecord(before, tx, f, after, answer))
    && (!Reaches(before, tx, f) ==> LeavesUnstarted(before, tx, f, after, answer))
    && (Reaches(before, tx, f) ==>
          after.orders == if f.run == Refused || (exists id :: Order(id, tx) in before.orders) then before.orders
                          else before.orders + [Order(newId, tx)])
  }

  function AnswerOf(p: Phase): Option<OrderId> {
    if p.Returned? then Some(p.order) else None
  }

  lemma RunningLeaves(s: Store, tx: TxId, newId: OrderId, f: Fates)
    requires StoreOk(s) && tx in s.transactions
    ensures var ((after, phase), t) := (Play(s, Caller(tx, Running), newId, f), s.transactions[tx]);
            && after.transactions - {tx} == s.transactions - {tx}
            && tx in after.transactions && after.transactions[tx].attempts == t.attempts
            && (AnswerOf(phase).Some? <==> WentWell(f))
            && after.transactions[tx].status == (if WentWell(f) then COMPLETED
                                                 else if f.fail != Refused then FAILED
                                                 else if f.run == Done && f.complete == Lost then COMPLETED
                                                 else t.status)
            && (WentWell(f) ==> after.transactions[tx].orderId == AnswerOf(phase))
            && (f.run == Done && f.complete != Refused ==>
                  after.transactions[tx].orderId.Some? && Order(after.transactions[tx].orderId.value, tx) in after.orders)
            && (f.run != Done || f.complete == Refused ==> after.transactions[tx].orderId == t.orderId)
            && after.orders == if f.run == Refused || (exists id :: Order(id, tx) in s.orders) then s.orders
                               else s.orders + [Order(newId, tx)]
  {
    PlayFromRunning(s, tx, newId, f);
    var (created, order) := CreateOrder(s, tx, newId);
    if FindOrder(s.orders, tx).None? {
      assert created.orders[|s.orders|] == Order(newId, tx);
      forall id ensures Order(id, tx) !in s.orders {
        assert Order(id, tx).transactionId == tx;
      }
    }
  }

  /** The order and the record that an uninterrupted call leaves, for every fate of
      its accesses: an applied failure mark reads FAILED and changes nothing else,
      a record that was found FAILED is run again without counting an attempt, and
      one that was found PENDING counts exactly one. */
  lemma PlayLeaves(s: Store, tx: TxId, newId: OrderId, f: Fates)
    requires StoreOk(s)
    ensures var (after, phase) := Play(s, Caller(tx, Checking), newId, f);
            Leaves(s, tx, newId, f, after, AnswerOf(phase))
  {
    PlayFromChecking(s, tx, newId, f);
    if Reaches(s, tx, f) {
      var started := if !IsCounted(s, tx) then s else if tx in s.transactions then Increment(s, tx) else Record(s, tx);
      RunningLeaves(started, tx, newId, f);
    }
  }

  // ----- the service over the two tables

  class IdempotencyService {
    var transactions: map<TxId, Transaction>
    var orders: seq<Order>

    ghost function State(): Store
      reads this
    {
      Store(transactions, orders)
    }

    constructor ()
      ensures State() == Store(map[], [])
    {
      transactions, orders := map[], [];
    }

    /** A record that is found names an order that exists, if it names one; and a
        completed one always does. */
    method CheckTransactionExists(tx: TxId) returns (t: Option<Transaction>)
      ensures t.Some? <==> tx in transactions
      ensures t.Some? ==> transactions[tx] == t.value
      ensures StoreOk(State()) && t.Some? ==>
                && (t.value.status == COMPLETED ==> t.value.orderId.Some?)
                && (t.value.orderId.Some? ==> Order(t.value.orderId.value, tx) in orders)
    {
      t := if tx in transactions then Some(transactions[tx]) else None;
    }

    method RecordTransaction(tx: TxId)
      modifies this
      ensures State() == Record(old(State()), tx)
    {
      var orderId := if tx in transactions then transactions[tx].orderId else None;
      transactions := transactions[tx := Transaction(PENDING, orderId, 1)];
    }

    method IncrementAttempt(tx: TxId)
      modifies this
      ensures State() == Increment(old(State()), tx)
    {
      if tx in transactions {
        transactions := transactions[tx := transactions[tx].(attempts := transactions[tx].attempts + 1)];
      }
    }

    method CompleteTransaction(tx: TxId, order: OrderId)
      modifies this
      ensures State() == Complete(old(State()), tx, order)
    {
      if tx in transactions {
        transactions := transactions[tx := transactions[tx].(status := COMPLETED, orderId := Some(order))];
      }
    }

    method FailTransaction(tx: TxId)
      modifies this
      ensures State() == Fail(old(State()), tx)
    {
      if tx in transactions {
        transactions := transactions[tx := transactions[tx].(status := FAILED)];
      }
    }

    method CreateOrderOnce(tx: TxId, newId: OrderId) returns (id: OrderId)
      modifies this
      ensures (State(), id) == CreateOrder(old(State()), tx, newId)
    {
      var existing := FindOrder(orders, tx);
      if existing.Some? {
        return existing.value;
      }
      orders := orders + [Order(newId, tx)];
      id := newId;
    }

    /** A call that no other call interrupts, with any faults; an answer of None is
        an error thrown to the caller. */
    method ExecuteWithIdempotency(tx: TxId, newId: OrderId, f: Fates) returns (answer: Option<OrderId>)
      requires StoreOk(State()) && Fresh(State(), newId)
      modifies this
      ensures Ends(Play(old(State()), Caller(tx, Checking), newId, f), State(), answer)
      ensures StoreOk(State()) && Grows(old(State()), State())
      ensures answer.Some? ==> Order(answer.value, tx) in orders
      ensures Leaves(old(State()), tx, newId, f, State(), answer)
      ensures f == ALL_DONE ==> answer.Some? && Recovered(old(State()), tx, newId, (State(), Returned(answer.value)))
    {
      PlayIsSafe(State(), Caller(tx, Checking), newId, f);
      PlayFromChecking(State(), tx, newId, f);
      PlayLeaves(State(), tx, newId, f);
      RetryRecovers(State(), tx, newId);
      if f.check != Done {
        return None;
      }
      var existing := CheckTransactionExists(tx);
      if existing.Some? && existing.value.status == COMPLETED && existing.value.orderId.Some? {
        return existing.value.orderId;
      }
      if existing.None? || existing.value.status == PENDING {
        var recorded := RecordOrIncrement(tx, existing, f.record);
        if !recorded {
          return None;
        }
      }
      answer := RunAndComplete(tx, newId, f);
    }

    ghost predicate Ends(expected: (Store, Phase), after: Store, answer: Option<OrderId>) {
      && after == expected.0
      && (expected.1.Returned? || expected.1.Threw?)
      && answer == (if expected.1.Returned? then Some(expected.1.order) else None)
    }

    method RecordOrIncrement(tx: TxId, existing: Option<Transaction>, fate: Outcome) returns (ok: bool)
      modifies this
      ensures ok <==> fate == Done
      ensures State() == if fate == Refused then old(State())
                         else if existing.None? then Record(old(State()), tx)
                         else Increment(old(State()), tx)
    {
      if fate != Refused {
        if existing.None? {
          RecordTransaction(tx);
        } else {
          IncrementAttempt(tx);
        }
      }
      ok := fate == Done;
    }

    /** The operation and its completion, and the failure mark if either fails. */
    method RunAndComplete(tx: TxId, newId: OrderId, f: Fates) returns (answer: Option<OrderId>)
      modifies this
      ensures Ends(Play(old(State()), Caller(tx, Running), newId, f), State(), answer)
    {
      PlayFromRunning(State(), tx, newId, f);
      var id := "";
      if f.run != Refused {
        id := CreateOrderOnce(tx, newId);
      }
      if f.run == Done {
        if f.complete != Refused {
          CompleteTransaction(tx, id);
        }
        if f.complete == Done {
          return Some(id);
        }
      }
      if f.fail != Refused {
        FailTransaction(tx);
      }
      answer := None;
    }
  }
}
