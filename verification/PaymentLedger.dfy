/**
 Payments and refunds in flight.  Every gateway call, insert and update is a step
 of its own, so any number of operations can be under way, on any records, and
 end in any order.  Any insert or update may be refused, or applied and reported
 as failed.
 */
module PaymentLedger {
  import opened Wrappers
  import opened PaymentGateway
  import opened Payments

  /** Where an operation stands between two of its accesses. */
  datatype Flight =
    | Authorizing(orderId: string, amount: int, key: string)
    | Inserting(amount: int, key: string, auth: Result)
    | Capturing(recordId: RecordId, paymentId: PaymentId)
    | Refunding(recordId: RecordId, paymentId: PaymentId, part: Option<int>, full: int)
    | Updating(recordId: RecordId, result: Result, refunded: Option<int>)
    | Ended(answer: Option<Result>)

  /** What one access meets: a gateway call its inner layer and its luck, an
      insert or update its fate; and the ids it may generate. */
  datatype Chance = Chance(inner: Inner, luck: Luck, fate: Outcome, newPaymentId: PaymentId, newRecordId: RecordId)

  function BeginPay(orderId: string, amount: int, key: string, outer: Outer): Flight {
    if outer.Runs? then Authorizing(orderId, amount, key) else Ended(None)
  }

  /** Reads the record. */
  function BeginRefund(w: World, recordId: RecordId, part: Option<int>, outer: Outer): Flight {
    if recordId !in w.records || w.records[recordId].status != CAPTURED || !outer.Runs? then Ended(None)
    else Refunding(recordId, w.records[recordId].gatewayPaymentId, part, w.records[recordId].amount)
  }

  function IdOf(auth: Result): PaymentId {
    if auth.paymentId.Some? then auth.paymentId.value else ""
  }

  /** One access: a gateway call through the inner layer, an insert or an update. */
  function Access(w: World, f: Flight, c: Chance): (World, Flight) {
    match f
    case Authorizing(orderId, amount, key) =>
      var (g, auth) := Guarded(w.gateway, c.inner, DoAuthorize(c.newPaymentId, amount, c.luck), "authorize_circuit_open", orderId);
      (w.(gateway := g), if auth.NullAnswer? then Ended(None) else Inserting(amount, key, auth.result))
    case Inserting(amount, key, auth) =>
      if c.fate.Refused? || !CanInsert(w.records, IdOf(auth), key) then (w, Ended(None))
      else
        (w.(records := w.records[c.newRecordId := PaymentRecord(IdOf(auth), key, amount, auth.status, 0)]),
         if c.fate.Lost? then Ended(None)
         else if auth.success && auth.status == AUTHORIZED then Capturing(c.newRecordId, IdOf(auth))
         else Ended(Some(auth)))
    case Capturing(recordId, paymentId) =>
      var (g, answer) := Guarded(w.gateway, c.inner, DoCapture(paymentId, None, c.luck), "capture_circuit_open", paymentId);
      (w.(gateway := g), if answer.NullAnswer? then Ended(None) else Updating(recordId, answer.result, None))
    case Refunding(recordId, paymentId, part, full) =>
      var (g, answer) := Guarded(w.gateway, c.inner, DoRefund(paymentId, part, c.luck), "refund_circuit_open", paymentId);
      (w.(gateway := g), if answer.NullAnswer? then Ended(None) else Updating(recordId, answer.result, Some(OrElse(part, full))))
    case Updating(recordId, result, refunded) =>
      (if c.fate.Refused? || recordId !in w.records then w
       else w.(records := w.records[recordId := Updated(w.records[recordId], result, refunded)]),
       Ended(if c.fate.Done? then Some(result) else None))
    case Ended(_) => (w, f)
  }

  /** The refunded amount is written only when there is one. */
  function Updated(r: PaymentRecord, result: Result, refunded: Option<int>): PaymentRecord {
    r.(status := result.status, refundedAmount := if refunded.Some? then refunded.value else r.refundedAmount)
  }

  function Chances(x: PayInput, inner: Inner, luck: Luck): Chance {
    Chance(inner, luck, Done, x.newPaymentId, x.recordId)
  }

  /** A payment that no other operation interrupts, and whose writes succeed, is
      its accesses in turn. */
  lemma PayIsItsAccesses(w: World, x: PayInput)
    ensures var c := Chances(x, x.authInner, x.authLuck);
            var (w1, f1) := Access(w, BeginPay(x.orderId, x.amount, x.key, x.outer), c);
            var (w2, f2) := Access(w1, f1, c);
            var (w3, f3) := Access(w2, f2, Chances(x, x.captureInner, x.captureLuck));
            var (w4, f4) := Access(w3, f3, c);
            w4 == Pay(w, x).0 && f4 == Ended(Pay(w, x).1)
  {
    var c := Chances(x, x.authInner, x.authLuck);
    var (w1, f1) := Access(w, BeginPay(x.orderId, x.amount, x.key, x.outer), c);
    var (w2, f2) := Access(w1, f1, c);
    if f2.Capturing? {
      CaptureIsItsAccesses(w2, x.recordId, f2.paymentId, Chances(x, x.captureInner, x.captureLuck), c);
    }
  }

  lemma CaptureIsItsAccesses(w: World, r: RecordId, id: PaymentId, c: Chance, d: Chance)
    requires r in w.records && d.fate.Done?
    ensures var (w1, f1) := Access(w, Capturing(r, id), c);
            var (w2, f2) := Access(w1, f1, d);
            var (after, answer) := CaptureStored(w, r, id, c.inner, c.luck);
            w2 == after && f2 == Ended(answer)
  {
  }

  lemma RefundIsItsAccesses(w: World, x: RefundInput, c: Chance)
    requires c.inner == x.inner && c.luck == x.luck && c.fate.Done?
    ensures var (w1, f1) := Access(w, BeginRefund(w, x.recordId, x.amount, x.outer), c);
            var (w2, f2) := Access(w1, f1, c);
            w2 == RefundRecord(w, x).0 && f2 == Ended(RefundRecord(w, x).1)
  {
  }

  /** A write that is refused writes nothing, one that is lost writes what it would
      have; either way the operation ends with an error. */
  lemma FatesOfWrites(w: World, f: Flight, c: Chance)
    requires f.Inserting? || f.Updating?
    ensures !c.fate.Done? ==> Access(w, f, c).1 == Ended(None)
    ensures c.fate.Refused? ==> Access(w, f, c).0 == w
    ensures c.fate.Lost? ==> Access(w, f, c).0 == Access(w, f, c.(fate := Done)).0
  {
  }

  datatype System = System(world: World, flights: map<nat, Flight>)

  datatype Step =
    | StartPay(flight: nat, orderId: string, amount: int, key: string, outer: Outer)
    | StartRefund(flight: nat, recordId: RecordId, part: Option<int>, outer: Outer)
    | Advance(flight: nat, chance: Chance)

  function Next(x: System, s: Step): System {
    match s
    case StartPay(n, orderId, amount, key, outer) =>
      x.(flights := x.flights[n := BeginPay(orderId, amount, key, outer)])
    case StartRefund(n, recordId, part, outer) =>
      x.(flights := x.flights[n := BeginRefund(x.world, recordId, part, outer)])
    case Advance(n, chance) =>
      if n !in x.flights then x
      else
        var (w, f) := Access(x.world, x.flights[n], chance);
        System(w, x.flights[n := f])
  }

  /** Operations are told apart, and generated ids are fresh. */
  ghost predicate Enabled(x: System, s: Step) {
    if s.Advance? then
      && s.flight in x.flights
      && s.chance.newPaymentId !in x.world.gateway
      && s.chance.newRecordId !in x.world.records
    else s.flight !in x.flights
  }

  function After(run: seq<Step>): System {
    if run == [] then System(World(map[], map[]), map[]) else Next(After(run[..|run| - 1]), run[|run| - 1])
  }

  ghost predicate Valid(run: seq<Step>) {
    run == [] || (Valid(run[..|run| - 1]) && Enabled(After(run[..|run| - 1]), run[|run| - 1]))
  }

  // ----- marks

  predicate GivenBack(status: PaymentStatus) {
    status in {REFUNDED, PARTIALLY_REFUNDED}
  }

  /** Records with something amiss in their history: an update that would have
      told of a capture or refund was refused, or a failure was written over the
      refund that the record told of. */
  datatype Marks = Marks(missed: set<RecordId>, overwritten: set<RecordId>)

  function Mark(x: System, k: Marks, s: Step): Marks {
    if !s.Advance? || s.flight !in x.flights || !x.flights[s.flight].Updating? then k
    else
      var f := x.flights[s.flight];
      if s.chance.fate.Refused? then
        if f.result.success then k.(missed := k.missed + {f.recordId}) else k
      else if !f.result.success && f.recordId in x.world.records && GivenBack(x.world.records[f.recordId].status)
      then k.(overwritten := k.overwritten + {f.recordId})
      else k
  }

  function Marked(run: seq<Step>): Marks {
    if run == [] then Marks({}, {}) else Mark(After(run[..|run| - 1]), Marked(run[..|run| - 1]), run[|run| - 1])
  }

  // ----- the ledger

  predicate On(f: Flight, recordId: RecordId) {
    match f
    case Capturing(r, _) => r == recordId
    case Refunding(r, _, _, _) => r == recordId
    case Updating(r, _, _) => r == recordId
    case _ => false
  }

  ghost predicate Busy(x: System, recordId: RecordId) {
    exists n :: n in x.flights && On(x.flights[n], recordId)
  }

  /** An update under way will write what the gateway already says. */
  ghost predicate Due(x: System, recordId: RecordId, status: PaymentStatus) {
    exists n :: n in x.flights && Writes(x.flights[n], recordId, status)
  }

  predicate Writes(f: Flight, recordId: RecordId, status: PaymentStatus) {
    f.Updating? && f.recordId == recordId && f.result.success && f.result.status == status
  }

  predicate Captured(g: PaymentGateway.Payments, id: PaymentId) {
    id in g && g[id].captured != 0
  }

  /** What a record is left at when an update was refused. */
  predicate Stranded(status: PaymentStatus, actual: PaymentStatus) {
    (status == AUTHORIZED && actual == CAPTURED) || (status in {CAPTURED, FAILED} && GivenBack(actual))
  }

  /** The record says what the gateway says, or is about to, or says FAILED; over
      a refund FAILED was written only where the refund had been told. */
  ghost predicate Told(x: System, k: Marks, recordId: RecordId, status: PaymentStatus, actual: PaymentStatus) {
    || status == actual
    || Due(x, recordId, actual)
    || (status == FAILED && (actual == CAPTURED || recordId in k.overwritten))
  }

  /** A record of a captured payment has its amount, and is stranded if an update
      was missed; a settled record has a captured payment. */
  ghost predicate RecordOk(x: System, k: Marks, recordId: RecordId)
    requires recordId in x.world.records
  {
    var (g, r) := (x.world.gateway, x.world.records[recordId]);
    var id := r.gatewayPaymentId;
    && r.status !in {PENDING, VOIDED}
    && (Settled(r.status) || recordId in k.missed + k.overwritten ==> Captured(g, id))
    && (Captured(g, id) ==>
          var p := g[id];
          && p.amount == p.captured == r.amount
          && (if recordId in k.missed then Stranded(r.status, p.status) else Told(x, k, recordId, r.status, p.status))
          && (recordId in k.overwritten ==> GivenBack(p.status))
          && (GivenBack(r.status) ==> r.status == p.status && r.refundedAmount == p.refunded))
  }

  ghost predicate HasRecord(w: World, id: PaymentId) {
    exists r :: r in w.records && w.records[r].gatewayPaymentId == id
  }

  ghost predicate Unique(records: map<RecordId, PaymentRecord>) {
    forall a, b :: a in records && b in records ==> records[a].gatewayPaymentId == records[b].gatewayPaymentId ==> a == b
  }

  ghost predicate Reserved(w: World, id: PaymentId, amount: int) {
    id in w.gateway && w.gateway[id] == Payment(AUTHORIZED, amount, 0, 0)
  }

  /** What an operation in flight may rely on. */
  ghost predicate FlightOk(w: World, missed: set<RecordId>, f: Flight) {
    match f
    case Authorizing(_, _, _) => true
    case Inserting(amount, _, auth) =>
      if auth.success then auth.status == AUTHORIZED && Reserved(w, IdOf(auth), amount) else auth.status == FAILED
    case Capturing(r, id) =>
      && r in w.records && w.records[r].gatewayPaymentId == id
      && w.records[r].status == AUTHORIZED && Reserved(w, id, w.records[r].amount)
    case Updating(r, result, None) =>
      && r in w.records && w.records[r].status == AUTHORIZED
      && if result.success
         then r !in missed && result.status == CAPTURED && CapturedInFull(w, r, CAPTURED, 0)
         else result.status == FAILED && Reserved(w, w.records[r].gatewayPaymentId, w.records[r].amount)
    case Refunding(r, id, _, full) =>
      && RefundOk(w, r) && w.records[r].gatewayPaymentId == id && w.records[r].amount == full
    case Updating(r, result, Some(part)) =>
      && RefundOk(w, r)
      && if result.success
         then r !in missed && !GivenBack(w.records[r].status) && GivenBack(result.status) && CapturedInFull(w, r, result.status, part)
         else result.status == FAILED
    case Ended(_) => true
  }

  ghost predicate CapturedInFull(w: World, r: RecordId, status: PaymentStatus, refunded: int)
    requires r in w.records
  {
    var (id, amount) := (w.records[r].gatewayPaymentId, w.records[r].amount);
    id in w.gateway && w.gateway[id] == Payment(status, amount, amount, refunded)
  }

  ghost predicate RefundOk(w: World, r: RecordId) {
    && r in w.records && w.records[r].status != AUTHORIZED
    && var id := w.records[r].gatewayPaymentId;
    Captured(w.gateway, id) && w.gateway[id].amount == w.gateway[id].captured == w.records[r].amount
  }

  /** The payment that a payment operation works on, from its authorization to
      its last update. */
  ghost function Pays(w: World, f: Flight): Option<PaymentId> {
    match f
    case Inserting(_, _, auth) => if auth.success then Some(IdOf(auth)) else None
    case Capturing(_, id) => Some(id)
    case Updating(r, _, None) => if r in w.records then Some(w.records[r].gatewayPaymentId) else None
    case _ => None
  }

  /** An accepted refund that is still to be written. */
  predicate Accepted(f: Flight) {
    f.Updating? && f.refunded.Some? && f.result.success
  }

  /** No two operations pay the same payment, or are to write refunds of one
      record. */
  ghost predicate Clash(w: World, f: Flight, g: Flight) {
    || (Pays(w, f).Some? && Pays(w, f) == Pays(w, g))
    || (Accepted(f) && Accepted(g) && f.recordId == g.recordId)
  }

  ghost predicate FlightsOk(x: System, k: Marks) {
    && (forall n :: n in x.flights ==> FlightOk(x.world, k.missed, x.flights[n]))
    && (forall n, m :: n in x.flights && m in x.flights && n != m ==> !Clash(x.world, x.flights[n], x.flights[m]))
  }

  ghost predicate RecordsOk(x: System, k: Marks) {
    && Unique(x.world.records) && k.missed + k.overwritten <= x.world.records.Keys
    && (forall id :: id in x.world.gateway && x.world.gateway[id].captured != 0 ==> HasRecord(x.world, id))
    && (forall r :: r in x.world.records ==> RecordOk(x, k, r))
  }

  ghost predicate Ledger(x: System, k: Marks) {
    AllOk(x.world.gateway) && RecordsOk(x, k) && FlightsOk(x, k)
  }

  // ----- what each access may do

  /** A gateway call that fails, or an answer of null: nothing is changed. */
  ghost predicate Refusal(w: World, after: World, f: Flight, r: Option<RecordId>) {
    && after == w
    && (f.Ended?
        || (f.Inserting? && r.None? && !f.auth.success && f.auth.status == FAILED)
        || (f.Updating? && r == Some(f.recordId) && !f.result.success && f.result.status == FAILED))
  }

  lemma AuthorizeEffect(w: World, f: Flight, c: Chance)
    requires f.Authorizing?
    ensures var (after, g) := Access(w, f, c);
            || Refusal(w, after, g, None)
            || (&& after == w.(gateway := w.gateway[c.newPaymentId := Payment(AUTHORIZED, f.amount, 0, 0)])
                && g.Inserting? && g.amount == f.amount
                && g.auth.success && g.auth.status == AUTHORIZED && IdOf(g.auth) == c.newPaymentId)
  {
  }

  lemma CaptureEffect(w: World, missed: set<RecordId>, f: Flight, c: Chance)
    requires f.Capturing? && FlightOk(w, missed, f)
    ensures var (after, g) := Access(w, f, c);
            var amount := w.records[f.recordId].amount;
            || (Refusal(w, after, g, Some(f.recordId)) && (g.Updating? ==> g.refunded.None?))
            || (&& amount > 0
                && after == w.(gateway := w.gateway[f.paymentId := Payment(CAPTURED, amount, amount, 0)])
                && g.Updating? && g.recordId == f.recordId && g.refunded.None?
                && g.result.success && g.result.status == CAPTURED)
  {
  }

  lemma RefundEffect(w: World, missed: set<RecordId>, f: Flight, c: Chance)
    requires f.Refunding? && FlightOk(w, missed, f) && AllOk(w.gateway)
    ensures var (after, g) := Access(w, f, c);
            var p := w.gateway[f.paymentId];
            || (Refusal(w, after, g, Some(f.recordId)) && (g.Updating? ==> g.refunded.Some?))
            || (&& g.Updating? && g.recordId == f.recordId && g.refunded.Some?
                && g.result.success && GivenBack(g.result.status)
                && p.status == CAPTURED
                && after == w.(gateway := w.gateway[f.paymentId := Payment(g.result.status, p.amount, p.captured, g.refunded.value)]))
  {
  }

  lemma AccessKeepsAllOk(w: World, f: Flight, c: Chance)
    requires AllOk(w.gateway)
    ensures AllOk(Access(w, f, c).0.gateway)
  {
    match f
    case Authorizing(_, amount, _) => ApplyKeepsOk(w.gateway, DoAuthorize(c.newPaymentId, amount, c.luck));
    case Capturing(_, id) => ApplyKeepsOk(w.gateway, DoCapture(id, None, c.luck));
    case Refunding(_, id, part, _) => ApplyKeepsOk(w.gateway, DoRefund(id, part, c.luck));
    case _ =>
  }

  // ----- the ledger is kept

  ghost predicate OnlyMoves(x: System, y: System, n: nat) {
    && y.flights.Keys == x.flights.Keys + {n}
    && (forall m :: m in x.flights && m != n ==> y.flights[m] == x.flights[m])
  }

  /** Updates that other operations have under way stay under way. */
  lemma DueStays(x: System, y: System, n: nat, r: RecordId, status: PaymentStatus)
    requires OnlyMoves(x, y, n)
    requires n in x.flights ==> !Writes(x.flights[n], r, status)
    ensures Due(x, r, status) ==> Due(y, r, status)
  {
    if m :| m in x.flights && Writes(x.flights[m], r, status) {
      assert m in y.flights && Writes(y.flights[m], r, status);
    }
  }

  /** A record stays as good as it was while neither it nor its payment changes
      and the flight that moves had nothing to write to it. */
  lemma RecordStays(x: System, y: System, k: Marks, l: Marks, n: nat, r: RecordId)
    requires r in x.world.records && RecordOk(x, k, r)
    requires r in y.world.records && y.world.records[r] == x.world.records[r]
    requires var (g, h, id) := (x.world.gateway, y.world.gateway, x.world.records[r].gatewayPaymentId);
             (id in g && id in h && h[id] == g[id]) || (id !in g && !Captured(h, id))
    requires (r in l.missed <==> r in k.missed) && (r in l.overwritten <==> r in k.overwritten)
    requires OnlyMoves(x, y, n)
    requires n in x.flights && Accomplished(x.flights[n]) ==> x.flights[n].recordId != r
    ensures RecordOk(y, l, r)
  {
    var id := x.world.records[r].gatewayPaymentId;
    if id in x.world.gateway {
      DueStays(x, y, n, r, x.world.gateway[id].status);
    }
  }

  predicate Accomplished(f: Flight) {
    f.Updating? && f.result.success
  }

  /** Other flights keep what they rely on, and the flight that moved has its own. */
  lemma FlightsStay(x: System, y: System, k: Marks, l: Marks, n: nat)
    requires FlightsOk(x, k)
    requires OnlyMoves(x, y, n)
    requires forall m :: m in x.flights && m != n ==>
               && FlightOk(y.world, l.missed, y.flights[m]) && Pays(y.world, y.flights[m]) == Pays(x.world, x.flights[m])
    requires FlightOk(y.world, l.missed, y.flights[n])
    requires forall m :: m in x.flights && m != n ==> !Clash(y.world, y.flights[n], y.flights[m])
    ensures FlightsOk(y, l)
  {
    forall a, b | a in y.flights && b in y.flights && a != b ensures !Clash(y.world, y.flights[a], y.flights[b]) {
      if a == n {
        assert !Clash(y.world, y.flights[n], y.flights[b]);
      } else if b == n {
        assert !Clash(y.world, y.flights[n], y.flights[a]);
      } else {
        assert !Clash(x.world, x.flights[a], x.flights[b]);
      }
    }
  }

  lemma BeginKeepsLedger(x: System, k: Marks, s: Step)
    requires Ledger(x, k) && Enabled(x, s) && !s.Advance?
    ensures Ledger(Next(x, s), k)
  {
    var y := Next(x, s);
    forall r | r in y.world.records ensures RecordOk(y, k, r) {
      RecordStays(x, y, k, k, s.flight, r);
    }
    if s.StartRefund? && y.flights[s.flight].Refunding? {
      assert RecordOk(x, k, s.recordId);
    }
    FlightsStay(x, y, k, k, s.flight);
  }

  /** After a refusal only the flight itself has moved. */
  lemma RefusalKeepsLedger(x: System, k: Marks, n: nat, f: Flight, r: Option<RecordId>)
    requires Ledger(x, k) && n in x.flights && !Accomplished(x.flights[n])
    requires Refusal(x.world, x.world, f, r) && FlightOk(x.world, k.missed, f)
    requires Pays(x.world, f).Some? ==> Pays(x.world, f) == Pays(x.world, x.flights[n])
    ensures Ledger(System(x.world, x.flights[n := f]), k)
  {
    var y := System(x.world, x.flights[n := f]);
    forall q | q in y.world.records ensures RecordOk(y, k, q) {
      RecordStays(x, y, k, k, n, q);
    }
    forall m | m in x.flights && m != n ensures !Clash(y.world, f, y.flights[m]) {
      assert !Clash(x.world, x.flights[n], x.flights[m]);
    }
    FlightsStay(x, y, k, k, n);
  }

  /** What others rely on does not depend on one payment they do not work on. */
  lemma OthersRely(w: World, missed: set<RecordId>, g: Flight, id: PaymentId, p: Payment)
    requires FlightOk(w, missed, g)
    requires Pays(w, g) != Some(id)
    requires id in w.gateway && RefundsAt(w, g, id) ==> RefundOkAfter(w.gateway[id], p)
    ensures FlightOk(w.(gateway := w.gateway[id := p]), missed, g)
    ensures Pays(w.(gateway := w.gateway[id := p]), g) == Pays(w, g)
  {
  }

  predicate Refunds(f: Flight) {
    f.Refunding? || (f.Updating? && f.refunded.Some?)
  }

  /** A flight refunds the payment: it is after reading and before its update. */
  ghost predicate RefundsAt(w: World, g: Flight, id: PaymentId) {
    Refunds(g) && g.recordId in w.records && w.records[g.recordId].gatewayPaymentId == id
  }

  ghost predicate RefundOkAfter(was: Payment, p: Payment) {
    was.status == CAPTURED && p.amount == was.amount && p.captured == was.captured
  }

  lemma AuthorizedKeepsLedger(x: System, k: Marks, n: nat, id: PaymentId, f: Flight)
    requires Ledger(x, k) && n in x.flights && x.flights[n].Authorizing? && id !in x.world.gateway
    requires f.Inserting? && f.auth.success && f.auth.status == AUTHORIZED && IdOf(f.auth) == id
    ensures Ledger(System(x.world.(gateway := x.world.gateway[id := Payment(AUTHORIZED, f.amount, 0, 0)]), x.flights[n := f]), k)
  {
    var p := Payment(AUTHORIZED, f.amount, 0, 0);
    var y := System(x.world.(gateway := x.world.gateway[id := p]), x.flights[n := f]);
    forall r | r in y.world.records ensures RecordOk(y, k, r) {
      RecordStays(x, y, k, k, n, r);
    }
    forall other | other in y.world.gateway && y.world.gateway[other].captured != 0 ensures HasRecord(y.world, other) {
      assert HasRecord(x.world, other);
    }
    AuthorizedKeepsFlights(x, y, k, n, id);
  }

  lemma AuthorizedKeepsFlights(x: System, y: System, k: Marks, n: nat, id: PaymentId)
    requires FlightsOk(x, k) && n in x.flights && x.flights[n].Authorizing? && id !in x.world.gateway
    requires OnlyMoves(x, y, n) && y.flights[n].Inserting?
    requires var auth := y.flights[n].auth; auth.success && auth.status == AUTHORIZED && IdOf(auth) == id
    requires y.world == x.world.(gateway := x.world.gateway[id := Payment(AUTHORIZED, y.flights[n].amount, 0, 0)])
    ensures FlightsOk(y, k)
  {
    forall m | m in x.flights && m != n
      ensures FlightOk(y.world, k.missed, x.flights[m]) && Pays(y.world, x.flights[m]) == Pays(x.world, x.flights[m])
      ensures !Clash(y.world, y.flights[n], x.flights[m])
    {
      PaysKnown(x.world, k.missed, x.flights[m]);
      OthersRely(x.world, k.missed, x.flights[m], id, Payment(AUTHORIZED, y.flights[n].amount, 0, 0));
    }
    FlightsStay(x, y, k, k, n);
  }

  lemma PaysKnown(w: World, missed: set<RecordId>, f: Flight)
    requires FlightOk(w, missed, f)
    ensures Pays(w, f).Some? ==> Pays(w, f).value in w.gateway
  {
  }

  lemma AuthorizeKeepsLedger(x: System, k: Marks, n: nat, c: Chance)
    requires Ledger(x, k) && Enabled(x, Advance(n, c)) && x.flights[n].Authorizing?
    ensures Ledger(Next(x, Advance(n, c)), k)
  {
    var (w, f) := Access(x.world, x.flights[n], c);
    AuthorizeEffect(x.world, x.flights[n], c);
    if Refusal(x.world, w, f, None) {
      RefusalKeepsLedger(x, k, n, f, None);
    } else {
      AuthorizedKeepsLedger(x, k, n, c.newPaymentId, f);
    }
  }

  lemma InsertKeepsLedger(x: System, k: Marks, n: nat, c: Chance)
    requires Ledger(x, k) && Enabled(x, Advance(n, c)) && x.flights[n].Inserting?
    ensures Ledger(Next(x, Advance(n, c)), k)
  {
    var (w, f) := Access(x.world, x.flights[n], c);
    var (auth, r) := (x.flights[n].auth, c.newRecordId);
    if c.fate.Refused? || !CanInsert(x.world.records, IdOf(auth), x.flights[n].key) {
      RefusalKeepsLedger(x, k, n, f, None);
    } else {
      InsertedKeepsLedger(x, k, n, r, w.records[r], f);
    }
  }

  lemma InsertedKeepsLedger(x: System, k: Marks, n: nat, r: RecordId, record: PaymentRecord, f: Flight)
    requires Ledger(x, k) && n in x.flights && x.flights[n].Inserting? && r !in x.world.records
    requires CanInsert(x.world.records, record.gatewayPaymentId, x.flights[n].key)
    requires var auth := x.flights[n].auth;
             && record == PaymentRecord(IdOf(auth), x.flights[n].key, x.flights[n].amount, auth.status, 0)
             && (f.Ended? || (f == Capturing(r, IdOf(auth)) && auth.success && auth.status == AUTHORIZED))
    ensures Ledger(System(x.world.(records := x.world.records[r := record]), x.flights[n := f]), k)
  {
    var y := System(x.world.(records := x.world.records[r := record]), x.flights[n := f]);
    assert FlightOk(x.world, k.missed, x.flights[n]);
    InsertedKeepsRecords(x, y, k, n, r, record);
    forall m | m in x.flights && m != n
      ensures FlightOk(y.world, k.missed, x.flights[m]) && Pays(y.world, x.flights[m]) == Pays(x.world, x.flights[m])
      ensures !Clash(y.world, f, x.flights[m])
    {
      assert FlightOk(x.world, k.missed, x.flights[m]) && !Clash(x.world, x.flights[n], x.flights[m]);
    }
    FlightsStay(x, y, k, k, n);
  }

  lemma StillRecorded(w: World, after: World, id: PaymentId)
    requires HasRecord(w, id)
    requires forall q :: q in w.records ==>
               q in after.records && after.records[q].gatewayPaymentId == w.records[q].gatewayPaymentId
    ensures HasRecord(after, id)
  {
    var q :| q in w.records && w.records[q].gatewayPaymentId == id;
    assert q in after.records;
  }

  lemma InsertedKeepsRecords(x: System, y: System, k: Marks, n: nat, r: RecordId, record: PaymentRecord)
    requires RecordsOk(x, k) && n in x.flights && x.flights[n].Inserting? && r !in x.world.records
    requires CanInsert(x.world.records, record.gatewayPaymentId, record.idempotencyKey) && record.status in {AUTHORIZED, FAILED}
    requires y.world == x.world.(records := x.world.records[r := record])
    requires OnlyMoves(x, y, n)
    ensures RecordsOk(y, k)
  {
    forall id | id in y.world.gateway && y.world.gateway[id].captured != 0 ensures HasRecord(y.world, id) {
      StillRecorded(x.world, y.world, id);
    }
    forall q | q in y.world.records ensures RecordOk(y, k, q) {
      if q != r {
        assert RecordOk(x, k, q);
        RecordStays(x, y, k, k, n, q);
      } else if record.gatewayPaymentId in x.world.gateway {
        assert !HasRecord(x.world, record.gatewayPaymentId);
      }
    }
  }

  lemma CaptureKeepsLedger(x: System, k: Marks, n: nat, c: Chance)
    requires Ledger(x, k) && Enabled(x, Advance(n, c)) && x.flights[n].Capturing?
    ensures Ledger(Next(x, Advance(n, c)), k)
  {
    var (w, f) := Access(x.world, x.flights[n], c);
    CaptureEffect(x.world, k.missed, x.flights[n], c);
    if Refusal(x.world, w, f, Some(x.flights[n].recordId)) {
      RefusalKeepsLedger(x, k, n, f, Some(x.flights[n].recordId));
    } else {
      CapturedKeepsLedger(x, k, n, f);
    }
  }

  lemma CapturedKeepsLedger(x: System, k: Marks, n: nat, f: Flight)
    requires Ledger(x, k) && n in x.flights && x.flights[n].Capturing?
    requires f.Updating? && f.recordId == x.flights[n].recordId && f.refunded.None?
    requires f.result.success && f.result.status == CAPTURED
    requires f.recordId in x.world.records && x.world.records[f.recordId].amount > 0
    ensures var (id, amount) := (x.flights[n].paymentId, x.world.records[f.recordId].amount);
            Ledger(System(x.world.(gateway := x.world.gateway[id := Payment(CAPTURED, amount, amount, 0)]), x.flights[n := f]), k)
  {
    var (id, amount) := (x.flights[n].paymentId, x.world.records[f.recordId].amount);
    var p := Payment(CAPTURED, amount, amount, 0);
    var y := System(x.world.(gateway := x.world.gateway[id := p]), x.flights[n := f]);
    assert FlightOk(x.world, k.missed, x.flights[n]);
    forall r | r in y.world.records ensures RecordOk(y, k, r) {
      assert RecordOk(x, k, r);
      if r == f.recordId {
        assert Writes(y.flights[n], r, CAPTURED);
      } else {
        RecordStays(x, y, k, k, n, r);
      }
    }
    forall other | other in y.world.gateway && y.world.gateway[other].captured != 0 ensures HasRecord(y.world, other) {
      if other == id {
        assert y.world.records[f.recordId].gatewayPaymentId == id;
      } else {
        assert HasRecord(x.world, other);
      }
    }
    assert RecordOk(x, k, f.recordId);
    forall m | m in x.flights && m != n
      ensures FlightOk(y.world, k.missed, x.flights[m]) && Pays(y.world, x.flights[m]) == Pays(x.world, x.flights[m])
      ensures !Clash(y.world, f, x.flights[m])
    {
      assert FlightOk(x.world, k.missed, x.flights[m]) && !Clash(x.world, x.flights[n], x.flights[m]);
      OthersRely(x.world, k.missed, x.flights[m], id, p);
    }
    FlightsStay(x, y, k, k, n);
  }

  lemma RefundKeepsLedger(x: System, k: Marks, n: nat, c: Chance)
    requires Ledger(x, k) && Enabled(x, Advance(n, c)) && x.flights[n].Refunding?
    ensures Ledger(Next(x, Advance(n, c)), k)
  {
    var (w, f) := Access(x.world, x.flights[n], c);
    RefundEffect(x.world, k.missed, x.flights[n], c);
    if Refusal(x.world, w, f, Some(x.flights[n].recordId)) {
      RefusalKeepsLedger(x, k, n, f, Some(x.flights[n].recordId));
    } else {
      AccessKeepsAllOk(x.world, x.flights[n], c);
      RefundedKeepsLedger(x, k, n, f, w);
    }
  }

  lemma RefundedKeepsLedger(x: System, k: Marks, n: nat, f: Flight, w: World)
    requires Ledger(x, k) && n in x.flights && x.flights[n].Refunding?
    requires Accepted(f) && f.recordId == x.flights[n].recordId && GivenBack(f.result.status)
    requires x.flights[n].paymentId in x.world.gateway && x.world.gateway[x.flights[n].paymentId].status == CAPTURED
    requires var (id, p) := (x.flights[n].paymentId, x.world.gateway[x.flights[n].paymentId]);
             w == x.world.(gateway := x.world.gateway[id := Payment(f.result.status, p.amount, p.captured, f.refunded.value)])
    requires AllOk(w.gateway)
    ensures Ledger(System(w, x.flights[n := f]), k)
  {
    var (id, y) := (x.flights[n].paymentId, System(w, x.flights[n := f]));
    assert FlightOk(x.world, k.missed, x.flights[n]) && RecordOk(x, k, f.recordId);
    forall r | r in y.world.records ensures RecordOk(y, k, r) {
      if r == f.recordId {
        assert Writes(y.flights[n], r, f.result.status);
      } else {
        RecordStays(x, y, k, k, n, r);
      }
    }
    forall other | other in y.world.gateway && y.world.gateway[other].captured != 0 ensures HasRecord(y.world, other) {
      assert HasRecord(x.world, other);
    }
    RefundedKeepsFlights(x, y, k, n, id);
  }

  lemma RefundedKeepsFlights(x: System, y: System, k: Marks, n: nat, id: PaymentId)
    requires FlightsOk(x, k) && Unique(x.world.records) && OnlyMoves(x, y, n)
    requires n in x.flights && x.flights[n].Refunding? && x.flights[n].paymentId == id
    requires Accepted(y.flights[n]) && y.flights[n].recordId == x.flights[n].recordId && FlightOk(y.world, k.missed, y.flights[n])
    requires id in x.world.gateway && id in y.world.gateway && RefundOkAfter(x.world.gateway[id], y.world.gateway[id])
    requires y.world == x.world.(gateway := x.world.gateway[id := y.world.gateway[id]])
    ensures FlightsOk(y, k)
  {
    assert FlightOk(x.world, k.missed, x.flights[n]);
    forall m | m in x.flights && m != n
      ensures FlightOk(y.world, k.missed, x.flights[m]) && Pays(y.world, x.flights[m]) == Pays(x.world, x.flights[m])
      ensures !Clash(y.world, y.flights[n], x.flights[m])
    {
      assert FlightOk(x.world, k.missed, x.flights[m]);
      OthersRely(x.world, k.missed, x.flights[m], id, y.world.gateway[id]);
    }
    FlightsStay(x, y, k, k, n);
  }

  /** The record that is written says what the gateway says, or FAILED. */
  lemma WrittenRecordOk(x: System, y: System, k: Marks, l: Marks, n: nat)
    requires Ledger(x, k) && n in x.flights && x.flights[n].Updating? && x.flights[n].recordId in x.world.records
    requires var (f, w) := (x.flights[n], x.world);
             && y.world == w.(records := w.records[f.recordId := Updated(w.records[f.recordId], f.result, f.refunded)])
             && l == (if !f.result.success && GivenBack(w.records[f.recordId].status)
                      then k.(overwritten := k.overwritten + {f.recordId}) else k)
    requires OnlyMoves(x, y, n)
    ensures RecordOk(y, l, x.flights[n].recordId)
  {
    var f := x.flights[n];
    var id := x.world.records[f.recordId].gatewayPaymentId;
    assert FlightOk(x.world, k.missed, f) && RecordOk(x, k, f.recordId);
    if id in x.world.gateway {
      assert PaymentOk(x.world.gateway[id]);
      if !f.result.success {
        DueStays(x, y, n, f.recordId, x.world.gateway[id].status);
      }
    }
  }

  /** Another flight does not notice a write to a record it does not pay for. */
  lemma WriteUnnoticed(w: World, after: World, missed: set<RecordId>, g: Flight, r: RecordId)
    requires FlightOk(w, missed, g) && r in w.records && r in after.records
    requires after == w.(records := w.records[r := after.records[r]])
    requires SamePayment(w.records[r], after.records[r]) && after.records[r].status != AUTHORIZED
    requires Pays(w, g) != Some(w.records[r].gatewayPaymentId)
    requires Accepted(g) && g.recordId == r ==> !GivenBack(after.records[r].status)
    ensures FlightOk(after, missed, g) && Pays(after, g) == Pays(w, g)
  {
  }

  ghost predicate SamePayment(a: PaymentRecord, b: PaymentRecord) {
    a.gatewayPaymentId == b.gatewayPaymentId && a.amount == b.amount
  }

  lemma WrittenKeepsRecords(x: System, y: System, k: Marks, l: Marks, n: nat)
    requires Ledger(x, k) && n in x.flights && x.flights[n].Updating? && x.flights[n].recordId in x.world.records
    requires var (f, w) := (x.flights[n], x.world);
             && y.world == w.(records := w.records[f.recordId := Updated(w.records[f.recordId], f.result, f.refunded)])
             && l == (if !f.result.success && GivenBack(w.records[f.recordId].status)
                      then k.(overwritten := k.overwritten + {f.recordId}) else k)
    requires OnlyMoves(x, y, n)
    ensures RecordsOk(y, l)
  {
    var f := x.flights[n];
    forall r | r in y.world.records ensures RecordOk(y, l, r) {
      if r == f.recordId {
        WrittenRecordOk(x, y, k, l, n);
      } else {
        RecordStays(x, y, k, l, n, r);
      }
    }
    forall id | id in y.world.gateway && y.world.gateway[id].captured != 0 ensures HasRecord(y.world, id) {
      StillRecorded(x.world, y.world, id);
    }
  }

  lemma WrittenKeepsLedger(x: System, k: Marks, n: nat, c: Chance)
    requires Ledger(x, k) && Enabled(x, Advance(n, c)) && x.flights[n].Updating? && !c.fate.Refused?
    ensures Ledger(Next(x, Advance(n, c)), Mark(x, k, Advance(n, c)))
  {
    var (y, l) := (Next(x, Advance(n, c)), Mark(x, k, Advance(n, c)));
    assert FlightOk(x.world, k.missed, x.flights[n]);
    WrittenKeepsRecords(x, y, k, l, n);
    WrittenKeepsFlights(x, y, k, l, n);
  }

  lemma WrittenKeepsFlights(x: System, y: System, k: Marks, l: Marks, n: nat)
    requires FlightsOk(x, k) && Unique(x.world.records)
    requires n in x.flights && x.flights[n].Updating? && x.flights[n].recordId in x.world.records
    requires var (f, w) := (x.flights[n], x.world);
             y.world == w.(records := w.records[f.recordId := Updated(w.records[f.recordId], f.result, f.refunded)])
    requires OnlyMoves(x, y, n) && y.flights[n].Ended? && l.missed == k.missed
    ensures FlightsOk(y, l)
  {
    var f := x.flights[n];
    assert FlightOk(x.world, k.missed, f);
    forall m | m in x.flights && m != n
      ensures FlightOk(y.world, l.missed, x.flights[m]) && Pays(y.world, x.flights[m]) == Pays(x.world, x.flights[m])
    {
      assert FlightOk(x.world, k.missed, x.flights[m]) && !Clash(x.world, f, x.flights[m]);
      WriteUnnoticed(x.world, y.world, k.missed, x.flights[m], f.recordId);
    }
    FlightsStay(x, y, k, l, n);
  }

  /** A refused update that had something to tell strands its record. */
  lemma MissedKeepsLedger(x: System, k: Marks, n: nat, c: Chance)
    requires Ledger(x, k) && Enabled(x, Advance(n, c)) && Accomplished(x.flights[n]) && c.fate.Refused?
    ensures Ledger(Next(x, Advance(n, c)), Mark(x, k, Advance(n, c)))
  {
    var (y, l, f) := (Next(x, Advance(n, c)), Mark(x, k, Advance(n, c)), x.flights[n]);
    assert FlightOk(x.world, k.missed, f);
    MissedKeepsRecords(x, y, k, l, n);
    MissedKeepsFlights(x, y, k, l, n);
  }

  lemma MissedKeepsRecords(x: System, y: System, k: Marks, l: Marks, n: nat)
    requires Ledger(x, k) && n in x.flights && Accomplished(x.flights[n])
    requires y.world == x.world && OnlyMoves(x, y, n)
    requires l == k.(missed := k.missed + {x.flights[n].recordId})
    ensures RecordsOk(y, l)
  {
    StrandedByRefusal(x, k, n);
    forall r | r in y.world.records ensures RecordOk(y, l, r) {
      assert RecordOk(x, k, r);
      if r != x.flights[n].recordId {
        RecordStays(x, y, k, l, n, r);
      }
    }
  }

  lemma MissedKeepsFlights(x: System, y: System, k: Marks, l: Marks, n: nat)
    requires FlightsOk(x, k) && n in x.flights && Accomplished(x.flights[n])
    requires y.world == x.world && OnlyMoves(x, y, n) && y.flights[n].Ended?
    requires l.missed == k.missed + {x.flights[n].recordId}
    ensures FlightsOk(y, l)
  {
    var f := x.flights[n];
    forall m | m in x.flights && m != n ensures FlightOk(y.world, l.missed, x.flights[m]) {
      assert FlightOk(x.world, k.missed, f) && FlightOk(x.world, k.missed, x.flights[m]) && !Clash(x.world, f, x.flights[m]);
    }
    FlightsStay(x, y, k, l, n);
  }

  lemma StrandedByRefusal(x: System, k: Marks, n: nat)
    requires Ledger(x, k) && n in x.flights && Accomplished(x.flights[n])
    ensures var f := x.flights[n];
            && f.recordId in x.world.records
            && var (g, r) := (x.world.gateway, x.world.records[f.recordId]);
            && Captured(g, r.gatewayPaymentId) && Stranded(r.status, g[r.gatewayPaymentId].status)
  {
    var f := x.flights[n];
    assert FlightOk(x.world, k.missed, f) && RecordOk(x, k, f.recordId);
    assert PaymentOk(x.world.gateway[x.world.records[f.recordId].gatewayPaymentId]);
  }

  lemma UpdateKeepsLedger(x: System, k: Marks, n: nat, c: Chance)
    requires Ledger(x, k) && Enabled(x, Advance(n, c)) && x.flights[n].Updating?
    ensures Ledger(Next(x, Advance(n, c)), Mark(x, k, Advance(n, c)))
  {
    if !c.fate.Refused? {
      WrittenKeepsLedger(x, k, n, c);
    } else if x.flights[n].result.success {
      MissedKeepsLedger(x, k, n, c);
    } else {
      RefusalKeepsLedger(x, k, n, Ended(None), None);
    }
  }

  lemma NextKeepsLedger(x: System, k: Marks, s: Step)
    requires Ledger(x, k) && Enabled(x, s)
    ensures Ledger(Next(x, s), Mark(x, k, s))
  {
    if s.Advance? {
      match x.flights[s.flight]
      case Authorizing(_, _, _) => AuthorizeKeepsLedger(x, k, s.flight, s.chance);
      case Inserting(_, _, _) => InsertKeepsLedger(x, k, s.flight, s.chance);
      case Capturing(_, _) => CaptureKeepsLedger(x, k, s.flight, s.chance);
      case Refunding(_, _, _, _) => RefundKeepsLedger(x, k, s.flight, s.chance);
      case Updating(_, _, _) => UpdateKeepsLedger(x, k, s.flight, s.chance);
      case Ended(_) => assert x.flights[s.flight := x.flights[s.flight]] == x.flights;
    } else {
      BeginKeepsLedger(x, k, s);
    }
  }

  lemma {:induction false} LedgerAlways(run: seq<Step>)
    requires Valid(run)
    ensures Ledger(After(run), Marked(run))
  {
    if run != [] {
      var front := run[..|run| - 1];
      LedgerAlways(front);
      NextKeepsLedger(After(front), Marked(front), run[|run| - 1]);
    }
  }

  lemma DueIsBusy(x: System, r: RecordId, status: PaymentStatus)
    requires Due(x, r, status)
    ensures Busy(x, r)
  {
    var n :| n in x.flights && Writes(x.flights[n], r, status);
    assert On(x.flights[n], r);
  }

  // ----- records against the gateway

  /** For every interleaving of payments and refunds, with any gateway failures,
      any behaviour of the circuit layers and any fate of the writes: a record
      marked CAPTURED, REFUNDED or PARTIALLY_REFUNDED on which nothing is in flight
      agrees with its gateway payment exactly when no update that would have told
      of a capture or refund was refused. */
  lemma SettledRecordsMatch(run: seq<Step>, r: RecordId)
    requires Valid(run) && r in After(run).world.records
    ensures var (x, record) := (After(run), After(run).world.records[r]);
            Settled(record.status) && !Busy(x, r) ==> (Matches(x.world.gateway, record) <==> r !in Marked(run).missed)
  {
    var (x, record) := (After(run), After(run).world.records[r]);
    LedgerAlways(run);
    assert RecordOk(x, Marked(run), r);
    if Settled(record.status) && Due(x, r, x.world.gateway[record.gatewayPaymentId].status) {
      DueIsBusy(x, r, x.world.gateway[record.gatewayPaymentId].status);
    }
  }

  /** No money is taken without a record: each payment captured at the gateway has
      exactly one, of the captured amount.  Once nothing is in flight on it, the
      record has the payment's status exactly when it does not read FAILED and no
      update of it was missed. */
  lemma CapturedMoneyIsRecorded(run: seq<Step>, id: PaymentId) returns (r: RecordId)
    requires Valid(run) && Captured(After(run).world.gateway, id)
    ensures var (x, p) := (After(run), After(run).world.gateway[id]);
            && r in x.world.records
            && x.world.records[r].gatewayPaymentId == id && x.world.records[r].amount == p.captured
            && (!Busy(x, r) ==>
                  (x.world.records[r].status == p.status <==> x.world.records[r].status != FAILED && r !in Marked(run).missed))
            && (forall q :: q in x.world.records && x.world.records[q].gatewayPaymentId == id ==> q == r)
  {
    var x := After(run);
    LedgerAlways(run);
    assert HasRecord(x.world, id) && PaymentOk(x.world.gateway[id]);
    r :| r in x.world.records && x.world.records[r].gatewayPaymentId == id;
    assert RecordOk(x, Marked(run), r);
    if Due(x, r, x.world.gateway[id].status) {
      DueIsBusy(x, r, x.world.gateway[id].status);
    }
  }

  /** A FAILED record on which nothing is in flight tells that the gateway holds
      the captured money, untouched by refunds, exactly when no failure was written
      over a refund it told of and no update of it was missed. */
  lemma FailedIsCapturedIff(run: seq<Step>, r: RecordId)
    requires Valid(run) && r in After(run).world.records
    ensures var (x, record, k) := (After(run), After(run).world.records[r], Marked(run));
            var (g, id) := (x.world.gateway, record.gatewayPaymentId);
            record.status == FAILED && Captured(g, id) && !Busy(x, r) ==>
              (g[id] == Payment(CAPTURED, record.amount, record.amount, 0) <==> r !in k.overwritten && r !in k.missed)
  {
    var (x, record) := (After(run), After(run).world.records[r]);
    LedgerAlways(run);
    assert RecordOk(x, Marked(run), r);
    if Captured(x.world.gateway, record.gatewayPaymentId) {
      var p := x.world.gateway[record.gatewayPaymentId];
      assert PaymentOk(p);
      if Due(x, r, p.status) {
        DueIsBusy(x, r, p.status);
      }
    }
  }

  // ----- refunds that do not overlap

  /** A refund starts only when nothing is in flight on its record. */
  ghost predicate RefundsApart(run: seq<Step>) {
    run == [] ||
    var (front, s) := (run[..|run| - 1], run[|run| - 1]);
    RefundsApart(front) && (s.StartRefund? ==> !Busy(After(front), s.recordId))
  }

  /** Whoever refunds a record is alone on it, and the record still reads CAPTURED. */
  ghost predicate Apart(x: System) {
    && (forall n :: n in x.flights && Refunds(x.flights[n]) && x.flights[n].recordId in x.world.records ==>
          x.world.records[x.flights[n].recordId].status == CAPTURED)
    && (forall n, m, r :: n in x.flights && m in x.flights && On(x.flights[n], r) && On(x.flights[m], r) ==> n == m)
  }

  /** No record gets a second flight when the one that moves meets no other. */
  lemma NoCompany(x: System, y: System, n: nat)
    requires Apart(x) && OnlyMoves(x, y, n)
    requires forall m, r :: m in x.flights && m != n && On(y.flights[n], r) ==> !On(x.flights[m], r)
    ensures forall a, b, r :: a in y.flights && b in y.flights && On(y.flights[a], r) && On(y.flights[b], r) ==> a == b
  {
    forall a, b, r | a in y.flights && b in y.flights && On(y.flights[a], r) && On(y.flights[b], r) ensures a == b {
      if a != n && b != n {
        assert On(x.flights[a], r) && On(x.flights[b], r);
      }
    }
  }

  /** A flight that moves on stays on its record, and goes on refunding it. */
  lemma CallStays(w: World, missed: set<RecordId>, f: Flight, c: Chance)
    requires AllOk(w.gateway) && FlightOk(w, missed, f) && (f.Authorizing? || f.Capturing? || f.Refunding?)
    ensures var (after, g) := Access(w, f, c);
            && after.records == w.records
            && (forall r :: On(g, r) ==> On(f, r))
            && (Refunds(g) ==> Refunds(f))
  {
    match f {
      case Authorizing(_, _, _) => AuthorizeEffect(w, f, c);
      case Capturing(_, _) => CaptureEffect(w, missed, f, c);
      case Refunding(_, _, _, _) => RefundEffect(w, missed, f, c);
    }
  }

  lemma CallsKeepApart(x: System, k: Marks, n: nat, c: Chance)
    requires Ledger(x, k) && Apart(x) && Enabled(x, Advance(n, c))
    requires x.flights[n].Authorizing? || x.flights[n].Capturing? || x.flights[n].Refunding?
    ensures Apart(Next(x, Advance(n, c)))
  {
    assert FlightOk(x.world, k.missed, x.flights[n]);
    CallStays(x.world, k.missed, x.flights[n], c);
    NoCompany(x, Next(x, Advance(n, c)), n);
  }

  lemma UnknownIsFree(x: System, k: Marks, r: RecordId)
    requires FlightsOk(x, k) && r !in x.world.records
    ensures forall m :: m in x.flights ==> !On(x.flights[m], r)
  {
    forall m | m in x.flights ensures !On(x.flights[m], r) {
      assert FlightOk(x.world, k.missed, x.flights[m]);
    }
  }

  lemma InsertKeepsApart(x: System, k: Marks, n: nat, c: Chance)
    requires Ledger(x, k) && Apart(x) && Enabled(x, Advance(n, c)) && x.flights[n].Inserting?
    ensures Apart(Next(x, Advance(n, c)))
  {
    UnknownIsFree(x, k, c.newRecordId);
    NewcomerKeepsApart(x, Next(x, Advance(n, c)), n, c.newRecordId);
  }

  lemma NewcomerKeepsApart(x: System, y: System, n: nat, r: RecordId)
    requires Apart(x) && OnlyMoves(x, y, n) && r !in x.world.records
    requires forall m :: m in x.flights ==> !On(x.flights[m], r)
    requires y.world.records - {r} == x.world.records
    requires !Refunds(y.flights[n]) && forall q :: On(y.flights[n], q) ==> q == r
    ensures Apart(y)
  {
    NoCompany(x, y, n);
    forall m | m in y.flights && Refunds(y.flights[m]) && y.flights[m].recordId in y.world.records
      ensures y.world.records[y.flights[m].recordId].status == CAPTURED
    {
      assert On(x.flights[m], y.flights[m].recordId);
    }
  }

  lemma UpdateKeepsApart(x: System, k: Marks, n: nat, c: Chance)
    requires Ledger(x, k) && Apart(x) && Enabled(x, Advance(n, c)) && x.flights[n].Updating?
    ensures Apart(Next(x, Advance(n, c)))
  {
    var (y, f) := (Next(x, Advance(n, c)), x.flights[n]);
    assert On(f, f.recordId);
    forall m | m in y.flights && Refunds(y.flights[m]) && y.flights[m].recordId in y.world.records
      ensures y.world.records[y.flights[m].recordId].status == CAPTURED
    {
      assert On(x.flights[m], x.flights[m].recordId);
    }
    NoCompany(x, y, n);
  }

  /** No failure is then written over a refund. */
  lemma {:induction false} ApartAlways(run: seq<Step>)
    requires Valid(run) && RefundsApart(run)
    ensures Apart(After(run)) && Marked(run).overwritten == {}
  {
    if run != [] {
      var (front, s) := (run[..|run| - 1], run[|run| - 1]);
      var (x, k) := (After(front), Marked(front));
      ApartAlways(front);
      LedgerAlways(front);
      if s.Advance? {
        assert FlightOk(x.world, k.missed, x.flights[s.flight]);
        match x.flights[s.flight]
        case Inserting(_, _, _) => InsertKeepsApart(x, k, s.flight, s.chance);
        case Updating(_, _, _) => UpdateKeepsApart(x, k, s.flight, s.chance);
        case Ended(_) => assert x.flights[s.flight := x.flights[s.flight]] == x.flights;
        case _ => CallsKeepApart(x, k, s.flight, s.chance);
      }
    }
  }

  /** When refunds of one record do not overlap, a record that reads FAILED tells
      that the gateway holds the captured money, untouched by refunds, exactly when
      no update of it was missed. */
  lemma FailedRefundsLeaveCaptured(run: seq<Step>, r: RecordId)
    requires Valid(run) && RefundsApart(run) && r in After(run).world.records
    ensures var (g, record) := (After(run).world.gateway, After(run).world.records[r]);
            record.status == FAILED && Captured(g, record.gatewayPaymentId) ==>
              (g[record.gatewayPaymentId] == Payment(CAPTURED, record.amount, record.amount, 0) <==> r !in Marked(run).missed)
  {
    var (x, k) := (After(run), Marked(run));
    var record := x.world.records[r];
    ApartAlways(run);
    LedgerAlways(run);
    assert RecordOk(x, k, r);
    if record.status == FAILED && Captured(x.world.gateway, record.gatewayPaymentId) {
      assert PaymentOk(x.world.gateway[record.gatewayPaymentId]);
      FailedIsNotDue(x, k, r);
    }
  }

  lemma FailedIsNotDue(x: System, k: Marks, r: RecordId)
    requires Ledger(x, k) && Apart(x) && r in x.world.records && x.world.records[r].status == FAILED
    ensures forall status :: !Due(x, r, status)
  {
    forall n, status | n in x.flights ensures !Writes(x.flights[n], r, status) {
      assert FlightOk(x.world, k.missed, x.flights[n]);
    }
  }

  // ----- four histories

  lemma Extend(run: seq<Step>, s: Step) returns (longer: seq<Step>)
    requires Valid(run) && Enabled(After(run), s)
    ensures longer == run + [s] && Valid(longer) && After(longer) == Next(After(run), s)
  {
    longer := run + [s];
    assert longer[..|run|] == run;
  }

  function Smooth(newPaymentId: PaymentId, newRecordId: RecordId): Chance {
    Chance(Through, Lucky, Done, newPaymentId, newRecordId)
  }

  /** One payment, authorized and recorded without trouble. */
  lemma RecordedRun(amount: int) returns (run: seq<Step>)
    ensures Valid(run) && After(run).flights == map[0 := Capturing("r", "p")]
    ensures After(run).world == World(map["p" := Payment(AUTHORIZED, amount, 0, 0)],
                                      map["r" := PaymentRecord("p", "k", amount, AUTHORIZED, 0)])
  {
    run := Extend([], StartPay(0, "o", amount, "k", Runs));
    run := Extend(run, Advance(0, Smooth("p", "r")));
    assert After(run).world == World(map["p" := Payment(AUTHORIZED, amount, 0, 0)], map[]);
    run := Extend(run, Advance(0, Smooth("q", "r")));
  }

  /** ...captured at the gateway... */
  lemma CapturedRun(amount: int) returns (run: seq<Step>)
    requires amount > 0
    ensures Valid(run) && After(run).flights == map[0 := Updating("r", Result(true, CAPTURED, Some("p"), ""), None)]
    ensures After(run).world == World(map["p" := Payment(CAPTURED, amount, amount, 0)],
                                      map["r" := PaymentRecord("p", "k", amount, AUTHORIZED, 0)])
  {
    run := RecordedRun(amount);
    run := Extend(run, Advance(0, Smooth("q", "s")));
  }

  /** ...and written to its record. */
  lemma PaidRun(amount: int) returns (run: seq<Step>)
    requires amount > 0
    ensures Valid(run) && After(run).flights.Keys == {0} && After(run).flights[0].Ended?
    ensures After(run).world == World(map["p" := Payment(CAPTURED, amount, amount, 0)],
                                      map["r" := PaymentRecord("p", "k", amount, CAPTURED, 0)])
  {
    run := CapturedRun(amount);
    run := Extend(run, Advance(0, Smooth("q", "s")));
  }

  /** A refund of more than was captured, in a state that is reached. */
  lemma RefundTooLarge(amount: int, more: int) returns (run: seq<Step>)
    requires 0 < amount < more
    ensures Valid(run) && "r" in After(run).world.records && After(run).world.records["r"].status == CAPTURED
    ensures var (w, answer) := RefundRecord(After(run).world, RefundInput("r", Some(more), Runs, Through, Lucky));
            && "r" in w.records && w.records["r"].status == FAILED && w.records["r"].refundedAmount == more
            && "p" in w.gateway && w.gateway["p"] == Payment(CAPTURED, amount, amount, 0)
  {
    run := PaidRun(amount);
  }

  lemma RefundAccepted(w: World, amount: int)
    requires amount > 0 && w.gateway == map["p" := Payment(CAPTURED, amount, amount, 0)]
    ensures Access(w, Refunding("r", "p", None, amount), Smooth("q", "s"))
            == (w.(gateway := map["p" := Payment(REFUNDED, amount, amount, amount)]),
                Updating("r", Result(true, REFUNDED, Some("p"), ""), Some(amount)))
  {
    assert w.gateway["p" := Payment(REFUNDED, amount, amount, amount)] == map["p" := Payment(REFUNDED, amount, amount, amount)];
  }

  /** A refund that the gateway accepts and whose update is refused: the record
      goes on reading CAPTURED. */
  lemma RefusedUpdateMisleads(amount: int) returns (run: seq<Step>)
    requires amount > 0
    ensures Valid(run) && "r" in Marked(run).missed
    ensures "r" in After(run).world.records && After(run).world.records["r"].status == CAPTURED && !Busy(After(run), "r")
    ensures "p" in After(run).world.gateway && After(run).world.gateway["p"] == Payment(REFUNDED, amount, amount, amount)
  {
    run := PaidRun(amount);
    run := Extend(run, StartRefund(1, "r", None, Runs));
    RefundAccepted(After(run).world, amount);
    run := Extend(run, Advance(1, Smooth("q", "s")));
    var (x, last) := (After(run), Advance(1, Smooth("q", "s").(fate := Refused)));
    var front := run;
    run := Extend(front, last);
    assert run[..|run| - 1] == front;
    assert Marked(run) == Mark(x, Marked(front), last);
    forall n | n in After(run).flights ensures After(run).flights[n].Ended? {
      assert n in {0, 1};
    }
  }

  /** Two refunds of one record have both read it. */
  lemma TwoRefundsRun(amount: int) returns (run: seq<Step>)
    requires amount > 0
    ensures Valid(run) && !RefundsApart(run) && After(run).flights.Keys == {0, 1, 2}
    ensures After(run).world == World(map["p" := Payment(CAPTURED, amount, amount, 0)],
                                      map["r" := PaymentRecord("p", "k", amount, CAPTURED, 0)])
    ensures var f := After(run).flights; f[0].Ended? && f[1] == f[2] == Refunding("r", "p", None, amount)
  {
    run := PaidRun(amount);
    run := Extend(run, StartRefund(1, "r", None, Runs));
    assert On(After(run).flights[1], "r") && Busy(After(run), "r");
    var front := run;
    run := Extend(front, StartRefund(2, "r", None, Runs));
    assert run[..|run| - 1] == front;
  }

  /** Two refunds of one record that overlap: the record ends FAILED, although the
      gateway refunded the whole payment. */
  lemma OverlappingRefundsMislead(amount: int) returns (run: seq<Step>)
    requires amount > 0
    ensures Valid(run) && !RefundsApart(run)
    ensures "r" in After(run).world.records && After(run).world.records["r"].status == FAILED && !Busy(After(run), "r")
    ensures "p" in After(run).world.gateway && After(run).world.gateway["p"] == Payment(REFUNDED, amount, amount, amount)
  {
    run := TwoRefundsRun(amount);
    run := EarlyRefund(run, amount);
    run := LateRefund(run, amount);
  }

  /** The earlier refund is accepted, and its update is written. */
  lemma EarlyRefund(run: seq<Step>, amount: int) returns (longer: seq<Step>)
    requires amount > 0 && Valid(run) && !RefundsApart(run) && After(run).flights.Keys == {0, 1, 2}
    requires After(run).world == World(map["p" := Payment(CAPTURED, amount, amount, 0)],
                                       map["r" := PaymentRecord("p", "k", amount, CAPTURED, 0)])
    requires var f := After(run).flights; f[0].Ended? && f[1] == f[2] == Refunding("r", "p", None, amount)
    ensures Valid(longer) && !RefundsApart(longer) && After(longer).flights.Keys == {0, 1, 2}
    ensures var f := After(longer).flights; f[0].Ended? && f[1].Ended? && f[2] == Refunding("r", "p", None, amount)
    ensures After(longer).world.gateway == map["p" := Payment(REFUNDED, amount, amount, amount)]
    ensures After(longer).world.records.Keys == {"r"}
  {
    var c := Smooth("q", "s");
    RefundAccepted(After(run).world, amount);
    longer := Onward(run, 1, c);
    assert After(longer).flights[1].Updating?;
    longer := Onward(longer, 1, c);
  }

  /** The later refund is refused by the gateway, and says so in the record. */
  lemma LateRefund(run: seq<Step>, amount: int) returns (longer: seq<Step>)
    requires Valid(run) && !RefundsApart(run) && After(run).flights.Keys == {0, 1, 2}
    requires var f := After(run).flights; f[0].Ended? && f[1].Ended? && f[2] == Refunding("r", "p", None, amount)
    requires After(run).world.gateway == map["p" := Payment(REFUNDED, amount, amount, amount)]
    requires After(run).world.records.Keys == {"r"}
    ensures Valid(longer) && !RefundsApart(longer)
    ensures After(longer).world.gateway == After(run).world.gateway
    ensures "r" in After(longer).world.records && After(longer).world.records["r"].status == FAILED && !Busy(After(longer), "r")
  {
    var c := Smooth("q", "s");
    longer := Onward(run, 2, c);
    assert After(longer).flights[2].Updating? && After(longer).flights[2].recordId == "r"
           && After(longer).flights[2].result.status == FAILED;
    longer := Onward(longer, 2, c);
    forall n | n in After(longer).flights ensures After(longer).flights[n].Ended? {
      assert n in {0, 1, 2};
    }
  }

  lemma Onward(run: seq<Step>, n: nat, c: Chance) returns (longer: seq<Step>)
    requires Valid(run) && Enabled(After(run), Advance(n, c))
    ensures Valid(longer) && After(longer) == Next(After(run), Advance(n, c))
    ensures !RefundsApart(run) ==> !RefundsApart(longer)
  {
    longer := Extend(run, Advance(n, c));
    assert longer[..|longer| - 1] == run;
  }
}
