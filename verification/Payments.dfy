/**
 The payment records and the gateway behind two circuit-breaker layers.

 The inner layer wraps each gateway call: it may let the call through, answer
 with its own failure result (also when the call throws), or answer null.  The
 outer layer wraps the whole operation: it may let it run, reject it, or answer
 null without running it.  Which of these happens is any choice at every call.
 */
module Payments {
  import opened Wrappers
  import opened PaymentGateway

  type RecordId = string

  datatype PaymentRecord = PaymentRecord(gatewayPaymentId: PaymentId, idempotencyKey: string, amount: int, status: PaymentStatus, refundedAmount: int)

  datatype World = World(gateway: Payments, records: map<RecordId, PaymentRecord>)

  datatype Inner = Through | FallsBack | AnswersNull

  datatype Outer = Runs | Rejects | SkipsWithNull

  /** What a gateway call returns through the inner layer. */
  datatype Wrapped = NullAnswer | Got(result: Result)

  function FallbackResult(code: string, id: PaymentId): Result {
    Result(false, FAILED, Some(id), code)
  }

  function Wrap(inner: Inner, reply: Reply, code: string, id: PaymentId): Wrapped {
    if inner.AnswersNull? then NullAnswer
    else if inner.FallsBack? || reply.Threw? then Got(FallbackResult(code, id))
    else Got(reply.result)
  }

  /** One gateway call through the inner layer; it runs only when let through. */
  function Guarded(g: Payments, inner: Inner, call: Call, code: string, id: PaymentId): (Payments, Wrapped) {
    var (after, reply) := if inner.Through? then Apply(g, call) else (g, Threw);
    (after, Wrap(inner, reply, code, id))
  }

  /** Both columns are unique in the table of records. */
  predicate CanInsert(records: map<RecordId, PaymentRecord>, gatewayPaymentId: PaymentId, key: string) {
    forall r :: r in records ==> records[r].gatewayPaymentId != gatewayPaymentId && records[r].idempotencyKey != key
  }

  datatype PayInput = PayInput(
    orderId: string, amount: int, key: string, recordId: RecordId, newPaymentId: PaymentId,
    outer: Outer, authInner: Inner, authLuck: Luck, captureInner: Inner, captureLuck: Luck)

  /** None stands for an error or null reaching the caller. */
  function Pay(w: World, x: PayInput): (World, Option<Result>) {
    if !x.outer.Runs? then (w, None)
    else
      var (g, auth) := Guarded(w.gateway, x.authInner, DoAuthorize(x.newPaymentId, x.amount, x.authLuck), "authorize_circuit_open", x.orderId);
      if auth.NullAnswer? then (w.(gateway := g), None)
      else
        var paymentId := if auth.result.paymentId.Some? then auth.result.paymentId.value else "";
        if !CanInsert(w.records, paymentId, x.key) then (w.(gateway := g), None)
        else
          var stored := World(g, w.records[x.recordId := PaymentRecord(paymentId, x.key, x.amount, auth.result.status, 0)]);
          if auth.result.success && auth.result.status == AUTHORIZED
          then CaptureStored(stored, x.recordId, paymentId, x.captureInner, x.captureLuck)
          else (stored, Some(auth.result))
  }

  function CaptureStored(w: World, recordId: RecordId, paymentId: PaymentId, inner: Inner, luck: Luck): (World, Option<Result>)
    requires recordId in w.records
  {
    var (g, answer) := Guarded(w.gateway, inner, DoCapture(paymentId, None, luck), "capture_circuit_open", paymentId);
    if answer.NullAnswer? then (w.(gateway := g), None)
    else (World(g, w.records[recordId := w.records[recordId].(status := answer.result.status)]), Some(answer.result))
  }

  datatype RefundInput = RefundInput(recordId: RecordId, amount: Option<int>, outer: Outer, inner: Inner, luck: Luck)

  function RefundRecord(w: World, x: RefundInput): (World, Option<Result>) {
    if x.recordId !in w.records || w.records[x.recordId].status != CAPTURED || !x.outer.Runs? then (w, None)
    else
      var r := w.records[x.recordId];
      var (g, answer) := Guarded(w.gateway, x.inner, DoRefund(r.gatewayPaymentId, x.amount, x.luck), "refund_circuit_open", r.gatewayPaymentId);
      if answer.NullAnswer? then (w.(gateway := g), None)
      else
        var updated := r.(status := answer.result.status, refundedAmount := OrElse(x.amount, r.amount));
        (World(g, w.records[x.recordId := updated]), Some(answer.result))
  }

  // ----- one operation, undisturbed

  ghost predicate Settled(s: PaymentStatus) {
    s in {CAPTURED, REFUNDED, PARTIALLY_REFUNDED}
  }

  ghost predicate Matches(g: Payments, r: PaymentRecord) {
    && r.gatewayPaymentId in g
    && var p := g[r.gatewayPaymentId];
    && p.status == r.status
    && p.amount == r.amount == p.captured
    && (r.status != CAPTURED ==> p.refunded == r.refundedAmount)
  }

  /** A payment that answers success has been captured in full and recorded. */
  lemma SuccessfulPayIsCaptured(w: World, x: PayInput)
    requires x.newPaymentId !in w.gateway && x.recordId !in w.records
    requires Pay(w, x).1.Some? && Pay(w, x).1.value.success
    ensures var after := Pay(w, x).0;
            && x.newPaymentId in after.gateway
            && after.gateway[x.newPaymentId] == Payment(CAPTURED, x.amount, x.amount, 0)
            && x.recordId in after.records
            && after.records[x.recordId] == PaymentRecord(x.newPaymentId, x.key, x.amount, CAPTURED, 0)
            && 0 < x.amount
  {
  }

  // ----- every way a payment can end, seen before the call

  predicate IsReserved(x: PayInput) {
    x.outer.Runs? && x.authInner.Through? && x.authLuck.Lucky?
  }

  /** The payment id that the record gets: the gateway's, none when the gateway
      declined, the order's id when the inner layer answered for it. */
  function StoredId(x: PayInput): PaymentId {
    if !x.authInner.Through? || x.authLuck.NetworkError? then x.orderId
    else if x.authLuck.Unlucky? then ""
    else x.newPaymentId
  }

  ghost predicate IsStored(w: World, x: PayInput) {
    && x.outer.Runs? && !x.authInner.AnswersNull?
    && forall r :: r in w.records ==>
         w.records[r].gatewayPaymentId != StoredId(x) && w.records[r].idempotencyKey != x.key
  }

  ghost predicate IsCaptured(w: World, x: PayInput) {
    IsReserved(x) && IsStored(w, x) && x.captureInner.Through? && x.captureLuck.Lucky? && x.amount > 0
  }

  /** The gateway holds a new payment exactly when the authorization got through,
      and its money exactly when the capture did as well. */
  lemma PayAtGateway(w: World, x: PayInput)
    requires x.newPaymentId !in w.gateway
    ensures var g := Pay(w, x).0.gateway;
            if !IsReserved(x) then g == w.gateway
            else
              && x.newPaymentId in g && g - {x.newPaymentId} == w.gateway
              && g[x.newPaymentId] == if IsCaptured(w, x) then Payment(CAPTURED, x.amount, x.amount, 0)
                                      else Payment(AUTHORIZED, x.amount, 0, 0)
  {
  }

  /** There is a new record exactly when the authorization was answered and no
      other record has its payment or its key; it reads AUTHORIZED when the capture
      was answered null, CAPTURED when it went through, FAILED otherwise. */
  lemma PayInRecords(w: World, x: PayInput)
    requires x.newPaymentId !in w.gateway && x.recordId !in w.records
    ensures var records := Pay(w, x).0.records;
            if !IsStored(w, x) then records == w.records
            else
              && x.recordId in records && records - {x.recordId} == w.records
              && var status := if IsCaptured(w, x) then CAPTURED
                               else if IsReserved(x) && x.captureInner.AnswersNull? then AUTHORIZED
                               else FAILED;
              records[x.recordId] == PaymentRecord(StoredId(x), x.key, x.amount, status, 0)
  {
  }

  /** The caller gets an answer exactly when there is a record that nothing is
      still to be written to; it says success exactly when the money was captured,
      and otherwise why not. */
  lemma PayAnswers(w: World, x: PayInput)
    requires x.newPaymentId !in w.gateway && x.recordId !in w.records
    ensures var answer := Pay(w, x).1;
            && (answer.Some? <==> IsStored(w, x) && !(IsReserved(x) && x.captureInner.AnswersNull?))
            && (answer.Some? && IsCaptured(w, x) ==> answer.value == Result(true, CAPTURED, Some(x.newPaymentId), ""))
            && (answer.Some? && !IsCaptured(w, x) ==> !answer.value.success && answer.value.status == FAILED)
            && (answer.Some? && !IsReserved(x) ==>
                  answer.value.errorCode == if x.authInner.Through? && x.authLuck.Unlucky? then "card_declined"
                                            else "authorize_circuit_open")
            && (answer.Some? && IsReserved(x) && !IsCaptured(w, x) ==>
                  answer.value.errorCode == if x.captureInner.FallsBack? || x.captureLuck.NetworkError? then "capture_circuit_open"
                                            else if x.amount <= 0 then "invalid_amount"
                                            else "capture_failed")
  {
  }

  /** What makes the refund of a matching record fail, seen before the call: the
      inner layer answers for the gateway, the gateway is unlucky, or the amount
      due is not positive or more than was captured. */
  predicate Refused(x: RefundInput, r: PaymentRecord) {
    var due := OrElse(x.amount, r.amount);
    && x.outer.Runs? && !x.inner.AnswersNull?
    && (x.inner.FallsBack? || !x.luck.Lucky? || due <= 0 || due > r.amount)
  }

  /** The refund of a captured record leaves it agreeing with the gateway exactly
      when it is not refused.  When it is, the record reads FAILED with a refunded
      amount, while the gateway still holds the whole payment as captured. */
  lemma RefundAgreesIff(w: World, x: RefundInput)
    requires AllOk(w.gateway) && x.recordId in w.records
    requires w.records[x.recordId].status == CAPTURED && Matches(w.gateway, w.records[x.recordId])
    ensures var (before, after) := (w.records[x.recordId], RefundRecord(w, x).0);
            && x.recordId in after.records && before.gatewayPaymentId in after.gateway
            && (after.gateway[before.gatewayPaymentId].status == after.records[x.recordId].status <==> !Refused(x, before))
            && (Refused(x, before) ==>
                  && after.records[x.recordId] == before.(status := FAILED, refundedAmount := OrElse(x.amount, before.amount))
                  && after.gateway == w.gateway
                  && after.gateway[before.gatewayPaymentId] == Payment(CAPTURED, before.amount, before.amount, 0))
  {
    assert PaymentOk(w.gateway[w.records[x.recordId].gatewayPaymentId]);
  }

  /** A refund that goes through leaves gateway and record with the amount that
      was asked for; of no amount, or zero, with everything; and both read
      PARTIALLY_REFUNDED exactly when something is left. */
  lemma RefundsAsAsked(w: World, x: RefundInput)
    requires AllOk(w.gateway) && x.recordId in w.records && x.outer.Runs? && x.inner.Through? && x.luck.Lucky?
    requires w.records[x.recordId].status == CAPTURED && Matches(w.gateway, w.records[x.recordId])
    ensures var (r, (after, answer)) := (w.records[x.recordId], RefundRecord(w, x));
            && x.recordId in after.records && after.records - {x.recordId} == w.records - {x.recordId}
            && r.gatewayPaymentId in after.gateway && after.gateway - {r.gatewayPaymentId} == w.gateway - {r.gatewayPaymentId}
            && (forall a :: x.amount == Some(a) && 0 < a <= r.amount ==>
                  var status := if a < r.amount then PARTIALLY_REFUNDED else REFUNDED;
                  && after.records[x.recordId] == r.(status := status, refundedAmount := a)
                  && after.gateway[r.gatewayPaymentId] == Payment(status, r.amount, r.amount, a)
                  && answer == Some(Result(true, status, Some(r.gatewayPaymentId), "")))
            && (x.amount in {None, Some(0)} ==>
                  && after.records[x.recordId] == r.(status := REFUNDED, refundedAmount := r.amount)
                  && after.gateway[r.gatewayPaymentId] == Payment(REFUNDED, r.amount, r.amount, r.amount)
                  && answer == Some(Result(true, REFUNDED, Some(r.gatewayPaymentId), "")))
  {
    assert PaymentOk(w.gateway[w.records[x.recordId].gatewayPaymentId]);
  }

  /** Every other way a refund can end: the record is not CAPTURED or unknown, a
      layer answers null, or the call is refused.  Only a refusal writes: the record
      then reads FAILED with the amount that was asked for. */
  lemma RefundsOtherwise(w: World, x: RefundInput)
    requires x.recordId in w.records ==>
               !(x.outer.Runs? && x.inner.Through? && x.luck.Lucky?) || w.records[x.recordId].status != CAPTURED
    ensures var (after, answer) := RefundRecord(w, x);
            && after.gateway == w.gateway
            && (x.recordId !in w.records || w.records[x.recordId].status != CAPTURED || !x.outer.Runs? || x.inner.AnswersNull? ==>
                  after == w && answer.None?)
            && (answer.Some? ==>
                  && !answer.value.success && answer.value.status == FAILED
                  && x.recordId in after.records && after.records - {x.recordId} == w.records - {x.recordId}
                  && (x.inner.FallsBack? || x.luck.NetworkError? ==> answer.value.errorCode == "refund_circuit_open")
                  && var r := w.records[x.recordId];
                  after.records[x.recordId] == r.(status := FAILED, refundedAmount :=
                    match x.amount case None => r.amount case Some(a) => if a == 0 then r.amount else a))
            && (x.recordId in w.records && w.records[x.recordId].status == CAPTURED && x.outer.Runs? && !x.inner.AnswersNull? ==>
                  answer.Some?)
  {
  }

  // ----- the service

  class PaymentsService {
    const gateway: MockPaymentGateway
    var records: map<RecordId, PaymentRecord>

    ghost function State(): World
      reads this, gateway
    {
      World(gateway.payments, records)
    }

    constructor (gateway: MockPaymentGateway)
      ensures this.gateway == gateway && records == map[]
    {
      this.gateway := gateway;
      records := map[];
    }

    method ProcessPayment(x: PayInput) returns (answer: Option<Result>)
      modifies this, gateway
      ensures (State(), answer) == Pay(old(State()), x)
    {
      if !x.outer.Runs? {
        return None;
      }
      var auth := AuthorizeGuarded(x);
      if auth.NullAnswer? {
        return None;
      }
      var paymentId := if auth.result.paymentId.Some? then auth.result.paymentId.value else "";
      if !CanInsert(records, paymentId, x.key) {
        return None;
      }
      records := records[x.recordId := PaymentRecord(paymentId, x.key, x.amount, auth.result.status, 0)];
      if auth.result.success && auth.result.status == AUTHORIZED {
        answer := CaptureAuthorizedPayment(x.recordId, paymentId, x.captureInner, x.captureLuck);
      } else {
        answer := Some(auth.result);
      }
    }

    method AuthorizeGuarded(x: PayInput) returns (answer: Wrapped)
      modifies gateway
      ensures (gateway.payments, answer)
              == Guarded(old(gateway.payments), x.authInner, DoAuthorize(x.newPaymentId, x.amount, x.authLuck),
                         "authorize_circuit_open", x.orderId)
    {
      var reply := Threw;
      if x.authInner.Through? {
        reply := gateway.AuthorizePayment(x.newPaymentId, x.amount, x.authLuck);
      }
      answer := Wrap(x.authInner, reply, "authorize_circuit_open", x.orderId);
    }

    method CaptureAuthorizedPayment(recordId: RecordId, paymentId: PaymentId, inner: Inner, luck: Luck)
      returns (answer: Option<Result>)
      requires recordId in records
      modifies this, gateway
      ensures (State(), answer) == CaptureStored(old(State()), recordId, paymentId, inner, luck)
    {
      var reply := Threw;
      if inner.Through? {
        reply := gateway.CapturePayment(paymentId, None, luck);
      }
      var wrapped := Wrap(inner, reply, "capture_circuit_open", paymentId);
      if wrapped.NullAnswer? {
        return None;
      }
      records := records[recordId := records[recordId].(status := wrapped.result.status)];
      answer := Some(wrapped.result);
    }

    method RefundPayment(x: RefundInput) returns (answer: Option<Result>)
      modifies this, gateway
      ensures (State(), answer) == RefundRecord(old(State()), x)
    {
      if x.recordId !in records || records[x.recordId].status != CAPTURED || !x.outer.Runs? {
        return None;
      }
      var r := records[x.recordId];
      var reply := Threw;
      if x.inner.Through? {
        reply := gateway.RefundPayment(r.gatewayPaymentId, x.amount, x.luck);
      }
      var wrapped := Wrap(x.inner, reply, "refund_circuit_open", r.gatewayPaymentId);
      if wrapped.NullAnswer? {
        return None;
      }
      records := records[x.recordId := r.(status := wrapped.result.status, refundedAmount := OrElse(x.amount, r.amount))];
      answer := Some(wrapped.result);
    }
  }
}
