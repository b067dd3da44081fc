/**
 The payment gateway: a table of payments, changed by authorize, capture, refund
 and void.  Any call may fail at random; a network error fails it before the
 table is even read.  Amounts are whole cents.
 */
module PaymentGateway {
  import opened Wrappers

  type PaymentId = string

  datatype PaymentStatus = PENDING | AUTHORIZED | CAPTURED | FAILED | REFUNDED | PARTIALLY_REFUNDED | VOIDED

  datatype Payment = Payment(status: PaymentStatus, amount: int, captured: int, refunded: int)

  type Payments = map<PaymentId, Payment>

  /** The random part of a call. */
  datatype Luck = NetworkError | Unlucky | Lucky

  datatype Result = Result(success: bool, status: PaymentStatus, paymentId: Option<PaymentId>, errorCode: string)

  datatype Reply = Threw | Answer(result: Result)

  function Success(id: PaymentId, status: PaymentStatus): Reply {
    Answer(Result(true, status, Some(id), ""))
  }

  function Failure(code: string): Reply {
    Answer(Result(false, FAILED, None, code))
  }

  /** The default applies to a missing amount and to zero. */
  function OrElse(amount: Option<int>, default: int): int {
    if amount.Some? && amount.value != 0 then amount.value else default
  }

  function Authorize(g: Payments, newId: PaymentId, amount: int, luck: Luck): (Payments, Reply) {
    match luck
    case NetworkError => (g, Threw)
    case Unlucky => (g, Failure("card_declined"))
    case Lucky => (g[newId := Payment(AUTHORIZED, amount, 0, 0)], Success(newId, AUTHORIZED))
  }

  function Capture(g: Payments, id: PaymentId, amount: Option<int>, luck: Luck): (Payments, Reply) {
    if luck.NetworkError? then (g, Threw)
    else if id !in g then (g, Failure("payment_not_found"))
    else if g[id].status != AUTHORIZED then (g, Failure("invalid_payment_state"))
    else
      var capture := OrElse(amount, g[id].amount);
      if capture <= 0 || capture > g[id].amount then (g, Failure("invalid_amount"))
      else if luck.Unlucky? then (g, Failure("capture_failed"))
      else (g[id := g[id].(status := CAPTURED, captured := capture)], Success(id, CAPTURED))
  }

  function Refund(g: Payments, id: PaymentId, amount: Option<int>, luck: Luck): (Payments, Reply) {
    if luck.NetworkError? then (g, Threw)
    else if id !in g then (g, Failure("payment_not_found"))
    else if g[id].status != CAPTURED then (g, Failure("invalid_payment_state"))
    else
      var refund := OrElse(amount, g[id].captured);
      if refund <= 0 || refund > g[id].captured then (g, Failure("invalid_amount"))
      else if luck.Unlucky? then (g, Failure("refund_failed"))
      else
        var total := g[id].refunded + refund;
        var status := if total >= g[id].captured then REFUNDED else PARTIALLY_REFUNDED;
        (g[id := g[id].(status := status, refunded := total)], Success(id, status))
  }

  function Void(g: Payments, id: PaymentId, luck: Luck): (Payments, Reply) {
    if luck.NetworkError? then (g, Threw)
    else if id !in g then (g, Failure("payment_not_found"))
    else if g[id].status != AUTHORIZED then (g, Failure("invalid_payment_state"))
    else if luck.Unlucky? then (g, Failure("void_failed"))
    else (g[id := g[id].(status := VOIDED)], Success(id, VOIDED))
  }

  // ----- runs

  datatype Call =
    | DoAuthorize(newId: PaymentId, total: int, luck: Luck)
    | DoCapture(id: PaymentId, amount: Option<int>, luck: Luck)
    | DoRefund(id: PaymentId, amount: Option<int>, luck: Luck)
    | DoVoid(id: PaymentId, luck: Luck)

  function Apply(g: Payments, call: Call): (Payments, Reply) {
    match call
    case DoAuthorize(newId, total, luck) => Authorize(g, newId, total, luck)
    case DoCapture(id, amount, luck) => Capture(g, id, amount, luck)
    case DoRefund(id, amount, luck) => Refund(g, id, amount, luck)
    case DoVoid(id, luck) => Void(g, id, luck)
  }

  function After(run: seq<Call>): Payments {
    if run == [] then map[] else Apply(After(run[..|run| - 1]), run[|run| - 1]).0
  }

  /** Generated payment ids are fresh. */
  ghost predicate FreshIds(run: seq<Call>) {
    run == [] ||
    var (front, call) := (run[..|run| - 1], run[|run| - 1]);
    FreshIds(front) && (call.DoAuthorize? ==> call.newId !in After(front))
  }

  /** Amounts stay ordered, and the status says which of them are equal. */
  ghost predicate PaymentOk(p: Payment) {
    && 0 <= p.refunded <= p.captured
    && (p.captured == 0 || p.captured <= p.amount)
    && p.status in {AUTHORIZED, VOIDED, CAPTURED, REFUNDED, PARTIALLY_REFUNDED}
    && (p.status in {AUTHORIZED, VOIDED} <==> p.captured == 0)
    && (p.status == CAPTURED <==> 0 == p.refunded < p.captured)
    && (p.status == REFUNDED <==> 0 < p.refunded == p.captured)
    && (p.status == PARTIALLY_REFUNDED <==> 0 < p.refunded < p.captured)
  }

  ghost predicate AllOk(g: Payments) {
    forall id :: id in g ==> PaymentOk(g[id])
  }

  lemma ApplyKeepsOk(g: Payments, call: Call)
    requires AllOk(g)
    ensures AllOk(Apply(g, call).0)
  {
  }

  lemma {:induction false} EveryPaymentOk(run: seq<Call>)
    ensures AllOk(After(run))
  {
    if run != [] {
      EveryPaymentOk(run[..|run| - 1]);
      ApplyKeepsOk(After(run[..|run| - 1]), run[|run| - 1]);
    }
  }

  /** A payment's amount is the one it was authorized for, by one call. */
  lemma {:induction false} AuthorizedBy(run: seq<Call>, id: PaymentId) returns (i: nat)
    requires FreshIds(run) && id in After(run)
    ensures i < |run| && run[i] == DoAuthorize(id, After(run)[id].amount, Lucky)
    ensures forall j :: 0 <= j < |run| && run[j].DoAuthorize? && run[j].newId == id && run[j].luck.Lucky? ==> j == i
  {
    var (front, call) := (run[..|run| - 1], run[|run| - 1]);
    if id in After(front) {
      i := AuthorizedBy(front, id);
    } else {
      i := |front|;
      NeverAuthorized(front, id);
    }
  }

  lemma {:induction false} NeverAuthorized(run: seq<Call>, id: PaymentId)
    requires id !in After(run)
    ensures forall j :: 0 <= j < |run| ==> !(run[j].DoAuthorize? && run[j].newId == id && run[j].luck.Lucky?)
  {
    if run != [] {
      NeverAuthorized(run[..|run| - 1], id);
    }
  }

  /** captured <= amount holds for a payment exactly when the call that authorized
      it named a non-negative amount: authorize accepts any amount, capture does
      not. */
  lemma CapturedWithinAmountIff(run: seq<Call>, id: PaymentId) returns (i: nat)
    requires FreshIds(run) && id in After(run)
    ensures i < |run| && run[i].DoAuthorize? && run[i].newId == id && run[i].luck.Lucky?
    ensures After(run)[id].captured <= After(run)[id].amount <==> run[i].total >= 0
  {
    i := AuthorizedBy(run, id);
    EveryPaymentOk(run);
    assert PaymentOk(After(run)[id]);
  }

  lemma NegativeAuthorizationBreaksBound()
    ensures var g := After([DoAuthorize("p", -1, Lucky)]);
            "p" in g && g["p"].captured > g["p"].amount
  {
    assert [DoAuthorize("p", -1, Lucky)][..0] == [];
  }

  // ----- conservation

  function Net(p: Payment): int {
    p.captured - p.refunded
  }

  ghost function Total(g: Payments): int {
    if g == map[] then 0
    else
      var id :| id in g;
      Net(g[id]) + Total(g - {id})
  }

  lemma {:induction false} TotalWithout(g: Payments, id: PaymentId)
    requires id in g
    ensures Total(g) == Net(g[id]) + Total(g - {id})
    decreases |g|
  {
    var first :| first in g && Total(g) == Net(g[first]) + Total(g - {first});
    if first != id {
      TotalWithout(g - {first}, id);
      TotalWithout(g - {id}, first);
      assert g - {first} - {id} == g - {id} - {first};
    }
  }

  lemma TotalAfterUpdate(g: Payments, id: PaymentId, p: Payment)
    ensures Total(g[id := p]) == Total(g) - (if id in g then Net(g[id]) else 0) + Net(p)
  {
    var after := g[id := p];
    TotalWithout(after, id);
    assert after - {id} == g - {id};
    if id in g {
      TotalWithout(g, id);
    } else {
      assert g - {id} == g;
    }
  }

  /** Money a call moved, as its caller sees it: what a successful capture took
      or a successful refund gave back, in the amount asked for, or all there was
      when no amount was named. */
  function Moved(g: Payments, call: Call): int {
    var reply := Apply(g, call).1;
    if reply.Threw? || !reply.result.success then 0
    else match call
      case DoCapture(id, Some(a), _) => if id !in g then 0 else if a == 0 then g[id].amount else a
      case DoCapture(id, None, _) => if id in g then g[id].amount else 0
      case DoRefund(id, Some(a), _) => if id !in g then 0 else if a == 0 then -g[id].captured else -a
      case DoRefund(id, None, _) => if id in g then -g[id].captured else 0
      case _ => 0
  }

  function Flow(run: seq<Call>): int {
    if run == [] then 0 else Flow(run[..|run| - 1]) + Moved(After(run[..|run| - 1]), run[|run| - 1])
  }

  lemma TotalAfterCall(g: Payments, call: Call)
    requires AllOk(g) && (call.DoAuthorize? ==> call.newId !in g)
    ensures Total(Apply(g, call).0) == Total(g) + Moved(g, call)
  {
    if call.DoAuthorize? {
      TotalAfterUpdate(g, call.newId, Payment(AUTHORIZED, call.total, 0, 0));
    } else {
      MovedIsNet(g, call);
      if call.id in g {
        TotalAfterUpdate(g, call.id, Apply(g, call).0[call.id]);
      }
    }
  }

  /** A call for one payment moves what that payment holds more afterwards. */
  lemma MovedIsNet(g: Payments, call: Call)
    requires AllOk(g) && !call.DoAuthorize?
    ensures call.id !in g ==> Apply(g, call).0 == g && Moved(g, call) == 0
    ensures call.id in g ==>
              && call.id in Apply(g, call).0 && Apply(g, call).0 == g[call.id := Apply(g, call).0[call.id]]
              && Net(Apply(g, call).0[call.id]) == Net(g[call.id]) + Moved(g, call)
  {
  }

  /** Over any run the money the payments hold, captured minus refunded, is the
      sum of the successful captures minus the successful refunds. */
  lemma {:induction false} Conservation(run: seq<Call>)
    requires FreshIds(run)
    ensures Total(After(run)) == Flow(run)
  {
    if run != [] {
      Conservation(run[..|run| - 1]);
      EveryPaymentOk(run[..|run| - 1]);
      TotalAfterCall(After(run[..|run| - 1]), run[|run| - 1]);
    }
  }

  /** A payment is refunded at most once: whatever follows an accepted refund,
      full or partial, the payment keeps its amounts and status. */
  lemma RefundIsFinal(g: Payments, call: Call, id: PaymentId)
    requires id in g && g[id].status in {REFUNDED, PARTIALLY_REFUNDED, VOIDED}
    requires call.DoAuthorize? ==> call.newId !in g
    ensures id in Apply(g, call).0 && Apply(g, call).0[id] == g[id]
  {
  }

  // ----- what each call does

  predicate Accepted(reply: Reply) {
    reply.Answer? && reply.result.success
  }

  /** A refusal names its reason and nothing else; only a network error throws. */
  ghost predicate RefusedFor(reply: Reply, luck: Luck, reason: string) {
    if luck.NetworkError? then reply.Threw?
    else reply.Answer? && reply.result == Result(false, FAILED, None, reason)
  }

  /** Only a lucky authorization goes through; it reserves the amount and takes
      none of it. */
  lemma AuthorizeMeans(g: Payments, id: PaymentId, amount: int, luck: Luck)
    ensures var (after, reply) := Apply(g, DoAuthorize(id, amount, luck));
            if luck.Lucky? then
              && reply == Answer(Result(true, AUTHORIZED, Some(id), ""))
              && after.Keys == g.Keys + {id} && after - {id} == g - {id}
              && after[id] == Payment(AUTHORIZED, amount, 0, 0)
            else after == g && RefusedFor(reply, luck, "card_declined")
  {
  }

  /** Whatever is asked for one payment leaves all others alone, an unknown payment
      unknown, and is refused in the wrong state. */
  lemma CallsNeedTheirState(g: Payments, call: Call)
    requires !call.DoAuthorize?
    ensures var (after, reply) := Apply(g, call);
            var needed := if call.DoRefund? then CAPTURED else AUTHORIZED;
            && after.Keys == g.Keys && after - {call.id} == g - {call.id}
            && (call.id !in g ==> after == g && RefusedFor(reply, call.luck, "payment_not_found"))
            && (call.id in g && g[call.id].status != needed ==> after == g && RefusedFor(reply, call.luck, "invalid_payment_state"))
            && (Accepted(reply) ==> call.luck.Lucky? && reply.result.paymentId == Some(call.id))
            && (Accepted(reply) && call.id in after ==> reply.result.status == after[call.id].status)
            && (!Accepted(reply) ==> after == g)
  {
  }

  /** A capture of a named amount takes that amount, of none or zero all that was
      authorized. */
  lemma CapturesWhatIsAsked(g: Payments, id: PaymentId, amount: Option<int>, luck: Luck)
    requires id in g && g[id].status == AUTHORIZED
    ensures var (after, reply) := Apply(g, DoCapture(id, amount, luck));
            var p := g[id];
            && id in after
            && (forall a :: amount == Some(a) && 0 < a <= p.amount && luck.Lucky? ==>
                  Accepted(reply) && after[id] == p.(status := CAPTURED, captured := a))
            && (amount in {None, Some(0)} && 0 < p.amount && luck.Lucky? ==>
                  Accepted(reply) && after[id] == p.(status := CAPTURED, captured := p.amount))
            && (forall a :: amount == Some(a) && (a < 0 || p.amount < a) && a != 0 ==> RefusedFor(reply, luck, "invalid_amount"))
            && (amount in {None, Some(0)} && p.amount <= 0 ==> RefusedFor(reply, luck, "invalid_amount"))
            && (forall a :: amount == Some(a) && 0 < a <= p.amount && !luck.Lucky? ==> RefusedFor(reply, luck, "capture_failed"))
            && (amount in {None, Some(0)} && 0 < p.amount && !luck.Lucky? ==> RefusedFor(reply, luck, "capture_failed"))
  {
  }

  /** A refund of a named amount gives back that amount, of none or zero all that
      was captured; the payment is then partially refunded exactly when something
      is left. */
  lemma RefundsWhatIsAsked(g: Payments, id: PaymentId, amount: Option<int>, luck: Luck)
    requires id in g && g[id].status == CAPTURED && PaymentOk(g[id])
    ensures var (after, reply) := Apply(g, DoRefund(id, amount, luck));
            var p := g[id];
            && id in after
            && (forall a :: amount == Some(a) && 0 < a <= p.captured && luck.Lucky? ==>
                  && Accepted(reply) && after[id].refunded == a
                  && (after[id].status == PARTIALLY_REFUNDED <==> a < p.captured)
                  && (after[id].status == REFUNDED <==> a == p.captured)
                  && after[id].amount == p.amount && after[id].captured == p.captured)
            && (amount in {None, Some(0)} && luck.Lucky? ==>
                  Accepted(reply) && after[id] == Payment(REFUNDED, p.amount, p.captured, p.captured))
            && (forall a :: amount == Some(a) && (a < 0 || p.captured < a) && a != 0 ==> RefusedFor(reply, luck, "invalid_amount"))
            && (forall a :: amount == Some(a) && 0 <= a <= p.captured && !luck.Lucky? ==> RefusedFor(reply, luck, "refund_failed"))
            && (amount == None && !luck.Lucky? ==> RefusedFor(reply, luck, "refund_failed"))
  {
  }

  lemma VoidMeans(g: Payments, id: PaymentId, luck: Luck)
    requires id in g && g[id].status == AUTHORIZED
    ensures var (after, reply) := Apply(g, DoVoid(id, luck));
            && id in after
            && (if luck.Lucky? then Accepted(reply) && after[id] == g[id].(status := VOIDED)
                else RefusedFor(reply, luck, "void_failed"))
  {
  }

  /** What was captured is what the one accepted capture asked for, or everything. */
  lemma {:induction false} CapturedBy(run: seq<Call>, id: PaymentId) returns (i: nat)
    requires FreshIds(run) && id in After(run) && After(run)[id].captured != 0
    ensures i < |run| && run[i].DoCapture? && run[i].id == id && Accepted(Apply(After(run[..i]), run[i]).1)
    ensures forall a :: run[i].amount == Some(a) && a != 0 ==> After(run)[id].captured == a
    ensures run[i].amount in {None, Some(0)} ==> After(run)[id].captured == After(run)[id].amount
  {
    var (front, call) := (run[..|run| - 1], run[|run| - 1]);
    EveryPaymentOk(front);
    if id in After(front) && After(front)[id].captured != 0 {
      i := CapturedBy(front, id);
      assert run[..i] == front[..i];
    } else {
      i := |front|;
      assert run[..i] == front;
    }
  }

  /** What was refunded is what the one accepted refund asked for, or everything
      that was captured. */
  lemma {:induction false} RefundedBy(run: seq<Call>, id: PaymentId) returns (i: nat)
    requires FreshIds(run) && id in After(run) && After(run)[id].refunded != 0
    ensures i < |run| && run[i].DoRefund? && run[i].id == id && Accepted(Apply(After(run[..i]), run[i]).1)
    ensures forall a :: run[i].amount == Some(a) && a != 0 ==> After(run)[id].refunded == a
    ensures run[i].amount in {None, Some(0)} ==> After(run)[id].refunded == After(run)[id].captured
  {
    var (front, call) := (run[..|run| - 1], run[|run| - 1]);
    EveryPaymentOk(front);
    if id in After(front) {
      assert PaymentOk(After(front)[id]);
    }
    if id in After(front) && After(front)[id].refunded != 0 {
      i := RefundedBy(front, id);
      assert run[..i] == front[..i];
    } else {
      i := |front|;
      assert run[..i] == front;
    }
  }

  // ----- the class

  class MockPaymentGateway {
    var payments: Payments

    constructor ()
      ensures payments == map[]
    {
      payments := map[];
    }

    method AuthorizePayment(newId: PaymentId, amount: int, luck: Luck) returns (reply: Reply)
      modifies this
      ensures (payments, reply) == Authorize(old(payments), newId, amount, luck)
    {
      if luck.NetworkError? {
        return Threw;
      }
      reply := if luck.Unlucky? then Failure("card_declined") else Success(newId, AUTHORIZED);
      if reply.result.success {
        payments := payments[newId := Payment(AUTHORIZED, amount, 0, 0)];
      }
    }

    method CapturePayment(id: PaymentId, amount: Option<int>, luck: Luck) returns (reply: Reply)
      modifies this
      ensures (payments, reply) == Capture(old(payments), id, amount, luck)
    {
      if luck.NetworkError? {
        return Threw;
      }
      if id !in payments {
        return Failure("payment_not_found");
      }
      if payments[id].status != AUTHORIZED {
        return Failure("invalid_payment_state");
      }
      var capture := OrElse(amount, payments[id].amount);
      if capture <= 0 || capture > payments[id].amount {
        return Failure("invalid_amount");
      }
      if luck.Unlucky? {
        return Failure("capture_failed");
      }
      payments := payments[id := payments[id].(status := CAPTURED)];
      payments := payments[id := payments[id].(captured := capture)];
      assert payments == old(payments)[id := payments[id]];
      reply := Success(id, CAPTURED);
    }

    method RefundPayment(id: PaymentId, amount: Option<int>, luck: Luck) returns (reply: Reply)
      modifies this
      ensures (payments, reply) == Refund(old(payments), id, amount, luck)
    {
      if luck.NetworkError? {
        return Threw;
      }
      if id !in payments {
        return Failure("payment_not_found");
      }
      if payments[id].status != CAPTURED {
        return Failure("invalid_payment_state");
      }
      var refund := OrElse(amount, payments[id].captured);
      if refund <= 0 || refund > payments[id].captured {
        return Failure("invalid_amount");
      }
      if luck.Unlucky? {
        return Failure("refund_failed");
      }
      payments := payments[id := payments[id].(refunded := payments[id].refunded + refund)];
      var p := payments[id];
      if p.refunded >= p.captured {
        payments := payments[id := p.(status := REFUNDED)];
      } else {
        payments := payments[id := p.(status := PARTIALLY_REFUNDED)];
      }
      assert payments == old(payments)[id := payments[id]];
      reply := Success(id, payments[id].status);
    }

    method VoidPayment(id: PaymentId, luck: Luck) returns (reply: Reply)
      modifies this
      ensures (payments, reply) == Void(old(payments), id, luck)
    {
      if luck.NetworkError? {
        return Threw;
      }
      if id !in payments {
        return Failure("payment_not_found");
      }
      if payments[id].status != AUTHORIZED {
        return Failure("invalid_payment_state");
      }
      if luck.Unlucky? {
        return Failure("void_failed");
      }
      payments := payments[id := payments[id].(status := VOIDED)];
      reply := Success(id, VOIDED);
    }
  }
}
