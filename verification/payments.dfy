/**
 * `OrderService.paystackWebhook` and `completeOrder`: the payment gateway
 * reports a charge, the service checks where the call comes from and that
 * it is signed, and then marks the transaction completed and its order
 * paid. The HMAC over the payload and the allow-list of gateway addresses
 * are parameters; the notification e-mails are left out.
 */
module Payments {
  import opened Common
  import opened Entities
  import opened Tables
  import opened Storage

  /** The parts of the event body the service reads: `event`,
      `data.reference` and `data.amount` (in minor units, as sent). */
  datatype Payload = Payload(event: string, reference: string, amount: Money)

  /** The events that complete an order; every other event is ignored. */
  predicate IsPaymentEvent(event: string)
  {
    event == "transfer.success" || event == "charge.success"
  }

  function TxnByRef(ref: string): Transaction -> bool
  {
    (t: Transaction) => t.ref == ref
  }

  function TxnId(id: Id): Transaction -> bool
  {
    (t: Transaction) => t.id == id
  }

  function MarkCompleted(t: Transaction): Transaction
  {
    t.(status := Completed)
  }

  function LinkOfTransaction(tid: Id): OrderTransaction -> bool
  {
    (l: OrderTransaction) => l.transaction == tid
  }

  /** The transaction a payload names: the first row with its reference. */
  function PaidTransaction(s: Store, p: Payload): Option<Transaction>
  {
    Find(s.transactions, TxnByRef(p.reference))
  }

  /** The order linked to transaction `tid`, when a link exists. */
  function LinkedOrder(s: Store, tid: Id): Option<Id>
  {
    match Find(s.orderTransactions, LinkOfTransaction(tid))
    case None => None
    case Some(l) => Some(l.order)
  }

  /** The two writes of a completion, as far as they get: the transaction
      is marked completed, and, when it is linked, its order is marked
      paid. */
  function CompletionWrites(s: Store, t: Transaction): (u: Store)
    ensures u.transactions == Update(s.transactions, TxnId(t.id), MarkCompleted)
    ensures LinkedOrder(s, t.id).None? ==> u.orders == s.orders
    ensures LinkedOrder(s, t.id).Some? ==>
      u.orders == SetOrderStatus(s, LinkedOrder(s, t.id).value, PaymentCompleted).orders
    ensures u.orderTransactions == s.orderTransactions && u.profiles == s.profiles && u.carts == s.carts
  {
    var marked := s.(transactions := Update(s.transactions, TxnId(t.id), MarkCompleted));
    match LinkedOrder(s, t.id)
    case None => marked
    case Some(order) => marked.(orders := SetOrderStatus(s, order, PaymentCompleted).orders)
  }

  /** `completeOrder(payload)`. The reply of an event it ignores is
      `undefined`, here `None`. A missing order link makes
      `orderTransaction.order.id` throw after the transaction was marked,
      and a buyer without a profile makes the notification throw after both
      writes. */
  function CompleteOrder(s: Store, p: Payload): (r: Step<Option<string>>)
    ensures PaidTransaction(s, p).None? ==> r == Reject(s, NotFound, "Transaction not found")
    ensures PaidTransaction(s, p).Some? && !IsPaymentEvent(p.event) ==> r == Step(s, Ok(None))
    ensures PaidTransaction(s, p).Some? && IsPaymentEvent(p.event) && p.amount != PaidTransaction(s, p).value.amount ==>
      r == Reject(s, BadRequest, "Amount does not match transaction amount")
    ensures PaidTransaction(s, p).Some? && IsPaymentEvent(p.event) && p.amount == PaidTransaction(s, p).value.amount ==>
      r.store == CompletionWrites(s, PaidTransaction(s, p).value)
    ensures r.result.Ok? && r.result.value.Some? <==>
      PaidTransaction(s, p).Some? && IsPaymentEvent(p.event) && p.amount == PaidTransaction(s, p).value.amount &&
      LinkedOrder(s, PaidTransaction(s, p).value.id).Some? && ProfileOf(s, PaidTransaction(s, p).value.user).Some?
  {
    match PaidTransaction(s, p)
    case None => Reject(s, NotFound, "Transaction not found")
    case Some(t) =>
      if !IsPaymentEvent(p.event) then Step(s, Ok(None))
      else if p.amount != t.amount then Reject(s, BadRequest, "Amount does not match transaction amount")
      else
        var u := CompletionWrites(s, t);
        if LinkedOrder(s, t.id).None? then Step(u, Fail(Internal, "Cannot read properties of null (reading 'order')"))
        else if ProfileOf(s, t.user).None? then Step(u, Fail(Internal, "Cannot read properties of null (reading 'user')"))
        else Step(u, Ok(Some("Order payment completed")))
  }

  /** `paystackWebhook(signature, clientIP, payload)`. The completion is
      started but neither awaited nor caught: whatever it does to the store
      happens and the reply is `OK` regardless. A completion that throws
      leaves a rejected promise nobody handles (see
      `LeavesUnhandledRejection`). */
  function Webhook(s: Store, allowedIps: seq<string>, hmac: Payload -> string, signature: string,
                   clientIp: string, p: Payload): (r: Step<string>)
    ensures clientIp !in allowedIps ==> r == Reject(s, Forbidden, "Forbidden")
    ensures clientIp in allowedIps && hmac(p) != signature ==> r == Reject(s, BadRequest, "Not allowed")
    ensures r.result.Ok? <==> clientIp in allowedIps && hmac(p) == signature
    ensures r.result.Ok? ==> r.result.value == "OK" && r.store == CompleteOrder(s, p).store
  {
    if clientIp !in allowedIps then Reject(s, Forbidden, "Forbidden")
    else if hmac(p) == signature then Step(CompleteOrder(s, p).store, Ok("OK"))
    else Reject(s, BadRequest, "Not allowed")
  }

  /** The webhook acknowledged the call, and the completion it started
      rejected with no handler attached. The application installs no
      `unhandledRejection` listener, so under Node's default since version
      15 this ends the process after the reply was sent. */
  predicate LeavesUnhandledRejection(s: Store, allowedIps: seq<string>, hmac: Payload -> string, signature: string,
                                     clientIp: string, p: Payload)
  {
    Webhook(s, allowedIps, hmac, signature, clientIp, p).result.Ok? && CompleteOrder(s, p).result.Err?
  }

  /** The gateway is told `OK` even when the reference is unknown, the
      amount is wrong or the order cannot be found: an authentic call is
      acknowledged whatever its completion does. */
  lemma WebhookAcknowledgesFailedCompletion(s: Store, allowedIps: seq<string>, hmac: Payload -> string,
                                            clientIp: string, p: Payload)
    requires clientIp in allowedIps
    requires CompleteOrder(s, p).result.Err?
    ensures Webhook(s, allowedIps, hmac, hmac(p), clientIp, p).result == Ok("OK")
  {
  }

  /** Marking a transaction completed keeps its reference, so the payload
      finds the same row again, now completed. */
  lemma {:induction false} PaidTransactionAfterMark(s: Store, p: Payload, t: Transaction)
    requires PaidTransaction(s, p) == Some(t)
    ensures PaidTransaction(CompletionWrites(s, t), p) == Some(MarkCompleted(t))
  {
    var rows := s.transactions;
    var q := TxnByRef(p.reference);
    FindIndexAfterUpdate(rows, TxnId(t.id), MarkCompleted, q);
    var i := FindIndex(rows, q).value;
    assert rows[i] == t;
    assert Update(rows, TxnId(t.id), MarkCompleted)[i] == MarkCompleted(t);
  }

  /** A completion replayed (the gateway retries, or sends both the charge
      and the transfer event) leaves the store as the first one left it. */
  lemma {:induction false} CompletionIdempotent(s: Store, p: Payload)
    ensures CompleteOrder(CompleteOrder(s, p).store, p).store == CompleteOrder(s, p).store
  {
    match PaidTransaction(s, p)
    case None =>
    case Some(t) =>
      if IsPaymentEvent(p.event) && p.amount == t.amount {
        var u := CompletionWrites(s, t);
        PaidTransactionAfterMark(s, p, t);
        assert LinkedOrder(u, t.id) == LinkedOrder(s, t.id);
        UpdateIdempotent(s.transactions, TxnId(t.id), MarkCompleted);
        match LinkedOrder(s, t.id)
        case None =>
        case Some(order) =>
          UpdateIdempotent(s.orders, OrderIdIs(order), WithStatus(PaymentCompleted));
      }
  }

  /** `completeOrder` does not look at the order's status: a paid event for
      an order already packaged, shipped or delivered puts it back to
      `Payment Completed`. */
  lemma PaidEventOverridesStatus(s: Store, p: Payload, k: nat)
    requires PaidTransaction(s, p).Some? && IsPaymentEvent(p.event) && p.amount == PaidTransaction(s, p).value.amount
    requires k < |s.orders|
    requires LinkedOrder(s, PaidTransaction(s, p).value.id) == Some(s.orders[k].id)
    ensures CompleteOrder(s, p).store.orders[k] == s.orders[k].(status := PaymentCompleted)
  {
  }

  /** A concrete replay: a delivered order whose payment event arrives
      again is no longer delivered. */
  lemma DeliveredOrderRewoundByReplay()
    ensures var s := Store([], [], [], {}, {}, [], [], [], [], [],
                           [Order(1, "BuyTrek-a", 7, 2500, "1 x lamp", Delivered)], [], [],
                           [OrderTransaction(3, 1, 2)], [Transaction(2, "TXN-a-1", 2500, Completed, 7)],
                           Auth.EmptyCache, 4);
      var r := CompleteOrder(s, Payload("charge.success", "TXN-a-1", 2500));
      s.orders[0].status == Delivered && r.store.orders[0].status == PaymentCompleted
  {
    var s := Store([], [], [], {}, {}, [], [], [], [], [],
                   [Order(1, "BuyTrek-a", 7, 2500, "1 x lamp", Delivered)], [], [],
                   [OrderTransaction(3, 1, 2)], [Transaction(2, "TXN-a-1", 2500, Completed, 7)],
                   Auth.EmptyCache, 4);
    var p := Payload("charge.success", "TXN-a-1", 2500);
    assert PaidTransaction(s, p) == Some(s.transactions[0]);
    assert LinkedOrder(s, 2) == Some(1);
    PaidEventOverridesStatus(s, p, 0);
  }

  /** A transaction without an order link, which is every transaction the
      order service creates as written, gets marked completed while no order
      changes, and the completion fails. */
  lemma UnlinkedCompletionFails(s: Store, p: Payload)
    requires PaidTransaction(s, p).Some? && IsPaymentEvent(p.event) && p.amount == PaidTransaction(s, p).value.amount
    requires LinkedOrder(s, PaidTransaction(s, p).value.id).None?
    ensures var r := CompleteOrder(s, p);
      r.result.Err? && r.result.error.kind == Internal &&
      r.store.orders == s.orders &&
      PaidTransaction(r.store, p) == Some(PaidTransaction(s, p).value.(status := Completed))
  {
    PaidTransactionAfterMark(s, p, PaidTransaction(s, p).value);
  }
}
