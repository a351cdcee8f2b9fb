/**
 * The order life cycle across the two halves of `OrderService`: an order
 * staged by `initiateOrder` is paid by the gateway's `charge.success`
 * event for its transaction reference, through `paystackWebhook` and
 * `completeOrder`. With the order linked to its transaction the order
 * ends up `Payment Completed`; without the link, as the code is written,
 * it stays pending forever.
 */
module Lifecycle {
  import opened Common
  import opened Entities
  import opened Tables
  import opened Storage
  import opened Carts
  import opened Checkout
  import opened Payments
  import opened Text

  /** The event the gateway sends once the buyer has paid `total` for the
      transaction `ref`. */
  function ChargeFor(ref: string, total: Money): (p: Payload)
    ensures IsPaymentEvent(p.event) && p.reference == ref && p.amount == total
  {
    Payload("charge.success", ref, total)
  }

  /** In a store whose ids were all handed out, the rows staged for a new
      order are the first (and only) ones the payment completion finds: the
      transaction by its reference, the link by the transaction id and the
      order by its id. */
  lemma StagedRowsFound(s: Store, user: Id, entries: seq<Entry>, total: Money, description: string,
                        orderNo: string, ref: string, corrected: bool, carts: seq<CartLine>)
    requires IdsIssued(s)
    requires forall i :: 0 <= i < |s.transactions| ==> s.transactions[i].ref != ref
    ensures var t := Stage(s, user, entries, total, description, orderNo, ref, corrected).(carts := carts);
      var tid := s.nextId + 2 + |entries|;
      PaidTransaction(t, ChargeFor(ref, total)) == Some(Transaction(tid, ref, total, Pending, user)) &&
      LinkedOrder(t, tid) == (if corrected then Some(s.nextId) else None) &&
      OrderById(t, s.nextId) == Some(Order(s.nextId, orderNo, user, total, description, PendingPaymentConfirmation)) &&
      ProfileOf(t, user) == ProfileOf(s, user)
  {
    var oid := s.nextId;
    var tid := oid + 2 + |entries|;
    var t := Stage(s, user, entries, total, description, orderNo, ref, corrected).(carts := carts);
    StageAppends(s, user, entries, total, description, orderNo, ref, corrected);
    var txn := Transaction(tid, ref, total, Pending, user);
    assert t.transactions == s.transactions + [txn];
    FindAppended(s.transactions, txn, TxnByRef(ref));
    var order := Order(oid, orderNo, user, total, description, PendingPaymentConfirmation);
    assert t.orders == s.orders + [order];
    FindAppended(s.orders, order, OrderIdIs(oid));
    if corrected {
      var l := OrderTransaction(tid + 1, oid, tid);
      assert t.orderTransactions == s.orderTransactions + [l];
      FindAppended(s.orderTransactions, l, LinkOfTransaction(tid));
    } else {
      assert t.orderTransactions == s.orderTransactions;
      assert forall i :: 0 <= i < |s.orderTransactions| ==> !LinkOfTransaction(tid)(s.orderTransactions[i]);
    }
  }

  /** A linked order is paid by its charge event: the completion succeeds
      and the order, otherwise as staged, is `Payment Completed`. */
  lemma LinkedOrderIsPaid(s: Store, user: Id, entries: seq<Entry>, total: Money, description: string,
                          orderNo: string, ref: string, carts: seq<CartLine>)
    requires IdsIssued(s)
    requires forall i :: 0 <= i < |s.transactions| ==> s.transactions[i].ref != ref
    requires ProfileOf(s, user).Some?
    ensures var t := Stage(s, user, entries, total, description, orderNo, ref, true).(carts := carts);
      var r := CompleteOrder(t, ChargeFor(ref, total));
      r.result == Ok(Some("Order payment completed")) &&
      OrderById(r.store, s.nextId) == Some(Order(s.nextId, orderNo, user, total, description, PaymentCompleted))
  {
    var t := Stage(s, user, entries, total, description, orderNo, ref, true).(carts := carts);
    var p := ChargeFor(ref, total);
    var tid := s.nextId + 2 + |entries|;
    StagedRowsFound(s, user, entries, total, description, orderNo, ref, true, carts);
    var txn := Transaction(tid, ref, total, Pending, user);
    assert PaidTransaction(t, p) == Some(txn);
    assert LinkedOrder(t, txn.id) == Some(s.nextId);
    var u := CompletionWrites(t, txn);
    assert CompleteOrder(t, p).store == u;
    assert u.orders == SetOrderStatus(t, s.nextId, PaymentCompleted).orders;
    OrderAfterStatus(t, s.nextId, PaymentCompleted);
    assert OrderById(u, s.nextId) == OrderById(SetOrderStatus(t, s.nextId, PaymentCompleted), s.nextId);
  }

  /** An order staged without the link, as `initiateOrder` is written, is
      never paid: the charge event marks the transaction and fails, and the
      order stays pending. */
  lemma UnlinkedOrderStaysPending(s: Store, user: Id, entries: seq<Entry>, total: Money, description: string,
                                  orderNo: string, ref: string, carts: seq<CartLine>)
    requires IdsIssued(s)
    requires forall i :: 0 <= i < |s.transactions| ==> s.transactions[i].ref != ref
    ensures var t := Stage(s, user, entries, total, description, orderNo, ref, false).(carts := carts);
      var r := CompleteOrder(t, ChargeFor(ref, total));
      r.result.Err? && r.result.error.kind == Internal &&
      OrderById(r.store, s.nextId) == Some(Order(s.nextId, orderNo, user, total, description, PendingPaymentConfirmation))
  {
    StagedRowsFound(s, user, entries, total, description, orderNo, ref, false, carts);
  }

  /** An authentic charge event for a freshly staged order leaves an
      unhandled rejection exactly when the order was staged as written,
      without its link. */
  lemma ChargeRejectsUnhandledIffUnlinked(s: Store, user: Id, entries: seq<Entry>, total: Money, description: string,
                                          orderNo: string, ref: string, corrected: bool, carts: seq<CartLine>,
                                          allowedIps: seq<string>, hmac: Payload -> string, clientIp: string)
    requires IdsIssued(s)
    requires forall i :: 0 <= i < |s.transactions| ==> s.transactions[i].ref != ref
    requires ProfileOf(s, user).Some?
    requires clientIp in allowedIps
    ensures var t := Stage(s, user, entries, total, description, orderNo, ref, corrected).(carts := carts);
      var p := ChargeFor(ref, total);
      LeavesUnhandledRejection(t, allowedIps, hmac, hmac(p), clientIp, p) <==> !corrected
  {
    if corrected {
      LinkedOrderIsPaid(s, user, entries, total, description, orderNo, ref, carts);
    } else {
      UnlinkedOrderStaysPending(s, user, entries, total, description, orderNo, ref, carts);
    }
  }

  /** The whole round: a buyer with a profile checks out a non-empty cart
      the gateway accepts, and the gateway's signed `charge.success` event
      for the cart's value under the reference the service generated is
      acknowledged and leaves the new order `Payment Completed`, with the
      buyer's cart empty. */
  lemma CheckoutThenChargePays(s: Store, user: User, orderRandom: string, txnRandom: string, now: nat,
                               gateway: GatewayRequest -> GatewayReply,
                               allowedIps: seq<string>, hmac: Payload -> string, clientIp: string)
    requires IdsIssued(s)
    requires forall i :: 0 <= i < |s.transactions| ==> s.transactions[i].ref != TransactionRef(txnRandom, now)
    requires |Snapshot(s, user.id)| > 0
    requires gateway(RequestFor(DraftOf(s, user.id), user, TransactionRef(txnRandom, now))).Authorized?
    requires ProfileOf(s, user.id).Some?
    requires clientIp in allowedIps
    ensures var placed := Proceed(s, user, DraftOf(s, user.id), OrderNo(orderRandom), TransactionRef(txnRandom, now), gateway, true);
      var p := ChargeFor(TransactionRef(txnRandom, now), CartValue(s, user.id));
      var paid := Webhook(placed.store, allowedIps, hmac, hmac(p), clientIp, p);
      placed.result.Ok? && placed.result.value.orderId == s.nextId &&
      paid.result == Ok("OK") &&
      OrderById(paid.store, s.nextId).Some? &&
      OrderById(paid.store, s.nextId).value.status == PaymentCompleted &&
      OrderById(paid.store, s.nextId).value.totalAmount == CartValue(s, user.id) &&
      Count(paid.store.carts, InCart(s, user.id)) == 0
  {
    CorrectedCheckoutPlacesOrder(s, user, OrderNo(orderRandom), TransactionRef(txnRandom, now), gateway);
    var lines := Snapshot(s, user.id);
    var items := EntriesOf(s, lines);
    var ref := TransactionRef(txnRandom, now);
    var carts := Delete(s.carts, CartIdIn(IdsOf(lines)));
    LinkedOrderIsPaid(s, user.id, Collect(items), CartValue(s, user.id), Join(Pieces(items), ", "),
                      OrderNo(orderRandom), ref, carts);
  }
}
