/**
 * The order state machine of `OrderService`: the four `updateOrderto*`
 * transitions an administrator or staff member drives, the buyer's
 * `cancelOrder`, and the `nextAction` hint the order views show.
 *
 *   Pending Payment Confirmation --(payment webhook)--> Payment Completed
 *   Payment Completed --> Packaging --> Packaged --> Out for Delivery --> Delivered
 *   Pending Payment Confirmation | Payment Completed --(cancel)--> Cancelled
 */
module Fulfilment {
  import opened Common
  import opened Entities
  import opened Tables
  import opened Storage

  /** The four forward transitions, one service method each. */
  datatype Milestone = ToPackaging | ToPackaged | ToOutForDelivery | ToDelivered

  /** The status a transition writes. */
  function Target(m: Milestone): OrderStatus
  {
    match m
    case ToPackaging => Packaging
    case ToPackaged => Packaged
    case ToOutForDelivery => OutForDelivery
    case ToDelivered => Delivered
  }

  /** The status a transition insists on finding. */
  function Required(m: Milestone): OrderStatus
  {
    match m
    case ToPackaging => PaymentCompleted
    case ToPackaged => Packaging
    case ToOutForDelivery => Packaged
    case ToDelivered => OutForDelivery
  }

  /** The refusal when the order is anywhere else. */
  function Refusal(m: Milestone): string
  {
    match m
    case ToPackaging => "Order not confirmed yet, awaiting payment confirmation"
    case ToPackaged => "Order needs to be updated to packaging"
    case ToOutForDelivery => "Order needs to be updated to packaged"
    case ToDelivered => "Order needs to be updated to out for Delivery"
  }

  /** The success reply. */
  function Done(m: Milestone): string
  {
    match m
    case ToPackaging => "Updated to Packaging"
    case ToPackaged => "Updated to Packaged"
    case ToOutForDelivery => "Updated to Out for Delivery"
    case ToDelivered => "Updated to Delivered"
  }

  /** Position along the fulfilment chain; `Cancelled` sits off it. */
  function Rank(status: OrderStatus): int
  {
    match status
    case PendingPaymentConfirmation => 0
    case PaymentCompleted => 1
    case Packaging => 2
    case Packaged => 3
    case OutForDelivery => 4
    case Delivered => 5
    case Cancelled => -1
  }

  /** Every transition moves exactly one step along the chain, and the
      chain has one transition per step from payment to delivery. */
  lemma TransitionsFormTheChain(m: Milestone)
    ensures Rank(Target(m)) == Rank(Required(m)) + 1
    ensures Rank(Required(m)) >= 1
    ensures forall n: Milestone :: Required(n) == Required(m) ==> n == m
  {
  }

  /** The `nextAction` hint of the order views. */
  function NextAction(status: OrderStatus): string
  {
    match status
    case PendingPaymentConfirmation => ""
    case PaymentCompleted => "updateToPaackaging"
    case Cancelled => ""
    case Packaging => "updateToPackaged"
    case Packaged => "updateToOutforDelivery"
    case OutForDelivery => "updateToDelivered"
    case Delivered => ""
  }

  /** The hint is non-empty exactly for the statuses some transition
      accepts: pending, cancelled and delivered orders have no next step. */
  lemma NextActionMatchesTransitions(status: OrderStatus)
    ensures NextAction(status) != "" <==> exists m: Milestone :: Required(m) == status
  {
    if status == PaymentCompleted { assert Required(ToPackaging) == status; }
    if status == Packaging { assert Required(ToPackaged) == status; }
    if status == Packaged { assert Required(ToOutForDelivery) == status; }
    if status == OutForDelivery { assert Required(ToDelivered) == status; }
  }

  /** The order-service gate of the transitions: role 1 or 3. */
  predicate IsStaff(env: Env, s: Store, header: Option<string>)
  {
    var auth := Authenticate(env, s, header);
    auth.Ok? && (auth.value.role == Admin || auth.value.role == Staff)
  }

  /** The transition from the order lookup on, shared by both services.
      `updateOrdertoDelivered` reads `order.status` before it checks that
      the order exists, so a missing order fails there with a `TypeError`
      instead of `NotFound`. */
  function Progress(s: Store, orderId: Id, m: Milestone): (r: Step<string>)
    ensures r.result.Ok? <==> OrderById(s, orderId).Some? && OrderById(s, orderId).value.status == Required(m)
    ensures r.result.Ok? ==> r == Step(SetOrderStatus(s, orderId, Target(m)), Ok(Done(m)))
    ensures r.result.Err? ==> r.store == s
    ensures OrderById(s, orderId).None? ==> r.result.error.kind == (if m == ToDelivered then Internal else NotFound)
    ensures OrderById(s, orderId).Some? && OrderById(s, orderId).value.status != Required(m) ==>
      r.result == Fail(BadRequest, Refusal(m))
  {
    match OrderById(s, orderId)
    case None =>
      if m == ToDelivered then Reject(s, Internal, "Cannot read properties of null (reading 'status')")
      else Reject(s, NotFound, "Order not found")
    case Some(order) =>
      if order.status != Required(m) then Reject(s, BadRequest, Refusal(m))
      else Step(SetOrderStatus(s, order.id, Target(m)), Ok(Done(m)))
  }

  /** `updateOrdertoPackaging`, `…Packaged`, `…OutForDelivery` and
      `…Delivered` of the order service. */
  function Advance(env: Env, s: Store, header: Option<string>, orderId: Id, m: Milestone): (r: Step<string>)
    ensures !IsStaff(env, s, header) ==> r.store == s && r.result.Err? && r.result.error.kind == Unauthorized
    ensures IsStaff(env, s, header) && ProfileOf(s, Authenticate(env, s, header).value.userId).None? ==>
      r == Reject(s, Unauthorized, "Unauthorized")
    ensures IsStaff(env, s, header) && ProfileOf(s, Authenticate(env, s, header).value.userId).Some? ==>
      r == Progress(s, orderId, m)
  {
    match Authenticate(env, s, header)
    case Err(e) => Step(s, Err(e))
    case Ok(claims) =>
      if claims.role != Staff && claims.role != Admin then Reject(s, Unauthorized, "Unathorized")
      else if ProfileOf(s, claims.userId).None? then Reject(s, Unauthorized, "Unauthorized")
      else Progress(s, orderId, m)
  }

  /** A transition changes the status of the one order it names, to the
      status it stands for, and leaves every other row as it was. */
  lemma {:induction false} AdvanceChangesOnlyThatOrder(env: Env, s: Store, header: Option<string>, orderId: Id, m: Milestone)
    requires Advance(env, s, header, orderId, m).result.Ok?
    ensures var t := Advance(env, s, header, orderId, m).store;
      t == s.(orders := t.orders) && |t.orders| == |s.orders| &&
      (forall k :: 0 <= k < |s.orders| && s.orders[k].id != orderId ==> t.orders[k] == s.orders[k]) &&
      (forall k :: 0 <= k < |s.orders| && s.orders[k].id == orderId ==>
         t.orders[k].status == Target(m) && t.orders[k] == s.orders[k].(status := Target(m))) &&
      OrderById(t, orderId).Some? && Rank(OrderById(t, orderId).value.status) == Rank(OrderById(s, orderId).value.status) + 1
  {
    assert Advance(env, s, header, orderId, m) == Progress(s, orderId, m);
    assert Advance(env, s, header, orderId, m).store == SetOrderStatus(s, orderId, Target(m));
    OrderAfterStatus(s, orderId, Target(m));
    TransitionsFormTheChain(m);
  }

  /** The transitions `ms` applied one after another to the same order,
      stopping at the first refusal. */
  function Chain(env: Env, s: Store, header: Option<string>, orderId: Id, ms: seq<Milestone>): Step<string>
    requires |ms| > 0
    decreases |ms|
  {
    var r := Advance(env, s, header, orderId, ms[0]);
    if r.result.Err? || |ms| == 1 then r else Chain(env, r.store, header, orderId, ms[1..])
  }

  /** Transitions whose targets and requirements line up succeed one after
      another and leave the order at the last target. */
  lemma {:induction false} ChainSucceeds(env: Env, s: Store, header: Option<string>, orderId: Id, ms: seq<Milestone>)
    requires |ms| > 0
    requires forall i :: 0 <= i < |ms| - 1 ==> Target(ms[i]) == Required(ms[i + 1])
    requires IsStaff(env, s, header) && ProfileOf(s, Authenticate(env, s, header).value.userId).Some?
    requires OrderById(s, orderId).Some? && OrderById(s, orderId).value.status == Required(ms[0])
    ensures var r := Chain(env, s, header, orderId, ms);
      r.result.Ok? && OrderById(r.store, orderId).Some? && OrderById(r.store, orderId).value.status == Target(ms[|ms| - 1])
    decreases |ms|
  {
    AdvanceStatus(env, s, header, orderId, ms[0]);
    if |ms| > 1 {
      var r := Advance(env, s, header, orderId, ms[0]);
      ChainSucceeds(env, r.store, header, orderId, ms[1..]);
    }
  }

  /** From payment to delivery: a staff member with a profile takes a paid
      order through the four transitions in order, and it ends delivered. */
  lemma FulfilmentRunsToDelivery(env: Env, s: Store, header: Option<string>, orderId: Id)
    requires IsStaff(env, s, header) && ProfileOf(s, Authenticate(env, s, header).value.userId).Some?
    requires OrderById(s, orderId).Some? && OrderById(s, orderId).value.status == PaymentCompleted
    ensures var r := Chain(env, s, header, orderId, [ToPackaging, ToPackaged, ToOutForDelivery, ToDelivered]);
      r.result.Ok? && OrderById(r.store, orderId).Some? && OrderById(r.store, orderId).value.status == Delivered
  {
    ChainSucceeds(env, s, header, orderId, [ToPackaging, ToPackaged, ToOutForDelivery, ToDelivered]);
  }

  /** One successful transition, seen from the next one: the caller still
      passes the gate and the order now carries the transition's target. */
  lemma AdvanceStatus(env: Env, s: Store, header: Option<string>, orderId: Id, m: Milestone)
    requires IsStaff(env, s, header) && ProfileOf(s, Authenticate(env, s, header).value.userId).Some?
    requires OrderById(s, orderId).Some? && OrderById(s, orderId).value.status == Required(m)
    ensures var r := Advance(env, s, header, orderId, m);
      r.result.Ok? && r.store.cache == s.cache && r.store.profiles == s.profiles &&
      IsStaff(env, r.store, header) && ProfileOf(r.store, Authenticate(env, r.store, header).value.userId).Some? &&
      OrderById(r.store, orderId).Some? && OrderById(r.store, orderId).value.status == Target(m)
  {
    AdvanceChangesOnlyThatOrder(env, s, header, orderId, m);
  }

  /** Skipping a step or repeating one is refused, and refused without a
      write. */
  lemma OutOfOrderTransitionRefused(env: Env, s: Store, header: Option<string>, orderId: Id, m: Milestone)
    requires IsStaff(env, s, header) && ProfileOf(s, Authenticate(env, s, header).value.userId).Some?
    requires OrderById(s, orderId).Some? && OrderById(s, orderId).value.status != Required(m)
    ensures Advance(env, s, header, orderId, m) == Reject(s, BadRequest, Refusal(m))
  {
  }

  /** Delivered and cancelled orders are final: no transition accepts them. */
  lemma FinalStatusesStay(env: Env, s: Store, header: Option<string>, orderId: Id, m: Milestone)
    requires OrderById(s, orderId).Some?
    requires OrderById(s, orderId).value.status in {Delivered, Cancelled, PendingPaymentConfirmation}
    ensures Advance(env, s, header, orderId, m).result.Err?
    ensures Advance(env, s, header, orderId, m).store == s
  {
  }

  /** Statuses from which a buyer may still cancel. */
  predicate Cancellable(status: OrderStatus)
  {
    status == PendingPaymentConfirmation || status == PaymentCompleted
  }

  predicate IsBuyerCaller(env: Env, s: Store, header: Option<string>)
  {
    var auth := Authenticate(env, s, header);
    auth.Ok? && auth.value.role == Buyer
  }

  function LinkOfOrder(order: Id): OrderTransaction -> bool
  {
    (l: OrderTransaction) => l.order == order
  }

  function LineOfOrder(order: Id): OrderLine -> bool
  {
    (l: OrderLine) => l.order == order
  }

  function AddressOfOrder(order: Id): OrderAddress -> bool
  {
    (a: OrderAddress) => a.order == order
  }

  /** The `paymentcancelled` branch: the order's links, lines and address
      rows, then the order itself. */
  function Purge(s: Store, order: Id): (t: Store)
    ensures t == s.(orderTransactions := t.orderTransactions, orderLines := t.orderLines,
                    orderAddresses := t.orderAddresses, orders := t.orders)
    ensures forall i :: 0 <= i < |t.orders| ==> t.orders[i].id != order
    ensures forall i :: 0 <= i < |t.orderLines| ==> t.orderLines[i].order != order
    ensures forall i :: 0 <= i < |t.orderAddresses| ==> t.orderAddresses[i].order != order
    ensures forall i :: 0 <= i < |t.orderTransactions| ==> t.orderTransactions[i].order != order
    ensures forall i :: 0 <= i < |s.orders| && s.orders[i].id != order ==> s.orders[i] in t.orders
    ensures forall i :: 0 <= i < |s.orderLines| && s.orderLines[i].order != order ==> s.orderLines[i] in t.orderLines
  {
    s.(orderTransactions := Delete(s.orderTransactions, LinkOfOrder(order)),
       orderLines := Delete(s.orderLines, LineOfOrder(order)),
       orderAddresses := Delete(s.orderAddresses, AddressOfOrder(order)),
       orders := Delete(s.orders, OrderIdIs(order)))
  }

  /** `cancelOrder(orderId, type)`. Any buyer with a profile may cancel any
      order: the order's owner is not compared with the caller. */
  function CancelOrder(env: Env, s: Store, header: Option<string>, orderId: Id, kind: string): (r: Step<string>)
    ensures r.result.Ok? <==>
      IsBuyerCaller(env, s, header) && ProfileOf(s, Authenticate(env, s, header).value.userId).Some? &&
      OrderById(s, orderId).Some? && Cancellable(OrderById(s, orderId).value.status)
    ensures r.result.Ok? ==> r.result.value == "Order Cancelled"
    ensures r.result.Err? ==> r.store == s
    ensures r.result.Ok? && kind == "payment" ==> r.store == SetOrderStatus(s, OrderById(s, orderId).value.id, Cancelled)
    ensures r.result.Ok? && kind == "paymentcancelled" ==> r.store == Purge(s, OrderById(s, orderId).value.id)
    ensures kind != "payment" && kind != "paymentcancelled" ==> r.store == s
    ensures OrderById(s, orderId).Some? && !Cancellable(OrderById(s, orderId).value.status) ==>
      r.result.Err? && r.result.error.kind in {Unauthorized, BadRequest}
  {
    match Authenticate(env, s, header)
    case Err(e) => Step(s, Err(e))
    case Ok(claims) =>
      if claims.role != Buyer then Reject(s, Unauthorized, "Unathorized")
      else if ProfileOf(s, claims.userId).None? then Reject(s, Unauthorized, "Unauthorized")
      else match OrderById(s, orderId)
        case None => Reject(s, NotFound, "Order not found")
        case Some(order) =>
          if !Cancellable(order.status) then Reject(s, BadRequest, "Order can not be cancelled")
          else if kind == "payment" then Step(SetOrderStatus(s, order.id, Cancelled), Ok("Order Cancelled"))
          else if kind == "paymentcancelled" then Step(Purge(s, order.id), Ok("Order Cancelled"))
          else Step(s, Ok("Order Cancelled"))
  }

  /** A cancelled order stays cancelled: cancelling it again is refused and
      no transition moves it. */
  lemma CancelIsFinal(env: Env, s: Store, header: Option<string>, orderId: Id, m: Milestone, header2: Option<string>)
    requires CancelOrder(env, s, header, orderId, "payment").result.Ok?
    ensures var t := CancelOrder(env, s, header, orderId, "payment").store;
      OrderById(t, orderId).Some? && OrderById(t, orderId).value.status == Cancelled &&
      CancelOrder(env, t, header2, orderId, "payment").result.Err? &&
      Advance(env, t, header2, orderId, m).result.Err?
  {
    OrderAfterStatus(s, orderId, Cancelled);
  }

  /** Withdrawing an unpaid order removes it with every row that names it;
      rows of other orders stay. */
  lemma WithdrawRemovesOrder(env: Env, s: Store, header: Option<string>, orderId: Id)
    requires CancelOrder(env, s, header, orderId, "paymentcancelled").result.Ok?
    ensures var t := CancelOrder(env, s, header, orderId, "paymentcancelled").store;
      OrderById(t, orderId).None? &&
      (forall i :: 0 <= i < |t.orderLines| ==> t.orderLines[i].order != orderId) &&
      (forall i :: 0 <= i < |s.orders| && s.orders[i].id != orderId ==> s.orders[i] in t.orders) &&
      t.carts == s.carts && t.transactions == s.transactions
  {
    assert OrderById(s, orderId).value.id == orderId;
  }

  /** Cancelling needs no ownership: a buyer may cancel another buyer's
      order. */
  lemma CancelIgnoresOwnership(env: Env, s: Store, header: Option<string>, orderId: Id)
    requires IsBuyerCaller(env, s, header) && ProfileOf(s, Authenticate(env, s, header).value.userId).Some?
    requires OrderById(s, orderId).Some? && Cancellable(OrderById(s, orderId).value.status)
    requires OrderById(s, orderId).value.user != Authenticate(env, s, header).value.userId
    ensures CancelOrder(env, s, header, orderId, "payment").result == Ok("Order Cancelled")
  {
  }
}
