/**
 * `OrderService.initiateOrder` and `generateTransactionRef`: a buyer's cart
 * becomes an order in `Pending Payment Confirmation`, with its lines, its
 * address snapshot and a pending transaction, and the payment gateway is
 * asked for a payment page. The gateway is a parameter: a function from the
 * request the service sends to the reply it gets back.
 */
module Checkout {
  import opened Common
  import opened Entities
  import opened Tables
  import opened Text
  import opened Auth
  import opened Storage
  import opened Carts

  /** A value of the `cartProducts` map: a product and the quantity wanted. */
  datatype Entry = Entry(product: Product, quantity: int)

  function Key(id: Id): Entry -> bool
  {
    (x: Entry) => x.product.id == id
  }

  ghost predicate KeysDistinct(entries: seq<Entry>)
  {
    forall i, j :: 0 <= i < j < |entries| ==> entries[i].product.id != entries[j].product.id
  }

  /** The product ids among `entries`. */
  function KeySet(entries: seq<Entry>): set<Id>
  {
    set x | x in entries :: x.product.id
  }

  /** `map.set(e.product.id, e)` on a JavaScript `Map` kept as its entries
      in insertion order: an existing key keeps its position and takes the
      new value; a new key goes last. */
  function MapSet(entries: seq<Entry>, e: Entry): (r: seq<Entry>)
    ensures KeysDistinct(entries) ==> KeysDistinct(r)
    ensures KeySet(r) == KeySet(entries) + {e.product.id}
    ensures e in r
    ensures forall x :: x in r ==> x == e || x in entries
  {
    match FindIndex(entries, Key(e.product.id))
    case Some(i) =>
      var r := entries[i := e];
      assert forall k :: 0 <= k < |entries| ==> r[k].product.id == entries[k].product.id;
      assert KeySet(r) == KeySet(entries) by {
        forall id | id in KeySet(entries) ensures id in KeySet(r) {
          var x :| x in entries && x.product.id == id;
          var k :| 0 <= k < |entries| && entries[k] == x;
          assert r[k] in r;
        }
      }
      r
    case None =>
      var r := entries + [e];
      assert forall k :: 0 <= k < |entries| ==> r[k] == entries[k];
      r
  }

  /** The `cartProducts` map after `forEach` over the lines: one entry per
      distinct product id, each carrying the value of some line for it. */
  function Collect(items: seq<Entry>): (r: seq<Entry>)
    ensures KeysDistinct(r)
    ensures KeySet(r) == KeySet(items)
    ensures forall x :: x in r ==> x in items
    decreases |items|
  {
    if |items| == 0 then []
    else
      var init := items[..|items| - 1];
      var last := items[|items| - 1];
      assert items == init + [last];
      assert KeySet(items) == KeySet(init) + {last.product.id};
      MapSet(Collect(init), last)
  }

  /** A key not yet in the map goes last. */
  lemma MapSetNewKey(entries: seq<Entry>, e: Entry)
    requires forall j :: 0 <= j < |entries| ==> entries[j].product.id != e.product.id
    ensures MapSet(entries, e) == entries + [e]
  {
    assert forall j :: 0 <= j < |entries| ==> !Key(e.product.id)(entries[j]);
  }

  /** With distinct products, as `addToCart` guarantees for one buyer, the
      map holds exactly the lines, in order. */
  lemma {:induction false} CollectDistinct(items: seq<Entry>)
    requires KeysDistinct(items)
    ensures Collect(items) == items
    decreases |items|
  {
    if |items| > 0 {
      var init := items[..|items| - 1];
      var last := items[|items| - 1];
      assert items == init + [last];
      assert KeysDistinct(init) by {
        forall i, j | 0 <= i < j < |init| ensures init[i].product.id != init[j].product.id {
          assert init[i] == items[i] && init[j] == items[j];
        }
      }
      CollectDistinct(init);
      assert forall j :: 0 <= j < |init| ==> init[j].product.id != last.product.id by {
        forall j | 0 <= j < |init| ensures init[j].product.id != last.product.id {
          assert init[j] == items[j];
        }
      }
      MapSetNewKey(init, last);
    }
  }

  /** One `{ product, quantity }` per cart line, in table order. */
  function EntriesOf(s: Store, lines: seq<CartLine>): (r: seq<Entry>)
    requires forall i :: 0 <= i < |lines| ==> LineProduct(s, lines[i]).Some?
    ensures |r| == |lines|
    ensures forall i :: 0 <= i < |lines| ==> r[i] == Entry(LineProduct(s, lines[i]).value, lines[i].quantity)
  {
    seq(|lines|, i requires 0 <= i < |lines| => Entry(LineProduct(s, lines[i]).value, lines[i].quantity))
  }

  /** `${quantity} x ${product.product}` for one line. */
  function Piece(e: Entry): (p: string)
    ensures |p| > 0 && !IsSpace(p[0])
  {
    IntToString(e.quantity) + " x " + e.product.name
  }

  function Pieces(items: seq<Entry>): (r: seq<string>)
    ensures |r| == |items| && forall i :: 0 <= i < |items| ==> r[i] == Piece(items[i])
  {
    seq(|items|, i requires 0 <= i < |items| => Piece(items[i]))
  }

  /** The description as the code builds it: every piece followed by
      `", "`, then `trim()` and `replace(/,$/, '')`. */
  function Description(items: seq<Entry>): (d: string)
    ensures |items| > 0 ==> d == Join(Pieces(items), ", ")
  {
    var pieces := Pieces(items);
    if |pieces| > 0 then TrimmedTerminatedIsJoin(pieces); StripTrailingComma(Trim(Terminated(pieces, ", ")))
    else StripTrailingComma(Trim(Terminated(pieces, ", ")))
  }

  /** `BuyTrek-<random>`: the order number. */
  function OrderNo(random: string): string
  {
    "BuyTrek-" + random
  }

  /** `generateTransactionRef()`: `TXN-<random>-<Date.now()>`. */
  function TransactionRef(random: string, now: nat): (ref: string)
    ensures StartsWith(ref, "TXN-")
  {
    "TXN-" + random + "-" + NatToString(now)
  }

  /** A reference splits back into its prefix, random part and timestamp
      (the base-36 random part never contains `-`). */
  lemma TransactionRefParts(random: string, now: nat)
    requires '-' !in random
    ensures Split(TransactionRef(random, now), '-') == ["TXN", random, NatToString(now)]
  {
    var ts := NatToString(now);
    assert '-' !in ts by {
      forall i | 0 <= i < |ts| ensures ts[i] != '-' {
        assert IsDigit(ts[i]);
      }
    }
    assert TransactionRef(random, now) == "TXN" + ['-'] + (random + ['-'] + ts);
    SplitAtFirstSeparator("TXN", random + ['-'] + ts, '-');
    SplitAtFirstSeparator(random, ts, '-');
    SplitWithoutSeparator(ts, '-');
  }

  /** Two references are equal only if drawn with the same random part at
      the same millisecond. */
  lemma TransactionRefInjective(r1: string, t1: nat, r2: string, t2: nat)
    requires '-' !in r1 && '-' !in r2
    requires TransactionRef(r1, t1) == TransactionRef(r2, t2)
    ensures r1 == r2 && t1 == t2
  {
    TransactionRefParts(r1, t1);
    TransactionRefParts(r2, t2);
    assert Split(TransactionRef(r1, t1), '-')[1] == r1;
    assert Split(TransactionRef(r2, t2), '-')[2] == NatToString(t2);
    NatToStringInjective(t1, t2);
  }

  /** What the service posts to the gateway's `transaction/initialize`:
      the amount in minor units, the buyer's email and the reference. */
  datatype GatewayRequest = GatewayRequest(amount: Money, email: string, reference: string)

  /** The gateway's answer: status 200 with a payment page, or anything
      else (including a transport failure). */
  datatype GatewayReply = Authorized(url: string) | Declined(message: string)

  datatype Placement = Placement(paymentUrl: string, orderId: Id)

  /** The order lines, one per map entry. The code passes the product's
      price under `amount`, a key `orderproducts` does not have, so as
      written the `price` column is left unset; `priced` selects the
      intended copy of the product's current price. */
  function OrderLinesFor(entries: seq<Entry>, order: Id, base: nat, priced: bool): (r: seq<OrderLine>)
    ensures |r| == |entries|
    ensures forall k :: 0 <= k < |r| ==>
      r[k].id == base + k && r[k].order == order &&
      r[k].product == entries[k].product.id && r[k].quantity == entries[k].quantity
    ensures forall k :: 0 <= k < |r| ==>
      r[k].price == if priced then Some(entries[k].product.amount) else None
  {
    seq(|entries|, k requires 0 <= k < |entries| =>
      OrderLine(base + k, order, entries[k].product.id, entries[k].quantity,
                if priced then Some(entries[k].product.amount) else None))
  }

  /** What an order line records as its value: quantity times the stored
      price, nothing when the price is unset. */
  function LineAmount(): OrderLine -> int
  {
    (l: OrderLine) => if l.price.Some? then l.quantity * l.price.value else 0
  }

  /** `quantity * product.amount` for one map entry. */
  function EntryValue(): Entry -> int
  {
    (e: Entry) => e.quantity * e.product.amount
  }

  /** Priced order lines add up to the value of the entries they were
      made from. */
  lemma {:induction false} PricedLinesAddUp(entries: seq<Entry>, order: Id, base: nat)
    ensures Sum(OrderLinesFor(entries, order, base, true), LineAmount()) == Sum(entries, EntryValue())
    decreases |entries|
  {
    if |entries| > 0 {
      PricedLinesAddUp(entries[1..], order, base + 1);
      assert OrderLinesFor(entries, order, base, true)[1..] == OrderLinesFor(entries[1..], order, base + 1, true);
    }
  }

  /** As written no line records a price, so by their own record the
      lines of any order are worth nothing, whatever the cart held. */
  lemma {:induction false} UnpricedLinesRecordNothing(entries: seq<Entry>, order: Id, base: nat)
    ensures Sum(OrderLinesFor(entries, order, base, false), LineAmount()) == 0
    decreases |entries|
  {
    if |entries| > 0 {
      UnpricedLinesRecordNothing(entries[1..], order, base + 1);
      assert OrderLinesFor(entries, order, base, false)[1..] == OrderLinesFor(entries[1..], order, base + 1, false);
    }
  }

  function DefaultAddressOf(user: Id): Address -> bool
  {
    (a: Address) => a.user == user && a.isDefault
  }

  /** The address id snapshotted into the order (none when the buyer has no
      default address). */
  function DefaultAddressId(s: Store, user: Id): Option<Id>
  {
    match Find(s.addresses, DefaultAddressOf(user))
    case None => None
    case Some(a) => Some(a.id)
  }

  /** The rows written before the gateway is called, in the code's order:
      the order, its address, its lines, the transaction and, when
      `corrected` holds, the order–transaction link; `corrected` also fills
      the lines' price. Ids are drawn from `nextId` in the same order. */
  function Stage(s: Store, user: Id, entries: seq<Entry>, total: Money, description: string,
                 orderNo: string, ref: string, corrected: bool): (t: Store)
    ensures t.carts == s.carts && t.users == s.users && t.profiles == s.profiles && t.products == s.products
    ensures t.nextId > s.nextId + 1 + |entries|
  {
    var oid := s.nextId;
    var tid := oid + 2 + |entries|;
    s.(orders := s.orders + [Order(oid, orderNo, user, total, description, PendingPaymentConfirmation)],
       orderAddresses := s.orderAddresses + [OrderAddress(oid + 1, oid, DefaultAddressId(s, user))],
       orderLines := s.orderLines + OrderLinesFor(entries, oid, oid + 2, corrected),
       transactions := s.transactions + [Transaction(tid, ref, total, Pending, user)],
       orderTransactions := if corrected then s.orderTransactions + [OrderTransaction(tid + 1, oid, tid)] else s.orderTransactions,
       nextId := if corrected then tid + 2 else tid + 1)
  }

  function LinkOfOrder(order: Id): OrderTransaction -> bool
  {
    (l: OrderTransaction) => l.order == order
  }

  function LineOfOrder(order: Id): OrderLine -> bool
  {
    (l: OrderLine) => l.order == order
  }

  function OrderAddressId(id: Id): OrderAddress -> bool
  {
    (a: OrderAddress) => a.id == id
  }

  /** The `catch` block: links, lines, the address row, then the order. */
  function Rollback(s: Store, order: Id, address: Id): Store
  {
    s.(orderTransactions := Delete(s.orderTransactions, LinkOfOrder(order)),
       orderLines := Delete(s.orderLines, LineOfOrder(order)),
       orderAddresses := Delete(s.orderAddresses, OrderAddressId(address)),
       orders := Delete(s.orders, OrderIdIs(order)))
  }

  function CartIdIn(ids: set<Id>): CartLine -> bool
  {
    (l: CartLine) => l.id in ids
  }

  function IdsOf(lines: seq<CartLine>): set<Id>
  {
    set i | 0 <= i < |lines| :: lines[i].id
  }

  const PaymentFailed: string := "Payment initialization failed. Please try again."

  /** The lines `initiateOrder` reads for `user`: those `getCart` shows. */
  function Snapshot(s: Store, user: Id): (lines: seq<CartLine>)
    ensures forall i :: 0 <= i < |lines| ==> LineProduct(s, lines[i]).Some?
  {
    Where(s.carts, InCart(s, user))
  }

  /** What `initiateOrder` derives from the cart before it saves anything:
      the lines it read, one entry per product, the total in minor units
      and the order description. */
  datatype Draft = Draft(lines: seq<CartLine>, entries: seq<Entry>, total: Money, description: string)

  /** The draft for `user`'s cart. */
  function DraftOf(s: Store, user: Id): Draft
  {
    var lines := Snapshot(s, user);
    var items := EntriesOf(s, lines);
    Draft(lines, Collect(items), Sum(lines, LineValue(s)), Description(items))
  }

  /** Everything after the gates, for a buyer `user` with a non-empty cart
      drafted as `d`: staging, the gateway call, and then either the
      consumed cart or the rollback. */
  function Proceed(s: Store, user: User, d: Draft, orderNo: string, ref: string,
                   gateway: GatewayRequest -> GatewayReply, corrected: bool): (r: Step<Placement>)
    ensures r.result.Err? ==> r.result == Fail(BadRequest, PaymentFailed)
    ensures r.result.Ok? ==> corrected && r.result.value.orderId == s.nextId
  {
    var staged := Stage(s, user.id, d.entries, d.total, d.description, orderNo, ref, corrected);
    match gateway(RequestFor(d, user, ref))
    case Declined(_) =>
      Step(Rollback(staged, s.nextId, s.nextId + 1), Fail(BadRequest, PaymentFailed))
    case Authorized(url) =>
      var emptied := staged.(carts := Delete(staged.carts, CartIdIn(IdsOf(d.lines))));
      // `userprofile.user.emailAddress`: the relation is only there when loaded
      if corrected && ProfileOf(s, user.id).Some? then Step(emptied, Ok(Placement(url, s.nextId)))
      else Step(Rollback(emptied, s.nextId, s.nextId + 1), Fail(BadRequest, PaymentFailed))
  }

  /** `initiateOrder()`. `corrected` selects between the code as written
      (`false`) and the evidently intended behaviour (`true`): the buyer's
      profile is read together with its `user` relation, and the order is
      linked to its transaction. */
  function PlaceOrder(env: Env, s: Store, header: Option<string>, orderRandom: string, txnRandom: string, now: nat,
                      gateway: GatewayRequest -> GatewayReply, corrected: bool): (r: Step<Placement>)
    ensures !IsBuyer(env, s, header) ==> r.store == s && r.result.Err? && r.result.error.kind == Unauthorized
    ensures (IsBuyer(env, s, header) && UserById(s, Caller(env, s, header)).None?) ==>
      r == Reject(s, NotFound, "User not found")
    ensures (IsBuyer(env, s, header) && Count(s.carts, InCart(s, Caller(env, s, header))) == 0) ==>
      r.store == s && r.result.Err? && r.result.error.kind == NotFound
    ensures r.result.Err? ==> r.result.error.kind in {Unauthorized, NotFound, BadRequest}
  {
    match Authenticate(env, s, header)
    case Err(e) => Step(s, Err(e))
    case Ok(claims) =>
      if claims.role != Buyer then Reject(s, Unauthorized, "Unauthorized")
      else
        match UserById(s, claims.userId)
        case None => Reject(s, NotFound, "User not found")
        case Some(user) =>
          WhereCount(s.carts, InCart(s, user.id));
          if |Snapshot(s, user.id)| == 0 then Reject(s, NotFound, "Cart is empty")
          else Proceed(s, user, DraftOf(s, user.id), OrderNo(orderRandom), TransactionRef(txnRandom, now), gateway, corrected)
  }

  /** The service as written. */
  function InitiateOrderAsWritten(env: Env, s: Store, header: Option<string>, orderRandom: string, txnRandom: string,
                                  now: nat, gateway: GatewayRequest -> GatewayReply): (r: Step<Placement>)
    ensures r.result.Err?
  {
    PlaceOrder(env, s, header, orderRandom, txnRandom, now, gateway, false)
  }

  /** The service with the buyer's profile read with its user and the
      order linked to its transaction. */
  function InitiateOrder(env: Env, s: Store, header: Option<string>, orderRandom: string, txnRandom: string,
                         now: nat, gateway: GatewayRequest -> GatewayReply): (r: Step<Placement>)
    ensures r.result.Ok? ==> r.result.value.orderId == s.nextId
  {
    PlaceOrder(env, s, header, orderRandom, txnRandom, now, gateway, true)
  }

  /** The facts the lemmas below share about a request that passes the
      gates: a buyer with a user row and at least one available line. */
  predicate CanCheckOut(env: Env, s: Store, header: Option<string>)
  {
    IsBuyer(env, s, header) && UserById(s, Caller(env, s, header)).Some? &&
    Count(s.carts, InCart(s, Caller(env, s, header))) > 0
  }

  function Purchaser(env: Env, s: Store, header: Option<string>): (u: User)
    requires CanCheckOut(env, s, header)
    ensures u.id == Caller(env, s, header)
  {
    UserById(s, Caller(env, s, header)).value
  }

  /** The request the gateway receives: the order total (already in minor
      units, the source's `amount * 100`), the buyer's email, and the
      reference of the transaction just saved. */
  function RequestFor(d: Draft, user: User, ref: string): GatewayRequest
  {
    GatewayRequest(d.total, user.email, ref)
  }

  /** A request that passes the gates is handled by `Proceed`. */
  lemma PlaceOrderProceeds(env: Env, s: Store, header: Option<string>, orderRandom: string, txnRandom: string,
                           now: nat, gateway: GatewayRequest -> GatewayReply, corrected: bool)
    requires CanCheckOut(env, s, header)
    ensures PlaceOrder(env, s, header, orderRandom, txnRandom, now, gateway, corrected) ==
      Proceed(s, Purchaser(env, s, header), DraftOf(s, Caller(env, s, header)), OrderNo(orderRandom),
              TransactionRef(txnRandom, now), gateway, corrected)
  {
    WhereCount(s.carts, InCart(s, Caller(env, s, header)));
  }

  lemma RollbackOrders(s: Store, o: Order)
    requires forall i :: 0 <= i < |s.orders| ==> s.orders[i].id < s.nextId
    requires o.id == s.nextId
    ensures Delete(s.orders + [o], OrderIdIs(s.nextId)) == s.orders
  {
    DeleteFresh(s.orders, [o], OrderIdIs(s.nextId));
  }

  lemma RollbackLines(s: Store, added: seq<OrderLine>)
    requires forall i :: 0 <= i < |s.orderLines| ==> s.orderLines[i].order < s.nextId
    requires forall k :: 0 <= k < |added| ==> added[k].order == s.nextId
    ensures Delete(s.orderLines + added, LineOfOrder(s.nextId)) == s.orderLines
  {
    DeleteFresh(s.orderLines, added, LineOfOrder(s.nextId));
  }

  lemma RollbackAddresses(s: Store, a: OrderAddress)
    requires forall i :: 0 <= i < |s.orderAddresses| ==> s.orderAddresses[i].id < s.nextId
    requires a.id == s.nextId + 1
    ensures Delete(s.orderAddresses + [a], OrderAddressId(s.nextId + 1)) == s.orderAddresses
  {
    DeleteFresh(s.orderAddresses, [a], OrderAddressId(s.nextId + 1));
  }

  lemma RollbackLinks(s: Store, added: seq<OrderTransaction>)
    requires forall i :: 0 <= i < |s.orderTransactions| ==> s.orderTransactions[i].order < s.nextId
    requires forall k :: 0 <= k < |added| ==> added[k].order == s.nextId
    ensures Delete(s.orderTransactions + added, LinkOfOrder(s.nextId)) == s.orderTransactions
  {
    DeleteFresh(s.orderTransactions, added, LinkOfOrder(s.nextId));
  }

  /** What staging appends to each order table. */
  lemma StageAppends(s: Store, user: Id, entries: seq<Entry>, total: Money, description: string,
                     orderNo: string, ref: string, corrected: bool)
    ensures var t := Stage(s, user, entries, total, description, orderNo, ref, corrected);
      var oid := s.nextId;
      var tid := oid + 2 + |entries|;
      t.orders == s.orders + [Order(oid, orderNo, user, total, description, PendingPaymentConfirmation)] &&
      t.orderLines == s.orderLines + OrderLinesFor(entries, oid, oid + 2, corrected) &&
      t.orderAddresses == s.orderAddresses + [OrderAddress(oid + 1, oid, DefaultAddressId(s, user))] &&
      t.orderTransactions == s.orderTransactions + (if corrected then [OrderTransaction(tid + 1, oid, tid)] else []) &&
      t.transactions == s.transactions + [Transaction(tid, ref, total, Pending, user)]
  {
  }

  /** The rollback removes exactly what staging added to the order tables;
      the transaction row and the id counter stay advanced. */
  lemma RollbackUndoesStage(s: Store, user: Id, entries: seq<Entry>, total: Money, description: string,
                            orderNo: string, ref: string, corrected: bool)
    requires IdsIssued(s)
    ensures var t := Stage(s, user, entries, total, description, orderNo, ref, corrected);
      var back := Rollback(t, s.nextId, s.nextId + 1);
      back.orders == s.orders && back.orderLines == s.orderLines &&
      back.orderAddresses == s.orderAddresses && back.orderTransactions == s.orderTransactions &&
      back.transactions == s.transactions + [Transaction(s.nextId + 2 + |entries|, ref, total, Pending, user)] &&
      back.carts == s.carts
  {
    var oid := s.nextId;
    var tid := oid + 2 + |entries|;
    StageAppends(s, user, entries, total, description, orderNo, ref, corrected);
    RollbackRemovesAppended(s, Stage(s, user, entries, total, description, orderNo, ref, corrected),
                            Order(oid, orderNo, user, total, description, PendingPaymentConfirmation),
                            OrderLinesFor(entries, oid, oid + 2, corrected),
                            OrderAddress(oid + 1, oid, DefaultAddressId(s, user)),
                            if corrected then [OrderTransaction(tid + 1, oid, tid)] else []);
  }

  /** Deleting by the new order's id removes rows appended for it and
      nothing older. */
  lemma RollbackRemovesAppended(s: Store, t: Store, order: Order, lines: seq<OrderLine>,
                                address: OrderAddress, links: seq<OrderTransaction>)
    requires IdsIssued(s)
    requires order.id == s.nextId && address.id == s.nextId + 1
    requires forall k :: 0 <= k < |lines| ==> lines[k].order == s.nextId
    requires forall k :: 0 <= k < |links| ==> links[k].order == s.nextId
    requires t.orders == s.orders + [order] && t.orderLines == s.orderLines + lines
    requires t.orderAddresses == s.orderAddresses + [address] && t.orderTransactions == s.orderTransactions + links
    ensures var back := Rollback(t, s.nextId, s.nextId + 1);
      back.orders == s.orders && back.orderLines == s.orderLines &&
      back.orderAddresses == s.orderAddresses && back.orderTransactions == s.orderTransactions
  {
    RollbackOrders(s, order);
    RollbackLines(s, lines);
    RollbackAddresses(s, address);
    RollbackLinks(s, links);
  }

  /** When the gateway declines, no order, line, address or link survives
      and the cart is untouched; only the pending transaction remains. */
  lemma GatewayDeclineLeavesNoOrder(s: Store, user: User, d: Draft, orderNo: string, ref: string,
                                    gateway: GatewayRequest -> GatewayReply, corrected: bool)
    requires IdsIssued(s)
    requires gateway(RequestFor(d, user, ref)).Declined?
    ensures var r := Proceed(s, user, d, orderNo, ref, gateway, corrected);
      r.result == Fail(BadRequest, PaymentFailed) &&
      r.store.orders == s.orders && r.store.orderLines == s.orderLines &&
      r.store.orderAddresses == s.orderAddresses && r.store.orderTransactions == s.orderTransactions &&
      r.store.carts == s.carts &&
      |r.store.transactions| == |s.transactions| + 1 &&
      r.store.transactions[|s.transactions|].status == Pending &&
      r.store.transactions[|s.transactions|].ref == ref
  {
    RollbackUndoesStage(s, user.id, d.entries, d.total, d.description, orderNo, ref, corrected);
  }

  /** As written, placing an order never succeeds: when the gateway accepts,
      the buyer's cart lines are deleted, then reading
      `userprofile.user.emailAddress` throws because the relation was not
      loaded, and the rollback removes the order. */
  lemma AsWrittenAuthorizedCheckoutLosesCart(s: Store, user: User, orderNo: string, ref: string,
                                             gateway: GatewayRequest -> GatewayReply)
    requires IdsIssued(s)
    requires gateway(RequestFor(DraftOf(s, user.id), user, ref)).Authorized?
    ensures var r := Proceed(s, user, DraftOf(s, user.id), orderNo, ref, gateway, false);
      r.result == Fail(BadRequest, PaymentFailed) &&
      r.store.orders == s.orders && r.store.orderLines == s.orderLines &&
      Count(r.store.carts, InCart(s, user.id)) == 0
  {
    var d := DraftOf(s, user.id);
    RollbackUndoesStage(s, user.id, d.entries, d.total, d.description, orderNo, ref, false);
    NoneLeft(s.carts, d.lines, InCart(s, user.id));
  }

  /** The same through the service: whenever the buyer had something to
      check out and the gateway accepted, the cart is gone and no order
      exists. */
  lemma AsWrittenInitiateOrderLosesCart(env: Env, s: Store, header: Option<string>, orderRandom: string, txnRandom: string,
                                        now: nat, gateway: GatewayRequest -> GatewayReply)
    requires IdsIssued(s)
    requires CanCheckOut(env, s, header)
    requires gateway(RequestFor(DraftOf(s, Caller(env, s, header)), Purchaser(env, s, header), TransactionRef(txnRandom, now))).Authorized?
    ensures var r := InitiateOrderAsWritten(env, s, header, orderRandom, txnRandom, now, gateway);
      var u := Caller(env, s, header);
      r.result.Err? && r.store.orders == s.orders &&
      Count(s.carts, InCart(s, u)) > 0 && Count(r.store.carts, InCart(s, u)) == 0
  {
    PlaceOrderProceeds(env, s, header, orderRandom, txnRandom, now, gateway, false);
    AsWrittenAuthorizedCheckoutLosesCart(s, Purchaser(env, s, header), OrderNo(orderRandom), TransactionRef(txnRandom, now), gateway);
  }

  /** A row of `rows` that `p` selects is among `Where(rows, p)`. */
  lemma WhereMember<T>(rows: seq<T>, p: T -> bool, x: T)
    requires x in rows
    ensures p(x) ==> x in Where(rows, p)
  {
    var m :| 0 <= m < |rows| && rows[m] == x;
  }

  lemma IdsOfMember(lines: seq<CartLine>, x: CartLine)
    ensures x in lines ==> x.id in IdsOf(lines)
  {
    if x in lines {
      var k :| 0 <= k < |lines| && lines[k] == x;
    }
  }

  /** Deleting by the ids of every row `p` selects leaves no row `p` selects. */
  lemma NoneLeft(rows: seq<CartLine>, lines: seq<CartLine>, p: CartLine -> bool)
    requires lines == Where(rows, p)
    ensures Count(Delete(rows, CartIdIn(IdsOf(lines))), p) == 0
  {
    var kept := Delete(rows, CartIdIn(IdsOf(lines)));
    forall i | 0 <= i < |kept| ensures !p(kept[i]) {
      WhereMember(rows, p, kept[i]);
      IdsOfMember(lines, kept[i]);
    }
    CountNone(kept, p);
  }

  lemma {:induction false} CountNone(rows: seq<CartLine>, p: CartLine -> bool)
    requires forall i :: 0 <= i < |rows| ==> !p(rows[i])
    ensures Count(rows, p) == 0
    decreases |rows|
  {
    if |rows| > 0 {
      CountNone(rows[1..], p);
    }
  }

  /** The corrected service: when the gateway accepts and the buyer has a
      profile, the order is created pending with the cart's value and
      description, one line per distinct product at its current price, a
      pending transaction for the same amount linked to it, and the cart
      lines consumed. */
  lemma CorrectedCheckoutPlacesOrder(s: Store, user: User, orderNo: string, ref: string,
                                     gateway: GatewayRequest -> GatewayReply)
    requires |Snapshot(s, user.id)| > 0
    requires gateway(RequestFor(DraftOf(s, user.id), user, ref)).Authorized?
    requires ProfileOf(s, user.id).Some?
    ensures var r := Proceed(s, user, DraftOf(s, user.id), orderNo, ref, gateway, true);
      r.result == Ok(Placement(gateway(RequestFor(DraftOf(s, user.id), user, ref)).url, s.nextId))
    ensures Proceed(s, user, DraftOf(s, user.id), orderNo, ref, gateway, true).store ==
      Stage(s, user.id, Collect(EntriesOf(s, Snapshot(s, user.id))), CartValue(s, user.id),
            Join(Pieces(EntriesOf(s, Snapshot(s, user.id))), ", "), orderNo, ref, true)
        .(carts := Delete(s.carts, CartIdIn(IdsOf(Snapshot(s, user.id)))))
    ensures RequestFor(DraftOf(s, user.id), user, ref).amount == CartValue(s, user.id)
    ensures Count(Proceed(s, user, DraftOf(s, user.id), orderNo, ref, gateway, true).store.carts, InCart(s, user.id)) == 0
  {
    var lines := Snapshot(s, user.id);
    var items := EntriesOf(s, lines);
    SumWhere(s.carts, InCart(s, user.id), LineValue(s));
    assert Description(items) == Join(Pieces(items), ", ");
    NoneLeft(s.carts, lines, InCart(s, user.id));
  }

  /** A product id of the map has an entry at some position. */
  lemma KeyAt(entries: seq<Entry>, id: Id) returns (k: nat)
    requires id in KeySet(entries)
    ensures k < |entries| && entries[k].product.id == id
  {
    var x :| x in entries && x.product.id == id;
    k :| 0 <= k < |entries| && entries[k] == x;
  }

  /** Every product of the checked-out lines gets exactly one order line,
      and no product gets a line it was not in the cart for. */
  lemma OneOrderLinePerProduct(s: Store, lines: seq<CartLine>, order: Id, base: nat, priced: bool)
    requires forall i :: 0 <= i < |lines| ==> LineProduct(s, lines[i]).Some?
    ensures var created := OrderLinesFor(Collect(EntriesOf(s, lines)), order, base, priced);
      (forall i, j :: 0 <= i < j < |created| ==> created[i].product != created[j].product) &&
      (forall i :: 0 <= i < |lines| ==> exists k :: 0 <= k < |created| && created[k].product == lines[i].product) &&
      (forall k :: 0 <= k < |created| ==> exists i :: 0 <= i < |lines| && created[k].product == lines[i].product)
  {
    var items := EntriesOf(s, lines);
    var entries := Collect(items);
    var created := OrderLinesFor(entries, order, base, priced);
    assert KeysDistinct(entries);
    forall i, j | 0 <= i < j < |created| ensures created[i].product != created[j].product {
      assert created[i].product == entries[i].product.id && created[j].product == entries[j].product.id;
    }
    forall i | 0 <= i < |lines|
      ensures exists k :: 0 <= k < |created| && created[k].product == lines[i].product
    {
      var k := KeyAt(entries, items[i].product.id);
      assert created[k].product == lines[i].product;
    }
    forall k | 0 <= k < |created|
      ensures exists i :: 0 <= i < |lines| && created[k].product == lines[i].product
    {
      var i := KeyAt(items, entries[k].product.id);
      assert created[k].product == lines[i].product;
    }
  }
}
