/**
 * `OrderService.getOrders` and `getNewOrders`: a seller's (or staff
 * member's) view of the orders that contain their products, built from the
 * order lines, one page at a time.
 *
 * The loop is meant to show each order once, but it collects the ids to
 * skip with `orders.map((order) => order.id)` from entries that only carry
 * `orderId`; the list of ids is all `undefined` and nothing is ever
 * skipped. `dedupe` selects between that code (`false`) and the evidently
 * intended loop (`true`).
 */
module Listing {
  import opened Common
  import opened Entities
  import opened Tables
  import opened Storage
  import opened Paging
  import opened Carts
  import opened Fulfilment

  datatype OrderSummary = OrderSummary(orderId: Id, orderNo: string, description: string, totalAmount: Money,
                                       status: OrderStatus, nextAction: string, pictureUrl: Option<Id>)

  /** The `data` of the reply. `total` is reported as `totalAddresses`. */
  datatype OrderPage = OrderPage(orders: seq<OrderSummary>, currentPage: int, totalPages: nat, total: nat)

  /** `getOrders` lists orders being fulfilled; `getNewOrders` lists paid
      orders waiting to be packed. */
  datatype View = InFulfilment | NewOrders

  predicate Shown(view: View, status: OrderStatus)
  {
    match view
    case InFulfilment => status != PaymentCompleted && status != Cancelled && status != PendingPaymentConfirmation
    case NewOrders => status == PaymentCompleted
  }

  function ActionFor(view: View, status: OrderStatus): string
  {
    match view
    case InFulfilment => NextAction(status)
    case NewOrders => "updateToPackaging"
  }

  /** The order lines the query selects: the order exists in a status the
      view shows, and the product exists and belongs to `seller`. */
  function SellerLine(s: Store, seller: Id, view: View): OrderLine -> bool
  {
    (l: OrderLine) =>
      OrderById(s, l.order).Some? && Shown(view, OrderById(s, l.order).value.status) &&
      ProductById(s, l.product).Some? && ProductById(s, l.product).value.owner == Some(seller)
  }

  predicate OrdersExist(s: Store, lines: seq<OrderLine>)
  {
    forall i :: 0 <= i < |lines| ==> OrderById(s, lines[i].order).Some?
  }

  /** The entry for one line: its order's data, the view's hint, and the
      first picture of the line's product. */
  function Summary(s: Store, l: OrderLine, view: View): (r: Result<OrderSummary>)
    requires OrderById(s, l.order).Some?
    ensures r.Ok? ==> r.value.orderId == l.order
    ensures r.Ok? ==> r.value.status == OrderById(s, l.order).value.status
    ensures r.Ok? ==> r.value.nextAction == ActionFor(view, r.value.status)
    ensures r.Ok? <==> ProductPictures(s, l.product).Ok?
  {
    var order := OrderById(s, l.order).value;
    assert order.id == l.order;
    match ProductPictures(s, l.product)
    case Err(e) => Err(e)
    case Ok(ids) =>
      Ok(OrderSummary(order.id, order.orderNo, order.description, order.totalAmount, order.status,
                      ActionFor(view, order.status), if |ids| > 0 then Some(ids[0]) else None))
  }

  function OrderIdsOf(entries: seq<OrderSummary>): set<Id>
  {
    set i | 0 <= i < |entries| :: entries[i].orderId
  }

  function OrdersOf(lines: seq<OrderLine>): set<Id>
  {
    set i | 0 <= i < |lines| :: lines[i].order
  }

  lemma OrderIdsOfAppend(entries: seq<OrderSummary>, x: OrderSummary)
    ensures OrderIdsOf(entries + [x]) == OrderIdsOf(entries) + {x.orderId}
  {
    var e := entries + [x];
    assert e[|entries|] == x;
    forall id | id in OrderIdsOf(entries) ensures id in OrderIdsOf(e) {
      var i :| 0 <= i < |entries| && entries[i].orderId == id;
      assert e[i] == entries[i];
    }
  }

  lemma OrdersOfSplit(lines: seq<OrderLine>)
    requires |lines| > 0
    ensures OrdersOf(lines) == OrdersOf(lines[..|lines| - 1]) + {lines[|lines| - 1].order}
  {
    var init := lines[..|lines| - 1];
    forall id | id in OrdersOf(init) ensures id in OrdersOf(lines) {
      var i :| 0 <= i < |init| && init[i].order == id;
      assert lines[i] == init[i];
    }
  }

  /** The `for … of` loop over a page of lines; the first picture failure
      ends the call. */
  function Summaries(s: Store, lines: seq<OrderLine>, view: View, dedupe: bool): (r: Result<seq<OrderSummary>>)
    requires OrdersExist(s, lines)
    ensures r.Ok? && !dedupe ==> |r.value| == |lines| && forall i :: 0 <= i < |lines| ==> r.value[i].orderId == lines[i].order
    ensures r.Err? ==> r.error.kind == Internal
    decreases |lines|
  {
    if |lines| == 0 then Ok([])
    else
      var init := lines[..|lines| - 1];
      var last := lines[|lines| - 1];
      InitOrdersExist(s, lines);
      match Summaries(s, init, view, dedupe)
      case Err(e) => Err(e)
      case Ok(prev) =>
        if dedupe && last.order in OrderIdsOf(prev) then Ok(prev)
        else match Summary(s, last, view)
          case Err(e) => Err(e)
          case Ok(x) =>
            if dedupe then Ok(prev + [x])
            else
              LinesAppended(prev, x, lines);
              Ok(prev + [x])
  }

  /** The loop finishes when every line's product pictures resolve. */
  lemma {:induction false} SummariesSucceed(s: Store, lines: seq<OrderLine>, view: View, dedupe: bool)
    requires OrdersExist(s, lines)
    ensures (forall i :: 0 <= i < |lines| ==> ProductPictures(s, lines[i].product).Ok?) ==>
      Summaries(s, lines, view, dedupe).Ok?
    decreases |lines|
  {
    if |lines| > 0 && forall i :: 0 <= i < |lines| ==> ProductPictures(s, lines[i].product).Ok? {
      var init := lines[..|lines| - 1];
      var last := lines[|lines| - 1];
      InitOrdersExist(s, lines);
      assert forall i :: 0 <= i < |init| ==> init[i] == lines[i];
      SummariesSucceed(s, init, view, dedupe);
      assert Summary(s, last, view).Ok?;
    }
  }

  /** Without de-duplication every line is summarised, so the loop
      finishes only when every line's product pictures resolve. */
  lemma SummariesNeedPictures(s: Store, lines: seq<OrderLine>, view: View)
    requires OrdersExist(s, lines)
    ensures Summaries(s, lines, view, false).Ok? ==>
      forall i :: 0 <= i < |lines| ==> ProductPictures(s, lines[i].product).Ok?
  {
    forall i | 0 <= i < |lines| ensures Summaries(s, lines, view, false).Ok? ==> ProductPictures(s, lines[i].product).Ok? {
      SummariesNeedLine(s, lines, view, i);
    }
  }

  /** Line `i` of a page whose loop finished without de-duplication has
      resolving product pictures. */
  lemma {:induction false} SummariesNeedLine(s: Store, lines: seq<OrderLine>, view: View, i: nat)
    requires OrdersExist(s, lines) && i < |lines|
    ensures Summaries(s, lines, view, false).Ok? ==> ProductPictures(s, lines[i].product).Ok?
    decreases |lines|
  {
    SummariesStep(s, lines, view);
    if i < |lines| - 1 {
      var init := lines[..|lines| - 1];
      SummariesNeedLine(s, init, view, i);
      assert init[i] == lines[i];
    }
  }

  /** Without de-duplication the loop over a page finishes only if it
      finished on all but the last line and the last line's entry was
      built. */
  lemma SummariesStep(s: Store, lines: seq<OrderLine>, view: View)
    requires |lines| > 0 && OrdersExist(s, lines)
    ensures OrdersExist(s, lines[..|lines| - 1]) && OrderById(s, lines[|lines| - 1].order).Some?
    ensures Summaries(s, lines, view, false).Ok? ==>
      Summaries(s, lines[..|lines| - 1], view, false).Ok? && Summary(s, lines[|lines| - 1], view).Ok?
  {
    InitOrdersExist(s, lines);
  }

  /** One entry per line, in line order, survives appending the last one. */
  lemma LinesAppended(prev: seq<OrderSummary>, x: OrderSummary, lines: seq<OrderLine>)
    requires |lines| > 0 && |prev| == |lines| - 1
    requires forall i :: 0 <= i < |prev| ==> prev[i].orderId == lines[..|lines| - 1][i].order
    requires x.orderId == lines[|lines| - 1].order
    ensures forall i :: 0 <= i < |lines| ==> (prev + [x])[i].orderId == lines[i].order
  {
    forall i | 0 <= i < |lines| ensures (prev + [x])[i].orderId == lines[i].order {
      if i < |prev| {
        assert lines[..|lines| - 1][i] == lines[i];
      }
    }
  }

  lemma InitOrdersExist(s: Store, lines: seq<OrderLine>)
    requires |lines| > 0 && OrdersExist(s, lines)
    ensures OrdersExist(s, lines[..|lines| - 1])
  {
    var init := lines[..|lines| - 1];
    forall i | 0 <= i < |init| ensures OrderById(s, init[i].order).Some? {
      assert init[i] == lines[i];
    }
  }

  /** The loop lists the orders of exactly the lines it was given. */
  lemma {:induction false} SummariesCoverLines(s: Store, lines: seq<OrderLine>, view: View, dedupe: bool)
    requires OrdersExist(s, lines)
    requires Summaries(s, lines, view, dedupe).Ok?
    ensures OrderIdsOf(Summaries(s, lines, view, dedupe).value) == OrdersOf(lines)
    decreases |lines|
  {
    if |lines| > 0 {
      var init := lines[..|lines| - 1];
      var last := lines[|lines| - 1];
      InitOrdersExist(s, lines);
      OrdersOfSplit(lines);
      SummariesCoverLines(s, init, view, dedupe);
      var prev := Summaries(s, init, view, dedupe).value;
      if !(dedupe && last.order in OrderIdsOf(prev)) {
        var x := Summary(s, last, view).value;
        OrderIdsOfAppend(prev, x);
      }
    }
  }

  /** Every entry reports its order's current status with the view's hint. */
  lemma {:induction false} SummariesFaithful(s: Store, lines: seq<OrderLine>, view: View, dedupe: bool)
    requires OrdersExist(s, lines)
    requires Summaries(s, lines, view, dedupe).Ok?
    ensures var r := Summaries(s, lines, view, dedupe).value;
      forall i :: 0 <= i < |r| ==>
        OrderById(s, r[i].orderId).Some? && r[i].status == OrderById(s, r[i].orderId).value.status &&
        r[i].nextAction == ActionFor(view, r[i].status)
    decreases |lines|
  {
    if |lines| > 0 {
      var init := lines[..|lines| - 1];
      InitOrdersExist(s, lines);
      SummariesFaithful(s, init, view, dedupe);
    }
  }

  /** With the intended loop no order is listed twice. */
  lemma {:induction false} SummariesDistinct(s: Store, lines: seq<OrderLine>, view: View)
    requires OrdersExist(s, lines)
    requires Summaries(s, lines, view, true).Ok?
    ensures var r := Summaries(s, lines, view, true).value;
      forall i, j :: 0 <= i < j < |r| ==> r[i].orderId != r[j].orderId
    decreases |lines|
  {
    if |lines| > 0 {
      var init := lines[..|lines| - 1];
      var last := lines[|lines| - 1];
      InitOrdersExist(s, lines);
      SummariesDistinct(s, init, view);
      var prev := Summaries(s, init, view, true).value;
      if last.order !in OrderIdsOf(prev) {
        var x := Summary(s, last, view).value;
        var r := prev + [x];
        forall i | 0 <= i < |prev| ensures r[i].orderId != x.orderId {
          assert prev[i].orderId in OrderIdsOf(prev);
        }
      }
    }
  }

  predicate IsSellerSide(env: Env, s: Store, header: Option<string>)
  {
    var auth := Authenticate(env, s, header);
    auth.Ok? && (auth.value.role == Staff || auth.value.role == Admin)
  }

  /** The lines behind the listing of `seller`, before paging. */
  function ListedLines(s: Store, seller: Id, view: View): (lines: seq<OrderLine>)
    ensures OrdersExist(s, lines)
    ensures forall i :: 0 <= i < |lines| ==> SellerLine(s, seller, view)(lines[i])
  {
    Where(s.orderLines, SellerLine(s, seller, view))
  }

  /** `getOrders(query)` (`view == InFulfilment`) and `getNewOrders(query)`
      (`view == NewOrders`). `currentPage` echoes `query.page ?? 0`. */
  function GetOrders(env: Env, s: Store, header: Option<string>, page: Option<int>, size: Option<int>,
                     view: View, dedupe: bool): (r: Step<OrderPage>)
    ensures r.store == s
    ensures !IsSellerSide(env, s, header) ==> r.result.Err? && r.result.error.kind == Unauthorized
    ensures r.result.Ok? ==>
      IsSellerSide(env, s, header) &&
      var lines := ListedLines(s, Authenticate(env, s, header).value.userId, view);
      r.result.value.total == |lines| &&
      r.result.value.totalPages == TotalPages(|lines|, Paginate(page, size).take) &&
      OrdersExist(s, Slice(lines, Paginate(page, size))) &&
      Summaries(s, Slice(lines, Paginate(page, size)), view, dedupe) == Ok(r.result.value.orders)
    ensures IsSellerSide(env, s, header) ==>
      var lines := ListedLines(s, Authenticate(env, s, header).value.userId, view);
      OrdersExist(s, Slice(lines, Paginate(page, size))) &&
      (r.result.Ok? <==> Summaries(s, Slice(lines, Paginate(page, size)), view, dedupe).Ok?)
    ensures r.result.Ok? ==> r.result.value.currentPage == if page.Some? then page.value else 0
  {
    match Authenticate(env, s, header)
    case Err(e) => Step(s, Err(e))
    case Ok(claims) =>
      if claims.role != Staff && claims.role != Admin then Reject(s, Unauthorized, "Unathorized")
      else
        var w := Paginate(page, size);
        var lines := ListedLines(s, claims.userId, view);
        var window := Slice(lines, w);
        assert OrdersExist(s, window);
        match Summaries(s, window, view, dedupe)
        case Err(e) => Step(s, Err(e))
        case Ok(orders) =>
          Step(s, Ok(OrderPage(orders, if page.Some? then page.value else 0, TotalPages(|lines|, w.take), |lines|)))
  }

  /** A staff member or administrator gets a page whenever the product
      pictures of the page's lines resolve; without de-duplication, only
      then. */
  lemma ListingProduced(env: Env, s: Store, header: Option<string>, page: Option<int>, size: Option<int>,
                        view: View, dedupe: bool)
    requires IsSellerSide(env, s, header)
    ensures var window := Slice(ListedLines(s, Authenticate(env, s, header).value.userId, view), Paginate(page, size));
      (forall i :: 0 <= i < |window| ==> ProductPictures(s, window[i].product).Ok?) ==>
        GetOrders(env, s, header, page, size, view, dedupe).result.Ok?
    ensures var window := Slice(ListedLines(s, Authenticate(env, s, header).value.userId, view), Paginate(page, size));
      !dedupe ==>
        (GetOrders(env, s, header, page, size, view, dedupe).result.Ok? <==>
         forall i :: 0 <= i < |window| ==> ProductPictures(s, window[i].product).Ok?)
  {
    var window := Slice(ListedLines(s, Authenticate(env, s, header).value.userId, view), Paginate(page, size));
    assert OrdersExist(s, window);
    SummariesSucceed(s, window, view, dedupe);
    SummariesNeedPictures(s, window, view);
  }

  /** A listing shows only orders in the statuses its view is for, each
      with its current status and the view's hint, and it shows every order
      that one of the page's lines belongs to. */
  lemma ListingShowsOnlyView(env: Env, s: Store, header: Option<string>, page: Option<int>, size: Option<int>,
                             view: View, dedupe: bool)
    requires GetOrders(env, s, header, page, size, view, dedupe).result.Ok?
    ensures var orders := GetOrders(env, s, header, page, size, view, dedupe).result.value.orders;
      var lines := ListedLines(s, Authenticate(env, s, header).value.userId, view);
      OrderIdsOf(orders) == OrdersOf(Slice(lines, Paginate(page, size))) &&
      forall i :: 0 <= i < |orders| ==>
        Shown(view, orders[i].status) && orders[i].nextAction == ActionFor(view, orders[i].status)
  {
    var seller := Authenticate(env, s, header).value.userId;
    var lines := ListedLines(s, seller, view);
    var window := Slice(lines, Paginate(page, size));
    assert forall k :: 0 <= k < |window| ==> SellerLine(s, seller, view)(window[k]);
    SummariesShowOnlyView(s, seller, window, view, dedupe);
  }

  /** The entries built from lines of `seller`'s listing are for exactly
      those lines' orders, each in a status the view shows. */
  lemma SummariesShowOnlyView(s: Store, seller: Id, window: seq<OrderLine>, view: View, dedupe: bool)
    requires OrdersExist(s, window)
    requires forall k :: 0 <= k < |window| ==> SellerLine(s, seller, view)(window[k])
    requires Summaries(s, window, view, dedupe).Ok?
    ensures var orders := Summaries(s, window, view, dedupe).value;
      OrderIdsOf(orders) == OrdersOf(window) &&
      forall i :: 0 <= i < |orders| ==>
        Shown(view, orders[i].status) && orders[i].nextAction == ActionFor(view, orders[i].status)
  {
    var orders := Summaries(s, window, view, dedupe).value;
    SummariesCoverLines(s, window, view, dedupe);
    SummariesFaithful(s, window, view, dedupe);
    forall i | 0 <= i < |orders| ensures Shown(view, orders[i].status) {
      assert orders[i].orderId in OrdersOf(window);
      var k :| 0 <= k < |window| && window[k].order == orders[i].orderId;
      assert SellerLine(s, seller, view)(window[k]);
    }
  }

  /** As written, an order with several of the seller's products shows up
      once per line: two lines of one packed order give two entries for the
      same order, where the intended loop gives one. */
  lemma AsWrittenRepeatsOrders()
    ensures var s := Store([], [], [], {}, {}, [Product(5, "lamp", 1000, "", true, Some(9)), Product(6, "rug", 500, "", true, Some(9))],
                           [], [], [], [], [Order(1, "BuyTrek-a", 7, 2500, "2 x lamp, 1 x rug", Packaging)],
                           [OrderLine(2, 1, 5, 2, None), OrderLine(3, 1, 6, 1, None)], [], [], [], Auth.EmptyCache, 4);
      var asWritten := Summaries(s, s.orderLines, InFulfilment, false);
      var intended := Summaries(s, s.orderLines, InFulfilment, true);
      asWritten.Ok? && |asWritten.value| == 2 && asWritten.value[0].orderId == asWritten.value[1].orderId &&
      intended.Ok? && |intended.value| == 1
  {
    var s := Store([], [], [], {}, {}, [Product(5, "lamp", 1000, "", true, Some(9)), Product(6, "rug", 500, "", true, Some(9))],
                   [], [], [], [], [Order(1, "BuyTrek-a", 7, 2500, "2 x lamp, 1 x rug", Packaging)],
                   [OrderLine(2, 1, 5, 2, None), OrderLine(3, 1, 6, 1, None)], [], [], [], Auth.EmptyCache, 4);
    var lines := s.orderLines;
    assert OrderById(s, 1) == Some(s.orders[0]);
    assert ProductPictures(s, 5) == Ok([]) && ProductPictures(s, 6) == Ok([]);
    assert lines[..1][..0] == [] && lines[..1] == [lines[0]] && lines[..|lines| - 1] == lines[..1];
    var x0 := Summary(s, lines[0], InFulfilment).value;
    var x1 := Summary(s, lines[1], InFulfilment).value;
    assert Summary(s, lines[0], InFulfilment) == Ok(x0) && Summary(s, lines[1], InFulfilment) == Ok(x1);
    assert OrderIdsOf([]) == {};
    assert Summaries(s, [], InFulfilment, true) == Ok([]) && Summaries(s, [], InFulfilment, false) == Ok([]);
    assert Summaries(s, lines[..1], InFulfilment, true) == Ok([] + [x0]);
    assert Summaries(s, lines[..1], InFulfilment, false) == Ok([] + [x0]);
    assert [] + [x0] == [x0] && x0.orderId == 1 && lines[|lines| - 1].order == 1;
    assert 1 in OrderIdsOf([x0]);
    assert Summaries(s, lines, InFulfilment, true) == Ok([x0]);
    assert Summaries(s, lines, InFulfilment, false) == Ok([x0] + [x1]);
  }

  /** With the intended loop each listed order appears exactly once, and
      every order the page's lines belong to is listed. */
  lemma IntendedListsEachOrderOnce(s: Store, lines: seq<OrderLine>, view: View)
    requires OrdersExist(s, lines)
    requires Summaries(s, lines, view, true).Ok?
    ensures var orders := Summaries(s, lines, view, true).value;
      (forall i, j :: 0 <= i < j < |orders| ==> orders[i].orderId != orders[j].orderId) &&
      (forall k :: 0 <= k < |lines| ==> exists i :: 0 <= i < |orders| && orders[i].orderId == lines[k].order) &&
      |orders| <= |lines|
  {
    var orders := Summaries(s, lines, view, true).value;
    SummariesDistinct(s, lines, view);
    SummariesCoverLines(s, lines, view, true);
    forall k | 0 <= k < |lines| ensures exists i :: 0 <= i < |orders| && orders[i].orderId == lines[k].order {
      assert lines[k].order in OrdersOf(lines);
    }
    DistinctIdsBound(orders, lines);
  }

  /** Entries with distinct order ids number at most the distinct orders of
      the lines, and so at most the lines. */
  lemma {:induction false} DistinctIdsBound(orders: seq<OrderSummary>, lines: seq<OrderLine>)
    requires forall i, j :: 0 <= i < j < |orders| ==> orders[i].orderId != orders[j].orderId
    requires OrderIdsOf(orders) == OrdersOf(lines)
    ensures |orders| <= |lines|
  {
    IdsCardinality(orders);
    LinesCardinality(lines);
  }

  lemma {:induction false} IdsCardinality(orders: seq<OrderSummary>)
    requires forall i, j :: 0 <= i < j < |orders| ==> orders[i].orderId != orders[j].orderId
    ensures |OrderIdsOf(orders)| == |orders|
    decreases |orders|
  {
    if |orders| > 0 {
      var init := orders[..|orders| - 1];
      var last := orders[|orders| - 1];
      IdsCardinality(init);
      assert init + [last] == orders;
      OrderIdsOfAppend(init, last);
      assert last.orderId !in OrderIdsOf(init) by {
        forall i | 0 <= i < |init| ensures init[i].orderId != last.orderId {
          assert init[i] == orders[i];
        }
      }
    }
  }

  lemma {:induction false} LinesCardinality(lines: seq<OrderLine>)
    ensures |OrdersOf(lines)| <= |lines|
    decreases |lines|
  {
    if |lines| > 0 {
      LinesCardinality(lines[..|lines| - 1]);
      OrdersOfSplit(lines);
    }
  }

  /** The reported page count is the number of pages holding rows. */
  lemma PageCountExact(env: Env, s: Store, header: Option<string>, page: Option<int>, size: Option<int>,
                       view: View, dedupe: bool, p: nat)
    requires GetOrders(env, s, header, page, size, view, dedupe).result.Ok?
    ensures var reply := GetOrders(env, s, header, page, size, view, dedupe).result.value;
      p < reply.totalPages <==> p * Paginate(page, size).take < reply.total
  {
    TotalPagesExact(GetOrders(env, s, header, page, size, view, dedupe).result.value.total, Paginate(page, size).take, p);
  }
}
