/**
 * `CoreService`, the older service the application module still wires in:
 * cart operations that find the existing line by product alone, a cancel
 * without the withdrawal branch, the same fulfilment chain behind an
 * administrator-only gate, and two order views whose gates compare the
 * whole token object with `0`.
 *
 * Its profile lookups load no relations, so every method that ends by
 * e-mailing `userprofile.user.emailAddress` throws after its write: the
 * write persists and the reply is an error.
 */
module Legacy {
  import opened Common
  import opened Entities
  import opened Tables
  import opened Storage
  import opened Carts
  import opened Fulfilment

  /** Selects any line for `product`, whoever holds it. */
  function LineForProduct(product: Id): CartLine -> bool
  {
    (l: CartLine) => l.product == product
  }

  /** The line the legacy operations act on: the first one for the product. */
  function LegacyLine(s: Store, productId: Id): Option<CartLine>
  {
    Find(s.carts, LineForProduct(productId))
  }

  const TypeErrorOnUser: string := "Cannot read properties of undefined (reading 'emailAddress')"

  /** `addToCart(productId)`: no availability check, and any user's line
      for the product blocks the insert. A missing user row leaves the
      line's user null, which the table refuses. */
  function LegacyAddToCart(env: Env, s: Store, header: Option<string>, productId: Id): (r: Step<string>)
    ensures r.result.Ok? <==>
      IsBuyer(env, s, header) && ProductById(s, productId).Some? && LegacyLine(s, productId).None? &&
      UserById(s, Caller(env, s, header)).Some?
    ensures r.result.Ok? ==>
      r.store == s.(carts := s.carts + [CartLine(s.nextId, Caller(env, s, header), productId, 1)], nextId := s.nextId + 1)
    ensures r.result.Err? ==> r.store == s
    ensures IsBuyer(env, s, header) && ProductById(s, productId).Some? && LegacyLine(s, productId).Some? ==>
      r.result == Fail(BadRequest, "Product Exists in Cart")
  {
    match Authenticate(env, s, header)
    case Err(e) => Step(s, Err(e))
    case Ok(claims) =>
      if claims.role != Buyer then Reject(s, Unauthorized, "Unathorized")
      else
        var user := UserById(s, claims.userId);
        match ProductById(s, productId)
        case None => Reject(s, NotFound, "Product not found")
        case Some(product) =>
          if LegacyLine(s, product.id).Some? then Reject(s, BadRequest, "Product Exists in Cart")
          else if user.None? then Reject(s, Internal, "Column 'userId' cannot be null")
          else
            var (id, s1) := Fresh(s);
            Step(s1.(carts := s.carts + [CartLine(id, user.value.id, product.id, 1)]), Ok("Product added to cart"))
  }

  /** Increase and decrease of the legacy service: the first line for the
      product, whoever holds it, moves by `delta`. */
  function LegacyAdjust(env: Env, s: Store, header: Option<string>, productId: Id, delta: int, message: string): (r: Step<string>)
    ensures r.result.Ok? <==> IsBuyer(env, s, header) && ProductById(s, productId).Some? && LegacyLine(s, productId).Some?
    ensures r.result.Ok? ==>
      r.store == s.(carts := Update(s.carts, CartId(LegacyLine(s, productId).value.id), Bump(delta)))
    ensures r.result.Err? ==> r.store == s
  {
    match Authenticate(env, s, header)
    case Err(e) => Step(s, Err(e))
    case Ok(claims) =>
      if claims.role != Buyer then Reject(s, Unauthorized, "Unathorized")
      else
        match ProductById(s, productId)
        case None => Reject(s, NotFound, "Product not found")
        case Some(product) =>
          match LegacyLine(s, product.id)
          case None => Reject(s, BadRequest, "Product does not exist in Cart")
          case Some(line) => Step(s.(carts := Update(s.carts, CartId(line.id), Bump(delta))), Ok(message))
  }

  function LegacyIncrease(env: Env, s: Store, header: Option<string>, productId: Id): Step<string>
  {
    LegacyAdjust(env, s, header, productId, 1, "Product added to cart")
  }

  function LegacyDecrease(env: Env, s: Store, header: Option<string>, productId: Id): Step<string>
  {
    LegacyAdjust(env, s, header, productId, -1, "Product removed from cart")
  }

  /** `removeProductFromCart(productId)`: deletes the first line for the
      product, whoever holds it. */
  function LegacyRemove(env: Env, s: Store, header: Option<string>, productId: Id): (r: Step<string>)
    ensures r.result.Ok? <==> IsBuyer(env, s, header) && ProductById(s, productId).Some? && LegacyLine(s, productId).Some?
    ensures r.result.Ok? ==> r.store == s.(carts := Delete(s.carts, CartId(LegacyLine(s, productId).value.id)))
    ensures r.result.Err? ==> r.store == s
  {
    match Authenticate(env, s, header)
    case Err(e) => Step(s, Err(e))
    case Ok(claims) =>
      if claims.role != Buyer then Reject(s, Unauthorized, "Unathorized")
      else
        match ProductById(s, productId)
        case None => Reject(s, NotFound, "Product not found")
        case Some(product) =>
          match LegacyLine(s, product.id)
          case None => Reject(s, BadRequest, "Product does not exist in Cart")
          case Some(line) => Step(s.(carts := Delete(s.carts, CartId(line.id))), Ok("Product removed from cart"))
  }

  /** One buyer's line for a product blocks every other buyer: the legacy
      service refuses a second buyer the product the cart service would
      add. */
  lemma LegacyCartIsShared(env: Env, s: Store, header: Option<string>, productId: Id, other: Id)
    requires IsBuyer(env, s, header) && UserById(s, Caller(env, s, header)).Some?
    requires AvailableProductById(s, productId).Some?
    requires other != Caller(env, s, header)
    requires s.carts == [CartLine(0, other, productId, 1)]
    ensures AddToCart(env, s, header, productId).result.Ok?
    ensures LegacyAddToCart(env, s, header, productId).result == Fail(BadRequest, "Product Exists in Cart")
  {
    assert AvailableProductById(s, productId).value.id == productId;
    assert ProductById(s, productId).Some?;
  }

  /** The legacy increase moves the first line for the product even when
      it belongs to someone else, leaving the caller's own line as it was. */
  lemma LegacyIncreaseHitsFirstHolder(env: Env, s: Store, header: Option<string>, productId: Id, other: Id)
    requires IsBuyer(env, s, header) && ProductById(s, productId).Some?
    requires other != Caller(env, s, header)
    requires s.carts == [CartLine(0, other, productId, 1), CartLine(1, Caller(env, s, header), productId, 4)]
    ensures var r := LegacyIncrease(env, s, header, productId);
      r.result.Ok? &&
      r.store.carts == [CartLine(0, other, productId, 2), CartLine(1, Caller(env, s, header), productId, 4)]
  {
    assert LegacyLine(s, productId) == Some(s.carts[0]);
    var updated := Update(s.carts, CartId(0), Bump(1));
    assert updated[0] == CartLine(0, other, productId, 2);
    assert updated[1] == s.carts[1];
  }

  /** Every line for `productId` belongs to `user`. */
  ghost predicate SoleHolder(s: Store, user: Id, productId: Id)
  {
    forall i :: 0 <= i < |s.carts| && s.carts[i].product == productId ==> s.carts[i].user == user
  }

  /** When `user` is the only holder, the first line for the product is
      that user's line. */
  lemma SoleHolderLine(s: Store, user: Id, productId: Id)
    requires SoleHolder(s, user, productId)
    ensures LegacyLine(s, productId) == Find(s.carts, LineOf(user, productId))
  {
    FindIndexAgrees(s.carts, LineForProduct(productId), LineOf(user, productId));
  }

  /** Where no other user holds the product, the legacy add of an
      available product replies and writes as `CartService.addToCart`. */
  lemma LegacyAddAgrees(env: Env, s: Store, header: Option<string>, productId: Id)
    requires IsBuyer(env, s, header) && UserById(s, Caller(env, s, header)).Some?
    requires AvailableProductById(s, productId).Some?
    requires SoleHolder(s, Caller(env, s, header), productId)
    ensures LegacyAddToCart(env, s, header, productId) == AddToCart(env, s, header, productId)
  {
    SoleHolderLine(s, Caller(env, s, header), productId);
    assert ProductById(s, productId).Some?;
  }

  /** Where no other user holds the product, the legacy increase of an
      available product is `CartService`'s. */
  lemma LegacyIncreaseAgrees(env: Env, s: Store, header: Option<string>, productId: Id)
    requires IsBuyer(env, s, header) && UserById(s, Caller(env, s, header)).Some?
    requires AvailableProductById(s, productId).Some?
    requires SoleHolder(s, Caller(env, s, header), productId)
    ensures LegacyIncrease(env, s, header, productId) == IncreaseQuantity(env, s, header, productId)
  {
    SoleHolderLine(s, Caller(env, s, header), productId);
    assert ProductById(s, productId).Some?;
  }

  /** Where no other user holds the product, the legacy decrease is
      `CartService`'s. */
  lemma LegacyDecreaseAgrees(env: Env, s: Store, header: Option<string>, productId: Id)
    requires IsBuyer(env, s, header) && UserById(s, Caller(env, s, header)).Some?
    requires SoleHolder(s, Caller(env, s, header), productId)
    ensures LegacyDecrease(env, s, header, productId) == DecreaseQuantity(env, s, header, productId)
  {
    SoleHolderLine(s, Caller(env, s, header), productId);
  }

  /** Where no other user holds the product, the legacy removal is
      `CartService`'s. */
  lemma LegacyRemoveAgrees(env: Env, s: Store, header: Option<string>, productId: Id)
    requires IsBuyer(env, s, header) && UserById(s, Caller(env, s, header)).Some?
    requires SoleHolder(s, Caller(env, s, header), productId)
    ensures LegacyRemove(env, s, header, productId) == RemoveFromCart(env, s, header, productId)
  {
    SoleHolderLine(s, Caller(env, s, header), productId);
  }

  /** When another user's line for the product comes first, the legacy
      adjustment moves that line and leaves every line of the caller as
      it was. */
  lemma LegacyAdjustHitsOtherHolder(env: Env, s: Store, header: Option<string>, productId: Id,
                                    delta: int, message: string)
    requires CartIdsDistinct(s.carts)
    requires IsBuyer(env, s, header) && ProductById(s, productId).Some?
    requires FindIndex(s.carts, LineForProduct(productId)).Some?
    requires s.carts[FindIndex(s.carts, LineForProduct(productId)).value].user != Caller(env, s, header)
    ensures var k := FindIndex(s.carts, LineForProduct(productId)).value;
      var r := LegacyAdjust(env, s, header, productId, delta, message);
      r.result.Ok? && |r.store.carts| == |s.carts| &&
      r.store.carts[k] == s.carts[k].(quantity := s.carts[k].quantity + delta) &&
      forall j :: 0 <= j < |s.carts| && s.carts[j].user == Caller(env, s, header) ==> r.store.carts[j] == s.carts[j]
  {
    var k := FindIndex(s.carts, LineForProduct(productId)).value;
    assert LegacyLine(s, productId) == Some(s.carts[k]);
    assert ProductById(s, productId).value.id == productId;
  }

  /** When another user's line for the product comes first, the legacy
      removal deletes that line and keeps every line of the caller. */
  lemma LegacyRemoveHitsOtherHolder(env: Env, s: Store, header: Option<string>, productId: Id)
    requires CartIdsDistinct(s.carts)
    requires IsBuyer(env, s, header) && ProductById(s, productId).Some?
    requires FindIndex(s.carts, LineForProduct(productId)).Some?
    requires s.carts[FindIndex(s.carts, LineForProduct(productId)).value].user != Caller(env, s, header)
    ensures var k := FindIndex(s.carts, LineForProduct(productId)).value;
      var r := LegacyRemove(env, s, header, productId);
      r.result.Ok? && s.carts[k] !in r.store.carts &&
      forall j :: 0 <= j < |s.carts| && s.carts[j].user == Caller(env, s, header) ==> s.carts[j] in r.store.carts
  {
    var k := FindIndex(s.carts, LineForProduct(productId)).value;
    assert LegacyLine(s, productId) == Some(s.carts[k]);
    assert ProductById(s, productId).value.id == productId;
  }

  /** `cancelOrder(orderId)`: a pending or paid order becomes cancelled,
      and then the reply fails on the unloaded profile relation. */
  function LegacyCancel(env: Env, s: Store, header: Option<string>, orderId: Id): (r: Step<string>)
    ensures r.result.Err?
    ensures (IsBuyerCaller(env, s, header) && ProfileOf(s, Authenticate(env, s, header).value.userId).Some? &&
             OrderById(s, orderId).Some? && Cancellable(OrderById(s, orderId).value.status)) ==>
      r.store == SetOrderStatus(s, OrderById(s, orderId).value.id, Cancelled) && r.result.error.kind == Internal
    ensures !(IsBuyerCaller(env, s, header) && ProfileOf(s, Authenticate(env, s, header).value.userId).Some? &&
              OrderById(s, orderId).Some? && Cancellable(OrderById(s, orderId).value.status)) ==>
      r.store == s
    ensures OrderById(s, orderId).Some? && !Cancellable(OrderById(s, orderId).value.status) &&
            IsBuyerCaller(env, s, header) && ProfileOf(s, Authenticate(env, s, header).value.userId).Some? ==>
      r.result == Fail(BadRequest, "Order not pending/payment completed")
  {
    match Authenticate(env, s, header)
    case Err(e) => Step(s, Err(e))
    case Ok(claims) =>
      if claims.role != Buyer then Reject(s, Unauthorized, "Unathorized")
      else if ProfileOf(s, claims.userId).None? then Reject(s, Unauthorized, "Unauthorized")
      else match OrderById(s, orderId)
        case None => Reject(s, NotFound, "Order not found")
        case Some(order) =>
          if !Cancellable(order.status) then Reject(s, BadRequest, "Order not pending/payment completed")
          else Step(SetOrderStatus(s, order.id, Cancelled), Fail(Internal, TypeErrorOnUser))
  }

  /** Both services cancel the same orders, leave the same store and
      refuse for the same kind of reason; where the order service replies
      `Order Cancelled`, the legacy one fails after its write. */
  lemma CancelAgreesWithOrderService(env: Env, s: Store, header: Option<string>, orderId: Id)
    ensures LegacyCancel(env, s, header, orderId).store == CancelOrder(env, s, header, orderId, "payment").store
    ensures CancelOrder(env, s, header, orderId, "payment").result.Ok? ==>
      LegacyCancel(env, s, header, orderId).result.error.kind == Internal
    ensures CancelOrder(env, s, header, orderId, "payment").result.Err? ==>
      LegacyCancel(env, s, header, orderId).result.error.kind == CancelOrder(env, s, header, orderId, "payment").result.error.kind
  {
  }

  /** The administrator-only gate of the legacy transitions. */
  predicate IsAdmin(env: Env, s: Store, header: Option<string>)
  {
    var auth := Authenticate(env, s, header);
    auth.Ok? && auth.value.role == Admin
  }

  /** `updateOrderto*` of the legacy service: role 1 only, the same chain,
      and after the write a failure on the unloaded profile relation. */
  function LegacyAdvance(env: Env, s: Store, header: Option<string>, orderId: Id, m: Milestone): (r: Step<string>)
    ensures r.result.Err?
    ensures !IsAdmin(env, s, header) ==> r.store == s && r.result.error.kind == Unauthorized
    ensures IsAdmin(env, s, header) && ProfileOf(s, Authenticate(env, s, header).value.userId).Some? ==>
      r.store == Progress(s, orderId, m).store &&
      (Progress(s, orderId, m).result.Ok? ==> r.result.error.kind == Internal)
  {
    match Authenticate(env, s, header)
    case Err(e) => Step(s, Err(e))
    case Ok(claims) =>
      if claims.role != Admin then Reject(s, Unauthorized, "Unathorized")
      else if ProfileOf(s, claims.userId).None? then Reject(s, Unauthorized, "Unauthorized")
      else
        var r := Progress(s, orderId, m);
        if r.result.Ok? then Step(r.store, Fail(Internal, TypeErrorOnUser)) else r
  }

  /** For an administrator the two services write the same store: the
      legacy chain is the order service's, its replies are errors. A staff
      member (role 3) is accepted only by the order service. */
  lemma LegacyAdvanceAgrees(env: Env, s: Store, header: Option<string>, orderId: Id, m: Milestone)
    ensures IsAdmin(env, s, header) ==>
      LegacyAdvance(env, s, header, orderId, m).store == Advance(env, s, header, orderId, m).store
    ensures var auth := Authenticate(env, s, header);
      auth.Ok? && auth.value.role == Staff ==> LegacyAdvance(env, s, header, orderId, m) == Reject(s, Unauthorized, "Unathorized")
  {
  }

  /** Some line of the order is for a product with picture links. */
  ghost predicate OrderShowsPictures(s: Store, orderId: Id)
  {
    exists i, j :: 0 <= i < |s.orderLines| && 0 <= j < |s.productPictures| &&
      s.orderLines[i].order == orderId && s.productPictures[j].product == s.orderLines[i].product
  }

  /** `getOrder(orderId)`: the gate `type != 1 && isTokenValid != 0`
      compares the token object with `0`, which is always unequal, so only
      role 1 passes. Past the lookup, the picture links are read without
      their `picture` relation, so an order with a pictured product fails
      on `picture.picture.url`; any other order fails later, on the order
      address: a missing row is `null`, and a row's `address` relation is
      not loaded. */
  function LegacyGetOrder(env: Env, s: Store, header: Option<string>, orderId: Id): (r: Step<string>)
    ensures r.store == s && r.result.Err?
    ensures !IsAdmin(env, s, header) ==> r.result.error.kind == Unauthorized
    ensures IsAdmin(env, s, header) ==> r.result.error.kind == (if OrderById(s, orderId).None? then NotFound else Internal)
    ensures IsAdmin(env, s, header) && OrderById(s, orderId).Some? ==>
      r.result.error.message ==
        if OrderShowsPictures(s, orderId) then UrlOfUndefined
        else if forall k :: 0 <= k < |s.orderAddresses| ==> s.orderAddresses[k].order != orderId then AddressOfNull
        else AddressOfUndefined
  {
    match Authenticate(env, s, header)
    case Err(e) => Step(s, Err(e))
    case Ok(claims) =>
      // the second conjunct, the claims object compared loosely with 0, always holds
      if claims.role != Admin then Reject(s, Unauthorized, "Unathorized")
      else if OrderById(s, orderId).None? then Reject(s, NotFound, "Order not found")
      else if exists i, j :: 0 <= i < |s.orderLines| && 0 <= j < |s.productPictures| &&
                s.orderLines[i].order == orderId && s.productPictures[j].product == s.orderLines[i].product then
        Reject(s, Internal, UrlOfUndefined)
      else if Find(s.orderAddresses, AddressOfOrder(orderId)).None? then Reject(s, Internal, AddressOfNull)
      else Reject(s, Internal, AddressOfUndefined)
  }

  const UrlOfUndefined: string := "Cannot read properties of undefined (reading 'url')"
  const AddressOfUndefined: string := "Cannot read properties of undefined (reading 'address')"
  const AddressOfNull: string := "Cannot read properties of null (reading 'address')"

  /** `getUserOrders(query)`: the gate `isTokenValid != 0` holds for every
      token, so no one gets past it. */
  function LegacyGetUserOrders(env: Env, s: Store, header: Option<string>): (r: Step<string>)
    ensures r.store == s && r.result.Err? && r.result.error.kind == Unauthorized
    ensures Authenticate(env, s, header).Ok? ==> r.result == Fail(Unauthorized, "Unathorized")
  {
    match Authenticate(env, s, header)
    case Err(e) => Step(s, Err(e))
    // the claims object compared loosely with 0 is always unequal
    case Ok(_) => Reject(s, Unauthorized, "Unathorized")
  }
}
