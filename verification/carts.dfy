/**
 * `CartService`: a buyer's cart holds one line per product with a quantity.
 * Lines are found by the pair (user, product).
 */
module Carts {
  import opened Common
  import opened Entities
  import opened Tables
  import opened Auth
  import opened Storage

  /** Selects the line of `user` for `product`. */
  function LineOf(user: Id, product: Id): CartLine -> bool
  {
    (l: CartLine) => l.user == user && l.product == product
  }

  /** Selects rows by primary key. */
  function CartId(id: Id): CartLine -> bool
  {
    (l: CartLine) => l.id == id
  }

  function Bump(delta: int): CartLine -> CartLine
  {
    (l: CartLine) => l.(quantity := l.quantity + delta)
  }

  /** No user holds two lines for the same product. */
  ghost predicate PairsUnique(carts: seq<CartLine>)
  {
    forall i, j :: 0 <= i < j < |carts| ==>
      !(carts[i].user == carts[j].user && carts[i].product == carts[j].product)
  }

  /** Cart rows have distinct primary keys. */
  ghost predicate CartIdsDistinct(carts: seq<CartLine>)
  {
    forall i, j :: 0 <= i < j < |carts| ==> carts[i].id != carts[j].id
  }

  /** The token's claims when it validates and names a buyer. */
  predicate IsBuyer(env: Env, s: Store, header: Option<string>)
  {
    var auth := Authenticate(env, s, header);
    auth.Ok? && auth.value.role == Buyer
  }

  /** The caller of a request whose token validated. */
  function Caller(env: Env, s: Store, header: Option<string>): Id
    requires Authenticate(env, s, header).Ok?
  {
    Authenticate(env, s, header).value.userId
  }

  /** `addToCart(productId)`. */
  function AddToCart(env: Env, s: Store, header: Option<string>, productId: Id): (r: Step<string>)
    ensures r.result.Ok? <==>
      IsBuyer(env, s, header) && UserById(s, Caller(env, s, header)).Some? &&
      AvailableProductById(s, productId).Some? &&
      Find(s.carts, LineOf(Caller(env, s, header), productId)).None?
    ensures r.result.Ok? ==>
      r.store == s.(carts := s.carts + [CartLine(s.nextId, Caller(env, s, header), productId, 1)], nextId := s.nextId + 1)
    ensures r.result.Err? ==> r.store == s
    ensures !IsBuyer(env, s, header) ==> r.result.Err? && r.result.error.kind == Unauthorized
    ensures IsBuyer(env, s, header) && AvailableProductById(s, productId).None? ==>
      r.result.Err? && r.result.error.kind == NotFound
    ensures IsBuyer(env, s, header) && AvailableProductById(s, productId).Some? &&
            UserById(s, Caller(env, s, header)).None? ==>
      r.result.Err? && r.result.error.kind == Internal
    ensures IsBuyer(env, s, header) && AvailableProductById(s, productId).Some? &&
            UserById(s, Caller(env, s, header)).Some? &&
            Find(s.carts, LineOf(Caller(env, s, header), productId)).Some? ==>
      r.result == Fail(BadRequest, "Product Exists in Cart")
  {
    match Authenticate(env, s, header)
    case Err(e) => Step(s, Err(e))
    case Ok(claims) =>
      if claims.role != Buyer then Reject(s, Unauthorized, "Unathorized")
      else
        var user := UserById(s, claims.userId);
        match AvailableProductById(s, productId)
        case None => Reject(s, NotFound, "Product not found")
        case Some(product) =>
          // `user.id` on a missing user is a TypeError
          if user.None? then Reject(s, Internal, "Cannot read properties of null (reading 'id')")
          else if Find(s.carts, LineOf(user.value.id, product.id)).Some? then
            Reject(s, BadRequest, "Product Exists in Cart")
          else
            var (id, s1) := Fresh(s);
            Step(s1.(carts := s.carts + [CartLine(id, user.value.id, product.id, 1)]), Ok("Product added to cart"))
  }

  /** What increase and decrease share: the caller must be a buyer with a
      user row, the product must be found by `findProduct`, and the caller's
      line for it must exist; that line's quantity moves by `delta`. */
  function Adjust(env: Env, s: Store, header: Option<string>, product: Option<Product>, delta: int, message: string): (r: Step<string>)
  {
    match Authenticate(env, s, header)
    case Err(e) => Step(s, Err(e))
    case Ok(claims) =>
      if claims.role != Buyer then Reject(s, Unauthorized, "Unathorized")
      else if UserById(s, claims.userId).None? then Reject(s, NotFound, "User not Found")
      else if product.None? then Reject(s, NotFound, "Product not found")
      else
        match Find(s.carts, LineOf(claims.userId, product.value.id))
        case None => Reject(s, BadRequest, "Product does not exist in Cart")
        case Some(line) =>
          Step(s.(carts := Update(s.carts, CartId(line.id), Bump(delta))), Ok(message))
  }

  /** The precondition shared by increase, decrease and remove. */
  predicate LineReachable(env: Env, s: Store, header: Option<string>, product: Option<Product>)
  {
    IsBuyer(env, s, header) && UserById(s, Caller(env, s, header)).Some? &&
    product.Some? && Find(s.carts, LineOf(Caller(env, s, header), product.value.id)).Some?
  }

  /** `increaseProductQuantityInCart(productId)`: the product must be
      available; the caller's line gains exactly one unit. */
  function IncreaseQuantity(env: Env, s: Store, header: Option<string>, productId: Id): (r: Step<string>)
    ensures var product := AvailableProductById(s, productId);
      r.result.Ok? <==> LineReachable(env, s, header, product)
    ensures r.result.Err? ==> r.store == s
    ensures r.result.Ok? ==>
      var line := Find(s.carts, LineOf(Caller(env, s, header), productId)).value;
      r.store == s.(carts := Update(s.carts, CartId(line.id), Bump(1)))
  {
    Adjust(env, s, header, AvailableProductById(s, productId), 1, "Product added to cart")
  }

  /** `decreaseProductQuantityInCart(productId)`: availability is not
      required and there is no lower bound on the quantity. */
  function DecreaseQuantity(env: Env, s: Store, header: Option<string>, productId: Id): (r: Step<string>)
    ensures var product := ProductById(s, productId);
      r.result.Ok? <==> LineReachable(env, s, header, product)
    ensures r.result.Err? ==> r.store == s
    ensures r.result.Ok? ==>
      var line := Find(s.carts, LineOf(Caller(env, s, header), productId)).value;
      r.store == s.(carts := Update(s.carts, CartId(line.id), Bump(-1)))
  {
    Adjust(env, s, header, ProductById(s, productId), -1, "Product removed from cart")
  }

  /** `removeProductFromCart(productId)`. */
  function RemoveFromCart(env: Env, s: Store, header: Option<string>, productId: Id): (r: Step<string>)
    ensures r.result.Ok? <==> LineReachable(env, s, header, ProductById(s, productId))
    ensures r.result.Err? ==> r.store == s
    ensures LineReachable(env, s, header, ProductById(s, productId)) ==>
      var line := Find(s.carts, LineOf(Caller(env, s, header), productId)).value;
      r.store == s.(carts := Delete(s.carts, CartId(line.id)))
    ensures (IsBuyer(env, s, header) && UserById(s, Caller(env, s, header)).Some? && ProductById(s, productId).Some? &&
             Find(s.carts, LineOf(Caller(env, s, header), productId)).None?) ==>
      r.result == Fail(BadRequest, "Product does not exist in Cart")
  {
    match Authenticate(env, s, header)
    case Err(e) => Step(s, Err(e))
    case Ok(claims) =>
      if claims.role != Buyer then Reject(s, Unauthorized, "Unathorized")
      else if UserById(s, claims.userId).None? then Reject(s, NotFound, "User not Found")
      else
        match ProductById(s, productId)
        case None => Reject(s, NotFound, "Product not found")
        case Some(product) =>
          match Find(s.carts, LineOf(claims.userId, product.id))
          case None => Reject(s, BadRequest, "Product does not exist in Cart")
          case Some(line) => Step(s.(carts := Delete(s.carts, CartId(line.id))), Ok("Product removed from cart"))
  }

  /** The product a cart line joins to. */
  function LineProduct(s: Store, l: CartLine): Option<Product>
  {
    ProductById(s, l.product)
  }

  /** Selects the lines `getCart` and `initiateOrder` read for `user`: the
      user's lines whose product exists and is available. */
  function InCart(s: Store, user: Id): CartLine -> bool
  {
    (l: CartLine) => l.user == user && LineProduct(s, l).Some? && LineProduct(s, l).value.isAvailable
  }

  /** `quantity * product.amount` for one line. */
  function LineValue(s: Store): CartLine -> int
  {
    (l: CartLine) => if LineProduct(s, l).Some? then l.quantity * LineProduct(s, l).value.amount else 0
  }

  /** Reference value of a user's cart: every line of the table counted
      when it belongs to the user and its product is available. */
  function CartValue(s: Store, user: Id): Money
  {
    Sum(s.carts, Masked(InCart(s, user), LineValue(s)))
  }

  datatype CartItem = CartItem(productId: Id, name: string, quantity: int, amount: Money,
                               productTotalAmount: Money, description: string, pictures: seq<Id>)

  datatype CartView = CartView(items: seq<CartItem>, totalAmount: Money)

  /** `productpictures` rows of a product, resolved to picture ids; a link
      whose picture is missing makes `picture.picture.url` throw. */
  function PictureIds(links: seq<ProductPicture>): (r: Result<seq<Id>>)
    ensures r.Ok? <==> forall i :: 0 <= i < |links| ==> links[i].picture.Some?
    ensures r.Ok? ==> |r.value| == |links| && forall i :: 0 <= i < |links| ==> r.value[i] == links[i].picture.value
    ensures r.Err? ==> r.error.kind == Internal
    decreases |links|
  {
    if |links| == 0 then Ok([])
    else if links[0].picture.None? then Fail(Internal, "Cannot read properties of null (reading 'url')")
    else match PictureIds(links[1..])
      case Err(e) => Err(e)
      case Ok(rest) => Ok([links[0].picture.value] + rest)
  }

  function ProductPictures(s: Store, product: Id): Result<seq<Id>>
  {
    PictureIds(Where(s.productPictures, PictureLinkOf(product)))
  }

  /** The basket `getCart` builds, one item per line in table order. */
  function Items(s: Store, lines: seq<CartLine>): (r: Result<seq<CartItem>>)
    requires forall i :: 0 <= i < |lines| ==> LineProduct(s, lines[i]).Some?
    ensures r.Ok? ==> |r.value| == |lines|
    ensures r.Ok? ==> forall i :: 0 <= i < |lines| ==>
      r.value[i].productId == lines[i].product && r.value[i].quantity == lines[i].quantity &&
      r.value[i].productTotalAmount == LineValue(s)(lines[i])
    ensures r.Err? ==> r.error.kind == Internal
    decreases |lines|
  {
    if |lines| == 0 then Ok([])
    else
      var p := LineProduct(s, lines[0]).value;
      match ProductPictures(s, p.id)
      case Err(e) => Err(e)
      case Ok(pictures) =>
        match Items(s, lines[1..])
        case Err(e) => Err(e)
        case Ok(rest) =>
          var item := CartItem(p.id, p.name, lines[0].quantity, p.amount, lines[0].quantity * p.amount, p.description, pictures);
          Ok([item] + rest)
  }

  /** The basket is built exactly when every line's product pictures
      resolve. */
  lemma {:induction false} ItemsBuiltExactly(s: Store, lines: seq<CartLine>)
    requires forall i :: 0 <= i < |lines| ==> LineProduct(s, lines[i]).Some?
    ensures Items(s, lines).Ok? <==> forall i :: 0 <= i < |lines| ==> ProductPictures(s, lines[i].product).Ok?
    decreases |lines|
  {
    if |lines| > 0 {
      ItemsBuiltExactly(s, lines[1..]);
      assert LineProduct(s, lines[0]).value.id == lines[0].product;
      assert forall i :: 1 <= i < |lines| ==> lines[1..][i - 1] == lines[i];
    }
  }

  /** Each item shows its line's product as stored, with the product's
      pictures. */
  lemma {:induction false} ItemsShowProducts(s: Store, lines: seq<CartLine>)
    requires forall i :: 0 <= i < |lines| ==> LineProduct(s, lines[i]).Some?
    requires Items(s, lines).Ok?
    ensures forall i :: 0 <= i < |lines| ==>
      var item := Items(s, lines).value[i];
      var p := LineProduct(s, lines[i]).value;
      item.name == p.name && item.amount == p.amount && item.description == p.description &&
      ProductPictures(s, lines[i].product) == Ok(item.pictures)
    decreases |lines|
  {
    if |lines| > 0 {
      ItemsShowProducts(s, lines[1..]);
      assert LineProduct(s, lines[0]).value.id == lines[0].product;
      assert Items(s, lines).value[1..] == Items(s, lines[1..]).value;
    }
  }

  function ItemTotal(): CartItem -> int
  {
    (i: CartItem) => i.productTotalAmount
  }

  /** `getCart()`: reads only; the total is the cart's value. */
  function GetCart(env: Env, s: Store, header: Option<string>): (r: Step<CartView>)
    ensures r.store == s
    ensures !IsBuyer(env, s, header) ==> r.result.Err? && r.result.error.kind == Unauthorized
    ensures r.result.Ok? ==>
      IsBuyer(env, s, header) &&
      r.result.value.totalAmount == CartValue(s, Caller(env, s, header)) &&
      |r.result.value.items| == Count(s.carts, InCart(s, Caller(env, s, header))) > 0
    ensures r.result.Ok? ==>
      var lines := Where(s.carts, InCart(s, Caller(env, s, header)));
      var items := r.result.value.items;
      |items| == |lines| &&
      forall i :: 0 <= i < |lines| ==>
        items[i].productId == lines[i].product && items[i].quantity == lines[i].quantity &&
        items[i].productTotalAmount == LineValue(s)(lines[i]) &&
        ProductPictures(s, lines[i].product) == Ok(items[i].pictures)
    ensures IsBuyer(env, s, header) && UserById(s, Caller(env, s, header)).None? ==>
      r.result == Fail(NotFound, "User not Found")
    ensures IsBuyer(env, s, header) && UserById(s, Caller(env, s, header)).Some? ==>
      var lines := Where(s.carts, InCart(s, Caller(env, s, header)));
      (r.result.Ok? <==> |lines| > 0 && forall i :: 0 <= i < |lines| ==> ProductPictures(s, lines[i].product).Ok?)
    ensures (IsBuyer(env, s, header) && UserById(s, Caller(env, s, header)).Some? &&
             Count(s.carts, InCart(s, Caller(env, s, header))) == 0) ==>
      r.result == Fail(NotFound, "Cart is Empty")
  {
    match Authenticate(env, s, header)
    case Err(e) => Step(s, Err(e))
    case Ok(claims) =>
      if claims.role != Buyer then Reject(s, Unauthorized, "Unathorized")
      else if UserById(s, claims.userId).None? then Reject(s, NotFound, "User not Found")
      else
        var lines := Where(s.carts, InCart(s, claims.userId));
        WhereCount(s.carts, InCart(s, claims.userId));
        if |lines| == 0 then Reject(s, NotFound, "Cart is Empty")
        else
          ItemsBuiltExactly(s, lines);
          match Items(s, lines)
          case Err(e) => Step(s, Err(e))
          case Ok(items) =>
            ItemsTotal(s, lines);
            ItemsShowProducts(s, lines);
            SumWhere(s.carts, InCart(s, claims.userId), LineValue(s));
            Step(s, Ok(CartView(items, Sum(items, ItemTotal()))))
  }

  /** The basket's total is the sum of the lines' values. */
  lemma {:induction false} ItemsTotal(s: Store, lines: seq<CartLine>)
    requires forall i :: 0 <= i < |lines| ==> LineProduct(s, lines[i]).Some?
    requires Items(s, lines).Ok?
    ensures Sum(Items(s, lines).value, ItemTotal()) == Sum(lines, LineValue(s))
    decreases |lines|
  {
    if |lines| > 0 {
      var items := Items(s, lines).value;
      ItemsTotal(s, lines[1..]);
      assert items[1..] == Items(s, lines[1..]).value;
    }
  }

  /** `addToCart` never creates a second line for a (user, product) pair. */
  lemma AddToCartKeepsPairsUnique(env: Env, s: Store, header: Option<string>, productId: Id)
    requires PairsUnique(s.carts)
    ensures PairsUnique(AddToCart(env, s, header, productId).store.carts)
  {
    var r := AddToCart(env, s, header, productId);
    if r.result.Ok? {
      var u := Caller(env, s, header);
      var c := r.store.carts;
      assert c == s.carts + [CartLine(s.nextId, u, productId, 1)];
      forall i, j | 0 <= i < j < |c|
        ensures !(c[i].user == c[j].user && c[i].product == c[j].product)
      {
        if j == |s.carts| {
          assert !LineOf(u, productId)(s.carts[i]);
        }
      }
    }
  }

  /** Raising a quantity and then lowering it gives back the store as it was. */
  lemma IncreaseThenDecrease(env: Env, s: Store, header: Option<string>, productId: Id)
    requires IncreaseQuantity(env, s, header, productId).result.Ok?
    ensures var s1 := IncreaseQuantity(env, s, header, productId).store;
      DecreaseQuantity(env, s1, header, productId) == Step(s, Ok("Product removed from cart"))
  {
    var p := AvailableProductById(s, productId).value;
    var s1 := IncreaseQuantity(env, s, header, productId).store;
    assert p.id == productId;
    AdjustRoundTrip(env, s, header, p, "Product added to cart", "Product removed from cart");
    assert ProductById(s1, productId).Some? && ProductById(s1, productId).value.id == productId;
  }

  /** Moving the caller's line for a product up by one and then down by one
      gives back the store; the second step may name the product through
      another row with the same id. */
  lemma AdjustRoundTrip(env: Env, s: Store, header: Option<string>, p: Product, up: string, down: string)
    requires Adjust(env, s, header, Some(p), 1, up).result.Ok?
    ensures forall q: Product :: q.id == p.id ==>
      Adjust(env, Adjust(env, s, header, Some(p), 1, up).store, header, Some(q), -1, down) == Step(s, Ok(down))
  {
    var u := Caller(env, s, header);
    var idx := FindIndex(s.carts, LineOf(u, p.id)).value;
    var line := s.carts[idx];
    var raised := Update(s.carts, CartId(line.id), Bump(1));
    var s1 := s.(carts := raised);
    assert Adjust(env, s, header, Some(p), 1, up).store == s1;
    FindIndexAfterUpdate(s.carts, CartId(line.id), Bump(1), LineOf(u, p.id));
    UpdateInverse(s.carts, CartId(line.id), Bump(1), Bump(-1));
    forall q: Product | q.id == p.id
      ensures Adjust(env, s1, header, Some(q), -1, down) == Step(s, Ok(down))
    {
      AdjustFound(env, s1, header, q, -1, down, raised[idx]);
    }
  }

  /** A buyer's adjustment of a line that is found moves exactly that line. */
  lemma AdjustFound(env: Env, s: Store, header: Option<string>, product: Product, delta: int, message: string,
                    line: CartLine)
    requires IsBuyer(env, s, header) && UserById(s, Caller(env, s, header)).Some?
    requires Find(s.carts, LineOf(Caller(env, s, header), product.id)) == Some(line)
    ensures Adjust(env, s, header, Some(product), delta, message) ==
      Step(s.(carts := Update(s.carts, CartId(line.id), Bump(delta))), Ok(message))
  {
  }

  /** Adding a product and then removing it gives back the cart table. */
  lemma AddThenRemove(env: Env, s: Store, header: Option<string>, productId: Id)
    requires IdsIssued(s)
    requires AddToCart(env, s, header, productId).result.Ok?
    ensures var s1 := AddToCart(env, s, header, productId).store;
      var s2 := RemoveFromCart(env, s1, header, productId);
      s2.result.Ok? && s2.store == s.(nextId := s.nextId + 1)
  {
    var s1 := AddToCart(env, s, header, productId).store;
    var u := Caller(env, s, header);
    var added := CartLine(s.nextId, u, productId, 1);
    assert s1.carts == s.carts + [added];
    assert FindIndex(s.carts, LineOf(u, productId)).None?;
    FindAppended(s.carts, added, LineOf(u, productId));
    assert ProductById(s1, productId).Some? by {
      assert AvailableProductById(s, productId).Some?;
    }
    DeleteAt(s1.carts, |s.carts|, CartId(s.nextId));
    assert s1.carts[..|s.carts|] + s1.carts[|s.carts| + 1..] == s.carts;
  }
}
