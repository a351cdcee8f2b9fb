/**
 * `ProductService`: a seller lists a product with its pictures, puts it on
 * sale, edits it, stocks it and removes it; a product page reports the
 * average of its ratings and the reviews left with them.
 *
 * `createProduct` looks its owner up by `isTokenValid.id`, a field the
 * token's claims do not have; the repository drops a criterion whose value
 * is `undefined`, so the lookup returns the first user row. `corrected`
 * selects the caller's own row instead.
 */
module Products {
  import opened Common
  import opened Entities
  import opened Tables
  import opened Storage

  predicate IsSeller(env: Env, s: Store, header: Option<string>)
  {
    var auth := Authenticate(env, s, header);
    auth.Ok? && auth.value.role == Seller
  }

  /** The picture ids linked to `product`. */
  function PictureIdsOf(links: seq<ProductPicture>, product: Id): set<Id>
  {
    set l | l in links && l.product == product && l.picture.Some? :: l.picture.value
  }

  /** The links `createProduct` saves: one per requested id that names a
      stored picture, in request order, with ids from `base`. */
  function CreateLinks(product: Id, ids: seq<Id>, pictures: set<Id>, base: nat): (r: seq<ProductPicture>)
    ensures |r| <= |ids|
    ensures forall i :: 0 <= i < |r| ==> r[i].id == base + i && r[i].product == product && r[i].picture.Some?
    ensures PictureIdsOf(r, product) == set x | x in ids && x in pictures
    decreases |ids|
  {
    if |ids| == 0 then []
    else
      var rest := CreateLinks(product, ids[1..], pictures, if ids[0] in pictures then base + 1 else base);
      assert forall x :: x in ids <==> x == ids[0] || x in ids[1..];
      assert (set x | x in ids && x in pictures) ==
        (if ids[0] in pictures then {ids[0]} else {}) + (set x | x in ids[1..] && x in pictures);
      if ids[0] in pictures then
        var head := ProductPicture(base, product, Some(ids[0]));
        LinksAppended([head], rest, product);
        assert PictureIdsOf([head], product) == {ids[0]};
        [head] + rest
      else rest
  }

  /** The owner `createProduct` attaches: the first user row as written,
      the caller's row when corrected. */
  function CreatorRow(s: Store, caller: Id, corrected: bool): Option<User>
  {
    if corrected then UserById(s, caller)
    else if |s.users| == 0 then None
    else Some(s.users[0])
  }

  /** `createProduct(payload)`. The new product is on sale from the start
      (the column's default); the category is checked and not stored, as
      the product table has no column for it. */
  function CreateProduct(env: Env, s: Store, header: Option<string>, name: string, description: string,
                         amount: Money, pictures: seq<Id>, categoryId: Id, corrected: bool): (r: Step<string>)
    ensures r.result.Ok? <==>
      IsSeller(env, s, header) && CreatorRow(s, Authenticate(env, s, header).value.userId, corrected).Some? &&
      categoryId in s.categories
    ensures r.result.Err? ==> r.store == s
    ensures (IsSeller(env, s, header) && CreatorRow(s, Authenticate(env, s, header).value.userId, corrected).Some? &&
             categoryId !in s.categories) ==>
      r.result == Fail(NotFound, "Category not found")
    ensures r.result.Ok? ==>
      var owner := CreatorRow(s, Authenticate(env, s, header).value.userId, corrected).value.id;
      r.store.products == s.products + [Product(s.nextId, name, amount, description, true, Some(owner))] &&
      PictureIdsOf(r.store.productPictures, s.nextId) == PictureIdsOf(s.productPictures, s.nextId) + (set x | x in pictures && x in s.pictures) &&
      r.store == s.(products := r.store.products, productPictures := r.store.productPictures, nextId := r.store.nextId)
  {
    match Authenticate(env, s, header)
    case Err(e) => Step(s, Err(e))
    case Ok(claims) =>
      if claims.role != Seller then Reject(s, Unauthorized, "Unauthorized")
      else match CreatorRow(s, claims.userId, corrected)
        case None => Reject(s, BadRequest, "Unauthorized")
        case Some(user) =>
          if categoryId !in s.categories then Reject(s, NotFound, "Category not found")
          else
            var (id, s1) := Fresh(s);
            var links := CreateLinks(id, pictures, s.pictures, s1.nextId);
            LinksAppended(s.productPictures, links, id);
            Step(s1.(products := s.products + [Product(id, name, amount, description, true, Some(user.id))],
                     productPictures := s.productPictures + links,
                     nextId := s1.nextId + |links|),
                 Ok("Product created successfully"))
  }

  lemma LinksAppended(links: seq<ProductPicture>, extra: seq<ProductPicture>, product: Id)
    ensures PictureIdsOf(links + extra, product) == PictureIdsOf(links, product) + PictureIdsOf(extra, product)
  {
    assert forall l :: l in links + extra <==> l in links || l in extra;
  }

  /** The caller owns `product`, as the services test it: the product's
      user relation is loaded and its id compared with the token's. */
  predicate OwnedBy(product: Product, caller: Id)
  {
    product.owner == Some(caller)
  }

  function SetAvailable(p: Product): Product
  {
    p.(isAvailable := true)
  }

  /** `makeProductAvailble(productId)`. The caller's row is read but not
      checked, so a missing row fails on `user.id`; so does a product
      without an owner. */
  function MakeProductAvailable(env: Env, s: Store, header: Option<string>, productId: Id): (r: Step<string>)
    ensures r.result.Ok? <==>
      IsSeller(env, s, header) && ProductById(s, productId).Some? &&
      UserById(s, Authenticate(env, s, header).value.userId).Some? &&
      OwnedBy(ProductById(s, productId).value, Authenticate(env, s, header).value.userId)
    ensures r.result.Err? ==> r.store == s
    ensures IsSeller(env, s, header) && ProductById(s, productId).Some? &&
            UserById(s, Authenticate(env, s, header).value.userId).Some? &&
            ProductById(s, productId).value.owner.Some? &&
            !OwnedBy(ProductById(s, productId).value, Authenticate(env, s, header).value.userId) ==>
      r.result == Fail(BadRequest, "Unauthorized")
    ensures r.result.Ok? ==>
      r.store == s.(products := r.store.products) && |r.store.products| == |s.products| &&
      forall k :: 0 <= k < |s.products| ==>
        r.store.products[k] == (if s.products[k].id == productId then s.products[k].(isAvailable := true) else s.products[k])
  {
    match Authenticate(env, s, header)
    case Err(e) => Step(s, Err(e))
    case Ok(claims) =>
      if claims.role != Seller then Reject(s, Unauthorized, "Unathorized")
      else
        var user := UserById(s, claims.userId);
        match ProductById(s, productId)
        case None => Reject(s, NotFound, "Product not found")
        case Some(product) =>
          if user.None? then Reject(s, Internal, "Cannot read properties of null (reading 'id')")
          else if product.owner.None? then Reject(s, Internal, "Cannot read properties of null (reading 'id')")
          else if user.value.id != product.owner.value then Reject(s, BadRequest, "Unauthorized")
          else Step(s.(products := Update(s.products, ProductIdIs(product.id), SetAvailable)), Ok("Product updated"))
  }

  /** Once put on sale the product is what a buyer's cart finds, and
      putting it on sale again changes nothing. */
  lemma MadeAvailableIsOnSale(env: Env, s: Store, header: Option<string>, productId: Id)
    requires MakeProductAvailable(env, s, header, productId).result.Ok?
    ensures AvailableProductById(MakeProductAvailable(env, s, header, productId).store, productId) ==
      Some(ProductById(s, productId).value.(isAvailable := true))
  {
    var t := MakeProductAvailable(env, s, header, productId).store;
    var i := FindIndex(s.products, ProductIdIs(productId)).value;
    assert t.products[i] == s.products[i].(isAvailable := true);
    assert forall k :: 0 <= k < i ==> t.products[k].id != productId;
    FindIndexIs(t.products, AvailableIdIs(productId), i);
  }

  /** Putting a product on sale twice is putting it on sale once. */
  lemma MakeAvailableIdempotent(env: Env, s: Store, header: Option<string>, productId: Id)
    requires MakeProductAvailable(env, s, header, productId).result.Ok?
    ensures var t := MakeProductAvailable(env, s, header, productId).store;
      MakeProductAvailable(env, t, header, productId) == Step(t, Ok("Product updated"))
  {
    var t := MakeProductAvailable(env, s, header, productId).store;
    var p := ProductById(s, productId).value;
    FindIndexAfterUpdate(s.products, ProductIdIs(productId), SetAvailable, ProductIdIs(productId));
    var i := FindIndex(s.products, ProductIdIs(productId)).value;
    assert t.products[i] == SetAvailable(p);
    assert ProductById(t, productId) == Some(SetAvailable(p));
    assert Authenticate(env, t, header) == Authenticate(env, s, header);
    assert UserById(t, Authenticate(env, s, header).value.userId) == UserById(s, Authenticate(env, s, header).value.userId);
    UpdateIdempotent(s.products, ProductIdIs(productId), SetAvailable);
  }

  /** A request field the code copies only when it is truthy: a non-empty
      string, a non-zero amount. */
  predicate TruthyText(field: Option<string>)
  {
    field.Some? && field.value != ""
  }

  predicate TruthyAmount(field: Option<Money>)
  {
    field.Some? && field.value != 0
  }

  /** The product fields `updateProduct` writes. */
  function Edit(name: Option<string>, description: Option<string>, amount: Option<Money>): Product -> Product
  {
    (p: Product) => p.(name := if TruthyText(name) then name.value else p.name,
                       description := if TruthyText(description) then description.value else p.description,
                       amount := if TruthyAmount(amount) then amount.value else p.amount)
  }

  /** Removal criterion of the reconciliation: a link to one of `ids`,
      restricted to `product` when `scoped`. */
  function Unrequested(ids: set<Id>, product: Id, scoped: bool): ProductPicture -> bool
  {
    (l: ProductPicture) => l.picture.Some? && l.picture.value in ids && (!scoped || l.product == product)
  }

  /** The picture links after `updateProduct` reconciled `product` with the
      requested ids: a link is added for every requested id not linked yet
      (its picture is missing when no picture has that id), and the links
      to linked ids not requested are deleted. As written the deletion is
      by picture id alone and takes other products' links to those
      pictures as well; `scoped` restricts it to `product`. */
  function Reconcile(links: seq<ProductPicture>, product: Id, requested: seq<Id>, pictures: set<Id>,
                     base: nat, scoped: bool): (r: seq<ProductPicture>)
  {
    var existing := PictureIdsOf(links, product);
    var unlinked := Where(requested, (x: Id) => x !in existing);
    var added := seq(|unlinked|, i requires 0 <= i < |unlinked| =>
                       ProductPicture(base + i, product, if unlinked[i] in pictures then Some(unlinked[i]) else None));
    var remove := existing - set x | x in requested;
    if remove == {} then links + added
    else Delete(links + added, Unrequested(remove, product, scoped))
  }

  /** After reconciliation the product is linked to exactly the requested
      ids that were linked before or name a stored picture. */
  lemma {:induction false} ReconcileLinksRequested(links: seq<ProductPicture>, product: Id, requested: seq<Id>,
                                                   pictures: set<Id>, base: nat, scoped: bool)
    ensures PictureIdsOf(Reconcile(links, product, requested, pictures, base, scoped), product) ==
      set x | x in requested && (x in PictureIdsOf(links, product) || x in pictures)
  {
    var existing := PictureIdsOf(links, product);
    var unlinked := Where(requested, (x: Id) => x !in existing);
    var added := seq(|unlinked|, i requires 0 <= i < |unlinked| =>
                       ProductPicture(base + i, product, if unlinked[i] in pictures then Some(unlinked[i]) else None));
    var remove := existing - set x | x in requested;
    var all := links + added;
    var p := Unrequested(remove, product, scoped);
    var r := Reconcile(links, product, requested, pictures, base, scoped);
    assert r == if remove == {} then all else Delete(all, p);
    // every link of the product that survives carries a requested id
    forall l | l in all && l.product == product && l.picture.Some? && !p(l)
      ensures l.picture.value in requested && (l.picture.value in existing || l.picture.value in pictures)
    {
      if l in links {
        assert l.picture.value in existing;
      } else {
        var i :| 0 <= i < |added| && added[i] == l;
        assert unlinked[i] in requested;
      }
    }
    forall x | x in requested && (x in existing || x in pictures)
      ensures x in PictureIdsOf(r, product)
    {
      if x in existing {
        var l :| l in links && l.product == product && l.picture.Some? && l.picture.value == x;
        assert l in all && !p(l);
      } else {
        assert x in unlinked;
        var i :| 0 <= i < |unlinked| && unlinked[i] == x;
        assert added[i] in all && !p(added[i]);
      }
    }
    assert forall l :: l in r ==> l in all && !p(l);
  }

  /** Scoped reconciliation keeps every link of every other product. */
  lemma ScopedReconcileKeepsOthers(links: seq<ProductPicture>, product: Id, requested: seq<Id>, pictures: set<Id>, base: nat)
    ensures forall i :: 0 <= i < |links| && links[i].product != product ==>
      links[i] in Reconcile(links, product, requested, pictures, base, true)
  {
    var existing := PictureIdsOf(links, product);
    var unlinked := Where(requested, (x: Id) => x !in existing);
    var added := seq(|unlinked|, i requires 0 <= i < |unlinked| =>
                       ProductPicture(base + i, product, if unlinked[i] in pictures then Some(unlinked[i]) else None));
    forall i | 0 <= i < |links| && links[i].product != product
      ensures links[i] in Reconcile(links, product, requested, pictures, base, true)
    {
      assert (links + added)[i] == links[i];
    }
  }

  /** Every link the reconciliation leaves was there before or belongs to
      the reconciled product. */
  lemma ReconcileOrigin(links: seq<ProductPicture>, product: Id, requested: seq<Id>, pictures: set<Id>,
                        base: nat, scoped: bool)
    ensures forall l :: l in Reconcile(links, product, requested, pictures, base, scoped) ==> l in links || l.product == product
  {
    var existing := PictureIdsOf(links, product);
    var unlinked := Where(requested, (x: Id) => x !in existing);
    var added := seq(|unlinked|, i requires 0 <= i < |unlinked| =>
                       ProductPicture(base + i, product, if unlinked[i] in pictures then Some(unlinked[i]) else None));
    assert forall l :: l in links + added ==> l in links || l in added;
  }

  /** As written, every link anywhere to a picture the product dropped is
      deleted, whichever product it belongs to. */
  lemma AsWrittenDropsEveryLink(links: seq<ProductPicture>, product: Id, requested: seq<Id>, pictures: set<Id>, base: nat)
    ensures forall l :: l in Reconcile(links, product, requested, pictures, base, false) && l.picture.Some? ==>
      l.picture.value !in PictureIdsOf(links, product) || l.picture.value in requested
  {
    var existing := PictureIdsOf(links, product);
    var unlinked := Where(requested, (x: Id) => x !in existing);
    var added := seq(|unlinked|, i requires 0 <= i < |unlinked| =>
                       ProductPicture(base + i, product, if unlinked[i] in pictures then Some(unlinked[i]) else None));
    var remove := existing - set x | x in requested;
    var r := Reconcile(links, product, requested, pictures, base, false);
    assert r == if remove == {} then links + added else Delete(links + added, Unrequested(remove, product, false));
    forall l | l in r && l.picture.Some?
      ensures l.picture.value !in existing || l.picture.value in requested
    {
      var v := l.picture.value;
      assert v in (set x | x in requested) <==> v in requested;
      if remove != {} {
        assert !Unrequested(remove, product, false)(l);
      } else {
        assert v !in remove;
      }
    }
  }

  /** As written, dropping a picture from one product also unlinks it from
      every other product that shows it. */
  lemma AsWrittenReconcileUnlinksOtherProducts()
    ensures var links := [ProductPicture(1, 10, Some(5)), ProductPicture(2, 20, Some(5))];
      PictureIdsOf(links, 20) == {5} &&
      PictureIdsOf(Reconcile(links, 10, [6], {5, 6}, 3, false), 20) == {} &&
      PictureIdsOf(Reconcile(links, 10, [6], {5, 6}, 3, true), 20) == {5}
  {
    var links := [ProductPicture(1, 10, Some(5)), ProductPicture(2, 20, Some(5))];
    assert links[0] in links && links[1] in links;
    assert PictureIdsOf(links, 10) == {5};
    var r := Reconcile(links, 10, [6], {5, 6}, 3, false);
    var rs := Reconcile(links, 10, [6], {5, 6}, 3, true);
    ReconcileOrigin(links, 10, [6], {5, 6}, 3, false);
    ReconcileOrigin(links, 10, [6], {5, 6}, 3, true);
    AsWrittenDropsEveryLink(links, 10, [6], {5, 6}, 3);
    ScopedReconcileKeepsOthers(links, 10, [6], {5, 6}, 3);
    assert links[1] in rs;
  }

  /** The picture-link writes of `updateProduct`: none when no pictures
      are sent, otherwise the product's links reconciled with the request. */
  function Relink(s: Store, product: Id, pictures: Option<seq<Id>>, scoped: bool): (t: Store)
    ensures t == s.(productPictures := t.productPictures, nextId := t.nextId)
    ensures pictures.None? || |pictures.value| == 0 ==> t == s
    ensures pictures.Some? && |pictures.value| > 0 ==>
      PictureIdsOf(t.productPictures, product) ==
        set x | x in pictures.value && (x in PictureIdsOf(s.productPictures, product) || x in s.pictures)
  {
    if pictures.None? || |pictures.value| == 0 then s
    else
      ReconcileLinksRequested(s.productPictures, product, pictures.value, s.pictures, s.nextId, scoped);
      s.(productPictures := Reconcile(s.productPictures, product, pictures.value, s.pictures, s.nextId, scoped),
         nextId := s.nextId + |pictures.value|)
  }

  /** Everything `updateProduct` checks before its writes: a seller's
      token, a known category when one is given, the caller's own product
      and, when pictures are sent, every existing link resolving to a
      picture. */
  predicate UpdateReachesWrites(env: Env, s: Store, header: Option<string>, productId: Id,
                                pictures: Option<seq<Id>>, categoryId: Option<Id>)
  {
    IsSeller(env, s, header) && (categoryId.None? || categoryId.value in s.categories) &&
    ProductById(s, productId).Some? &&
    OwnedBy(ProductById(s, productId).value, Authenticate(env, s, header).value.userId) &&
    PicturesResolve(s, productId, pictures)
  }

  /** No pictures are sent, or every existing link of the product resolves
      to a picture (`p.picture.id` does not throw). */
  predicate PicturesResolve(s: Store, productId: Id, pictures: Option<seq<Id>>)
  {
    pictures.None? || |pictures.value| == 0 ||
    forall i :: 0 <= i < |s.productPictures| && s.productPictures[i].product == productId ==> s.productPictures[i].picture.Some?
  }

  /** The writes of `updateProduct` once the caller owns the product: the
      picture links, then the field update, which the `category` key makes
      throw. */
  function WriteUpdate(s: Store, productId: Id, name: Option<string>, description: Option<string>, amount: Option<Money>,
                       pictures: Option<seq<Id>>, categoryId: Option<Id>, scoped: bool): (r: Step<string>)
    ensures !PicturesResolve(s, productId, pictures) ==> r.result.Err? && r.result.error.kind == Internal && r.store == s
    ensures PicturesResolve(s, productId, pictures) ==>
      r.store == Relink(s, productId, pictures, scoped).(products := r.store.products)
    ensures PicturesResolve(s, productId, pictures) && categoryId.None? ==>
      r.result == Ok("Product updated") &&
      r.store.products == Update(s.products, ProductIdIs(productId), Edit(name, description, amount))
    ensures PicturesResolve(s, productId, pictures) && categoryId.Some? ==>
      r.result == Fail(Internal, CategoryNotAColumn) && r.store.products == s.products
  {
    if !PicturesResolve(s, productId, pictures) then
      Reject(s, Internal, "Cannot read properties of null (reading 'id')")
    else
      var linked := Relink(s, productId, pictures, scoped);
      if categoryId.Some? then Step(linked, Fail(Internal, CategoryNotAColumn))
      else Step(linked.(products := Update(s.products, ProductIdIs(productId), Edit(name, description, amount))),
                Ok("Product updated"))
  }

  /** What TypeORM 0.3 throws when `update` is given a key that is no
      column of the entity. */
  const CategoryNotAColumn: string := "Property \"category\" was not found in \"Product\". Make sure your query is correct."

  /** `updateProduct(payload)`. `categoryId` is checked when given and then
      passed to `update` as `category`, a key the product table has no
      column for: the update throws, after the picture links were
      reconciled, and the product row keeps its fields. */
  function UpdateProduct(env: Env, s: Store, header: Option<string>, productId: Id,
                         name: Option<string>, description: Option<string>, amount: Option<Money>,
                         pictures: Option<seq<Id>>, categoryId: Option<Id>, scoped: bool): (r: Step<string>)
    ensures !UpdateReachesWrites(env, s, header, productId, pictures, categoryId) ==> r.result.Err? && r.store == s
    ensures r.result.Ok? <==> UpdateReachesWrites(env, s, header, productId, pictures, categoryId) && categoryId.None?
    ensures UpdateReachesWrites(env, s, header, productId, pictures, categoryId) && categoryId.Some? ==>
      r.result == Fail(Internal, CategoryNotAColumn) && r.store.products == s.products
    ensures r.result.Ok? ==>
      r.store.products == Update(s.products, ProductIdIs(productId), Edit(name, description, amount))
    ensures UpdateReachesWrites(env, s, header, productId, pictures, categoryId) ==>
      r.store == Relink(s, productId, pictures, scoped).(products := r.store.products)
  {
    match Authenticate(env, s, header)
    case Err(e) => Step(s, Err(e))
    case Ok(claims) =>
      if claims.role != Seller then Reject(s, Unauthorized, "Unauthorized")
      else if categoryId.Some? && categoryId.value !in s.categories then Reject(s, NotFound, "Category not found")
      else match ProductById(s, productId)
        case None => Reject(s, NotFound, "Product not found")
        case Some(product) =>
          if product.owner.None? then Reject(s, Internal, "Cannot read properties of null (reading 'id')")
          else if claims.userId != product.owner.value then Reject(s, BadRequest, "Unauthorized")
          else WriteUpdate(s, product.id, name, description, amount, pictures, categoryId, scoped)
  }

  /** Only truthy fields are written: an amount of 0, an empty name or an
      absent description leaves the stored value. */
  lemma UpdateWritesTruthyFields(env: Env, s: Store, header: Option<string>, productId: Id,
                                 name: Option<string>, description: Option<string>, amount: Option<Money>,
                                 pictures: Option<seq<Id>>, categoryId: Option<Id>, scoped: bool)
    requires UpdateProduct(env, s, header, productId, name, description, amount, pictures, categoryId, scoped).result.Ok?
    ensures var p := ProductById(s, productId).value;
      var t := UpdateProduct(env, s, header, productId, name, description, amount, pictures, categoryId, scoped).store;
      ProductById(t, productId) == Some(p.(name := if TruthyText(name) then name.value else p.name,
                                           description := if TruthyText(description) then description.value else p.description,
                                           amount := if TruthyAmount(amount) then amount.value else p.amount))
  {
    FindIndexAfterUpdate(s.products, ProductIdIs(productId), Edit(name, description, amount), ProductIdIs(productId));
  }

  function InventoryOf(product: Id): Inventory -> bool
  {
    (i: Inventory) => i.product == product
  }

  function RatingOf(product: Id): Rating -> bool
  {
    (r: Rating) => r.product == product
  }

  /** `deleteProduct(productId)`: a seller must own the product, an
      administrator may delete any. The inventory rows go first, then the
      picture links, then the product. */
  function DeleteProduct(env: Env, s: Store, header: Option<string>, productId: Id): (r: Step<string>)
    ensures r.result.Err? ==> r.store == s
    ensures r.result.Ok? <==>
      Authenticate(env, s, header).Ok? &&
      (Authenticate(env, s, header).value.role == Admin || Authenticate(env, s, header).value.role == Seller) &&
      ProductById(s, productId).Some? &&
      (Authenticate(env, s, header).value.role == Seller ==>
         OwnedBy(ProductById(s, productId).value, Authenticate(env, s, header).value.userId))
    ensures r.result.Ok? ==>
      r.store == s.(inventories := Delete(s.inventories, InventoryOf(productId)),
                    productPictures := Delete(s.productPictures, PictureLinkOf(productId)),
                    products := Delete(s.products, ProductIdIs(productId)))
    ensures r.result.Ok? ==>
      ProductById(r.store, productId).None? &&
      (forall i :: 0 <= i < |r.store.inventories| ==> r.store.inventories[i].product != productId) &&
      PictureIdsOf(r.store.productPictures, productId) == {} &&
      (forall i :: 0 <= i < |s.products| && s.products[i].id != productId ==> s.products[i] in r.store.products)
  {
    match Authenticate(env, s, header)
    case Err(e) => Step(s, Err(e))
    case Ok(claims) =>
      if claims.role != Seller && claims.role != Admin then Reject(s, Unauthorized, "Unathorized")
      else match ProductById(s, productId)
        case None => Reject(s, NotFound, "Product not Found")
        case Some(product) =>
          if claims.role == Seller && product.owner.None? then Reject(s, Internal, "Cannot read properties of null (reading 'id')")
          else if claims.role == Seller && claims.userId != product.owner.value then Reject(s, BadRequest, "Unauthorized")
          else
            var links := Delete(s.productPictures, PictureLinkOf(product.id));
            assert PictureIdsOf(links, productId) == {} by {
              assert forall l :: l in links ==> !PictureLinkOf(product.id)(l);
            }
            Step(s.(inventories := Delete(s.inventories, InventoryOf(product.id)),
                    productPictures := links,
                    products := Delete(s.products, ProductIdIs(product.id))),
                 Ok("Product deleted"))
  }

  /** Every product row, link and inventory row refers to an id `Fresh`
      handed out. */
  ghost predicate ProductIdsIssued(s: Store)
  {
    (forall i :: 0 <= i < |s.products| ==> s.products[i].id < s.nextId) &&
    (forall i :: 0 <= i < |s.productPictures| ==> s.productPictures[i].product < s.nextId) &&
    (forall i :: 0 <= i < |s.inventories| ==> s.inventories[i].product < s.nextId)
  }

  /** Deleting a product its seller has just created restores the product
      and picture tables: creation and deletion are inverse. */
  lemma {:induction false} CreateThenDelete(env: Env, s: Store, header: Option<string>, name: string, description: string,
                                            amount: Money, pictures: seq<Id>, categoryId: Id)
    requires ProductIdsIssued(s)
    requires CreateProduct(env, s, header, name, description, amount, pictures, categoryId, true).result.Ok?
    ensures var t := CreateProduct(env, s, header, name, description, amount, pictures, categoryId, true).store;
      var u := DeleteProduct(env, t, header, s.nextId);
      u.result.Ok? &&
      u.store.products == s.products && u.store.productPictures == s.productPictures &&
      u.store.inventories == s.inventories
  {
    var t := CreateProduct(env, s, header, name, description, amount, pictures, categoryId, true).store;
    var id := s.nextId;
    var caller := Authenticate(env, s, header).value.userId;
    var p := Product(id, name, amount, description, true, Some(caller));
    assert t.products == s.products + [p];
    FindIndexAppended(s.products, p, ProductIdIs(id));
    assert ProductById(t, id) == Some(p);
    DeleteFresh(s.products, [p], ProductIdIs(id));
    var links := CreateLinks(id, pictures, s.pictures, id + 1);
    assert t.productPictures == s.productPictures + links;
    DeleteFresh(s.productPictures, links, PictureLinkOf(id));
    DeleteNothing(s.inventories, InventoryOf(id));
  }

  /** As written, a product belongs to the first user row, so every seller
      other than that user is refused when publishing the product they have
      just created. */
  lemma AsWrittenCreatorCannotPublish(env: Env, s: Store, header: Option<string>, name: string, description: string,
                                      amount: Money, pictures: seq<Id>, categoryId: Id)
    requires ProductIdsIssued(s)
    requires CreateProduct(env, s, header, name, description, amount, pictures, categoryId, false).result.Ok?
    requires UserById(s, Authenticate(env, s, header).value.userId).Some?
    requires s.users[0].id != Authenticate(env, s, header).value.userId
    ensures var t := CreateProduct(env, s, header, name, description, amount, pictures, categoryId, false).store;
      MakeProductAvailable(env, t, header, s.nextId).result == Fail(BadRequest, "Unauthorized")
  {
    var t := CreateProduct(env, s, header, name, description, amount, pictures, categoryId, false).store;
    var p := Product(s.nextId, name, amount, description, true, Some(s.users[0].id));
    FindIndexAppended(s.products, p, ProductIdIs(s.nextId));
    assert ProductById(t, s.nextId) == Some(p);
  }

  /** With the caller's own row as owner, the seller who created a product
      may publish it. */
  lemma CreatorCanPublish(env: Env, s: Store, header: Option<string>, name: string, description: string,
                          amount: Money, pictures: seq<Id>, categoryId: Id)
    requires ProductIdsIssued(s)
    requires CreateProduct(env, s, header, name, description, amount, pictures, categoryId, true).result.Ok?
    ensures var t := CreateProduct(env, s, header, name, description, amount, pictures, categoryId, true).store;
      MakeProductAvailable(env, t, header, s.nextId).result.Ok?
  {
    var t := CreateProduct(env, s, header, name, description, amount, pictures, categoryId, true).store;
    var p := Product(s.nextId, name, amount, description, true, Some(Authenticate(env, s, header).value.userId));
    FindIndexAppended(s.products, p, ProductIdIs(s.nextId));
    assert ProductById(t, s.nextId) == Some(p);
  }

  function Restock(quantity: int): Inventory -> Inventory
  {
    (i: Inventory) => i.(totalQuantity := quantity, quantityInStock := quantity)
  }

  function InventoryIdIs(id: Id): Inventory -> bool
  {
    (i: Inventory) => i.id == id
  }

  /** `addNewStock(payload)`: both counts of the product's inventory row
      become the payload's total, creating the row when there is none. */
  function AddNewStock(env: Env, s: Store, header: Option<string>, productId: Id, quantity: int): (r: Step<string>)
    ensures r.result.Err? ==> r.store == s
    ensures r.result.Ok? <==>
      IsSeller(env, s, header) && ProductById(s, productId).Some? &&
      OwnedBy(ProductById(s, productId).value, Authenticate(env, s, header).value.userId)
    ensures IsSeller(env, s, header) && ProductById(s, productId).Some? && ProductById(s, productId).value.owner.None? ==>
      r.result == Fail(NotFound, "User not found")
    ensures r.result.Ok? ==>
      r.store == s.(inventories := r.store.inventories, nextId := r.store.nextId) &&
      Find(r.store.inventories, InventoryOf(productId)).Some? &&
      Find(r.store.inventories, InventoryOf(productId)).value.totalQuantity == quantity &&
      Find(r.store.inventories, InventoryOf(productId)).value.quantityInStock == quantity
    ensures r.result.Ok? && Find(s.inventories, InventoryOf(productId)).None? ==>
      r.store.inventories == s.inventories + [Inventory(s.nextId, productId, quantity, quantity)]
    ensures r.result.Ok? && Find(s.inventories, InventoryOf(productId)).Some? ==>
      |r.store.inventories| == |s.inventories| && r.store.nextId == s.nextId
    ensures r.result.Ok? && Find(s.inventories, InventoryOf(productId)).Some? ==>
      var id := Find(s.inventories, InventoryOf(productId)).value.id;
      forall i :: 0 <= i < |s.inventories| ==>
        r.store.inventories[i] ==
          if s.inventories[i].id == id then s.inventories[i].(totalQuantity := quantity, quantityInStock := quantity)
          else s.inventories[i]
  {
    match Authenticate(env, s, header)
    case Err(e) => Step(s, Err(e))
    case Ok(claims) =>
      if claims.role != Seller then Reject(s, Unauthorized, "Unauthorized")
      else match ProductById(s, productId)
        case None => Reject(s, NotFound, "Product not found")
        case Some(product) =>
          if product.owner.None? then Reject(s, NotFound, "User not found")
          else if claims.userId != product.owner.value then Reject(s, BadRequest, "Unauthorized")
          else match Find(s.inventories, InventoryOf(product.id))
            case Some(inv) =>
              var rows := Update(s.inventories, InventoryIdIs(inv.id), Restock(quantity));
              StockAfterRestock(s.inventories, product.id, inv, quantity);
              Step(s.(inventories := rows), Ok("Stock Updated"))
            case None =>
              var (id, s1) := Fresh(s);
              var row := Inventory(id, product.id, quantity, quantity);
              FindIndexAppended(s.inventories, row, InventoryOf(product.id));
              Step(s1.(inventories := s.inventories + [row]), Ok("Stock Updated"))
  }

  lemma StockAfterRestock(rows: seq<Inventory>, product: Id, inv: Inventory, quantity: int)
    requires Find(rows, InventoryOf(product)) == Some(inv)
    ensures Find(Update(rows, InventoryIdIs(inv.id), Restock(quantity)), InventoryOf(product)) ==
      Some(inv.(totalQuantity := quantity, quantityInStock := quantity))
  {
    FindIndexAfterUpdate(rows, InventoryIdIs(inv.id), Restock(quantity), InventoryOf(product));
  }

  /** Stocking twice with the same total is stocking once: the second
      call finds the row the first one left, as it was. */
  lemma RestockIdempotent(env: Env, s: Store, header: Option<string>, productId: Id, quantity: int)
    requires AddNewStock(env, s, header, productId, quantity).result.Ok?
    ensures var t := AddNewStock(env, s, header, productId, quantity).store;
      var u := AddNewStock(env, t, header, productId, quantity);
      u.result.Ok? && |u.store.inventories| == |t.inventories| &&
      Find(u.store.inventories, InventoryOf(productId)) == Find(t.inventories, InventoryOf(productId))
  {
    var t := AddNewStock(env, s, header, productId, quantity).store;
    assert Authenticate(env, t, header) == Authenticate(env, s, header);
    assert ProductById(t, productId) == ProductById(s, productId);
    var inv := Find(t.inventories, InventoryOf(productId)).value;
    StockAfterRestock(t.inventories, productId, inv, quantity);
  }

  /** Sum of the scores of `ratings`. */
  function ScoreSum(ratings: seq<Rating>): int
  {
    if |ratings| == 0 then 0 else ratings[0].rating + ScoreSum(ratings[1..])
  }

  /** The product page's `averageRating`: the mean score, 0 without
      ratings. */
  function AverageRating(ratings: seq<Rating>): (avg: real)
    ensures |ratings| == 0 ==> avg == 0.0
    ensures |ratings| > 0 ==> avg * (|ratings| as real) == ScoreSum(ratings) as real
  {
    if |ratings| == 0 then 0.0 else (ScoreSum(ratings) as real) / (|ratings| as real)
  }

  /** Scores within the 1 to 5 the rating column is annotated with. */
  ghost predicate Scored(ratings: seq<Rating>)
  {
    forall i :: 0 <= i < |ratings| ==> 1 <= ratings[i].rating <= 5
  }

  lemma {:induction false} ScoreSumBounds(ratings: seq<Rating>)
    requires Scored(ratings)
    ensures |ratings| <= ScoreSum(ratings) <= 5 * |ratings|
    decreases |ratings|
  {
    if |ratings| > 0 {
      ScoreSumBounds(ratings[1..]);
    }
  }

  /** With scores from 1 to 5, a rated product's average lies in 1 to 5. */
  lemma AverageWithinScale(ratings: seq<Rating>)
    requires Scored(ratings) && |ratings| > 0
    ensures 1.0 <= AverageRating(ratings) <= 5.0
  {
    ScoreSumBounds(ratings);
    QuotientBounds(ScoreSum(ratings) as real, |ratings| as real, 1.0, 5.0);
  }

  lemma QuotientBounds(a: real, n: real, lo: real, hi: real)
    requires n > 0.0 && lo * n <= a <= hi * n
    ensures lo <= a / n <= hi
  {
  }

  /** The product page's `comments`: the reviews of the ratings, in order,
      without the missing ones. */
  function Comments(ratings: seq<Rating>): (r: seq<string>)
    ensures |r| <= |ratings|
    ensures forall c :: c in r <==> exists i :: 0 <= i < |ratings| && ratings[i].review == Some(c)
    decreases |ratings|
  {
    if |ratings| == 0 then []
    else
      var rest := Comments(ratings[1..]);
      assert forall i :: 0 < i < |ratings| ==> ratings[i] == ratings[1..][i - 1];
      match ratings[0].review
      case None => rest
      case Some(c) => [c] + rest
  }

  /** `averageRating` and `comments` of `getProduct` over the product's
      ratings. */
  function RatingSummary(s: Store, productId: Id): (real, seq<string>)
  {
    var rs := Where(s.ratings, RatingOf(productId));
    (AverageRating(rs), Comments(rs))
  }

  /** A product nobody rated averages 0 and has no comments. */
  lemma UnratedProduct(s: Store, productId: Id)
    requires forall i :: 0 <= i < |s.ratings| ==> s.ratings[i].product != productId
    ensures RatingSummary(s, productId) == (0.0, [])
  {
    WhereNone(s.ratings, RatingOf(productId));
  }
}
