/**
 * The state every service reads and writes: the database tables the core
 * uses, the cache, and the counter that stands in for UUID generation.
 * A service call is a function from a store (and its inputs) to a `Step`:
 * the store after the call together with the reply or the error. Writes
 * issued before an error are not undone (there is no surrounding
 * transaction), so a failed `Step` may carry a changed store.
 */
module Storage {
  import opened Common
  import opened Entities
  import opened Auth
  import opened Tables

  datatype Store = Store(
    users: seq<User>,
    profiles: seq<Profile>,
    addresses: seq<Address>,
    categories: set<Id>,
    pictures: set<Id>,
    products: seq<Product>,
    productPictures: seq<ProductPicture>,
    inventories: seq<Inventory>,
    ratings: seq<Rating>,
    carts: seq<CartLine>,
    orders: seq<Order>,
    orderLines: seq<OrderLine>,
    orderAddresses: seq<OrderAddress>,
    orderTransactions: seq<OrderTransaction>,
    transactions: seq<Transaction>,
    cache: Cache,
    nextId: nat)

  /** The outcome of one service call. */
  datatype Step<+T> = Step(store: Store, result: Result<T>)

  function Reject<T>(s: Store, kind: ErrorKind, message: string): (r: Step<T>)
    ensures r.store == s && r.result.Err? && r.result.error.kind == kind
  {
    Step(s, Err(Error(kind, message)))
  }

  /** Environment supplied to the services: the JWT implementation and the
      PBKDF2 password hash `hash(password, salt)`, both taken as given functions. */
  datatype Env = Env(jwt: Jwt, hash: (string, string) -> string)

  /** `validateToken` against the store's cache. */
  function Authenticate(env: Env, s: Store, header: Option<string>): Result<Claims>
  {
    ValidateToken(env.jwt, s.cache, header)
  }

  function UserIdIs(id: Id): User -> bool
  {
    (u: User) => u.id == id
  }

  function UserEmailIs(email: string): User -> bool
  {
    (u: User) => u.email == email
  }

  function UserById(s: Store, id: Id): Option<User>
  {
    Find(s.users, UserIdIs(id))
  }

  function UserByEmail(s: Store, email: string): Option<User>
  {
    Find(s.users, UserEmailIs(email))
  }

  function ProductIdIs(id: Id): Product -> bool
  {
    (p: Product) => p.id == id
  }

  function ProductById(s: Store, id: Id): Option<Product>
  {
    Find(s.products, ProductIdIs(id))
  }

  /** Selects the picture links of `product`. */
  function PictureLinkOf(product: Id): ProductPicture -> bool
  {
    (pp: ProductPicture) => pp.product == product
  }

  function AvailableIdIs(id: Id): Product -> bool
  {
    (p: Product) => p.id == id && p.isAvailable
  }

  /** `findOne({ where: { id, isAvailable: true } })`. */
  function AvailableProductById(s: Store, id: Id): Option<Product>
  {
    Find(s.products, AvailableIdIs(id))
  }

  function OrderIdIs(id: Id): Order -> bool
  {
    (o: Order) => o.id == id
  }

  function OrderById(s: Store, id: Id): Option<Order>
  {
    Find(s.orders, OrderIdIs(id))
  }

  function WithStatus(status: OrderStatus): Order -> Order
  {
    (o: Order) => o.(status := status)
  }

  /** `orderRepository.update(id, { status })`: every row with that id
      takes the status; nothing else changes. */
  function SetOrderStatus(s: Store, id: Id, status: OrderStatus): (t: Store)
    ensures t == s.(orders := t.orders) && |t.orders| == |s.orders|
    ensures forall k :: 0 <= k < |s.orders| ==>
      t.orders[k] == (if s.orders[k].id == id then s.orders[k].(status := status) else s.orders[k])
  {
    s.(orders := Update(s.orders, OrderIdIs(id), WithStatus(status)))
  }

  function ProfileOf(s: Store, user: Id): Option<Profile>
  {
    Find(s.profiles, (p: Profile) => p.user == user)
  }

  /** Hands out an id no row uses yet. */
  function Fresh(s: Store): (r: (Id, Store))
    ensures r.0 == s.nextId && r.1 == s.(nextId := s.nextId + 1)
  {
    (s.nextId, s.(nextId := s.nextId + 1))
  }

  /** After a status write the order is found where it was, carrying the
      new status. */
  lemma OrderAfterStatus(s: Store, id: Id, status: OrderStatus)
    requires OrderById(s, id).Some?
    ensures OrderById(SetOrderStatus(s, id, status), id) == Some(OrderById(s, id).value.(status := status))
  {
    FindIndexAfterUpdate(s.orders, OrderIdIs(id), WithStatus(status), OrderIdIs(id));
  }

  /** Every id the store mentions was handed out by `Fresh`: the row ids of
      the tables a service inserts into, and the order ids the order child
      tables point at. */
  ghost predicate IdsIssued(s: Store)
  {
    (forall i :: 0 <= i < |s.carts| ==> s.carts[i].id < s.nextId) &&
    (forall i :: 0 <= i < |s.orders| ==> s.orders[i].id < s.nextId) &&
    (forall i :: 0 <= i < |s.orderLines| ==> s.orderLines[i].id < s.nextId && s.orderLines[i].order < s.nextId) &&
    (forall i :: 0 <= i < |s.orderAddresses| ==> s.orderAddresses[i].id < s.nextId && s.orderAddresses[i].order < s.nextId) &&
    (forall i :: 0 <= i < |s.orderTransactions| ==> s.orderTransactions[i].id < s.nextId && s.orderTransactions[i].order < s.nextId &&
                                                    s.orderTransactions[i].transaction < s.nextId) &&
    (forall i :: 0 <= i < |s.transactions| ==> s.transactions[i].id < s.nextId) &&
    (forall i :: 0 <= i < |s.productPictures| ==> s.productPictures[i].id < s.nextId) &&
    (forall i :: 0 <= i < |s.inventories| ==> s.inventories[i].id < s.nextId) &&
    (forall i :: 0 <= i < |s.products| ==> s.products[i].id < s.nextId) &&
    (forall i :: 0 <= i < |s.users| ==> s.users[i].id < s.nextId)
  }
}
