/**
 * One datatype per database entity the services touch (the TypeORM classes
 * under `src/entities`). Relations are held as the referenced row's id;
 * `Option` marks a relation the code may leave `null`.
 */
module Entities {
  import opened Common

  /** `users`: `type` is the role code (see `Common.Buyer` and friends). */
  datatype User = User(id: Id, email: string, password: string, salt: string, activated: bool, role: int)

  /** `userprofiles`, one per user. */
  datatype Profile = Profile(id: Id, user: Id, firstName: string, lastName: string)

  /** `addresses`: a user's addresses, at most one meant to be the default. */
  datatype Address = Address(id: Id, user: Id, text: string, isDefault: bool)

  /** `products`: `amount` is the unit price; `owner` is the selling user. */
  datatype Product = Product(id: Id, name: string, amount: Money, description: string, isAvailable: bool, owner: Option<Id>)

  /** `productpictures`: links a product to an uploaded picture; the picture
      side is `null` when the link was made for an id with no picture row. */
  datatype ProductPicture = ProductPicture(id: Id, product: Id, picture: Option<Id>)

  /** `productinventory`, one per product. */
  datatype Inventory = Inventory(id: Id, product: Id, totalQuantity: int, quantityInStock: int)

  /** `productrating`: a 1..5 rating with an optional review text. */
  datatype Rating = Rating(id: Id, product: Id, rating: int, review: Option<string>)

  /** `carts`: one line per (user, product) in intent; `quantity` defaults to 1. */
  datatype CartLine = CartLine(id: Id, user: Id, product: Id, quantity: int)

  /** The seven values of the `orders.status` enum column. */
  datatype OrderStatus =
    | PendingPaymentConfirmation
    | PaymentCompleted
    | Packaging
    | Packaged
    | OutForDelivery
    | Delivered
    | Cancelled

  /** The status as the code spells it. */
  function StatusLabel(st: OrderStatus): string
  {
    match st
    case PendingPaymentConfirmation => "Pending Payment Confirmation"
    case PaymentCompleted => "Payment Completed"
    case Packaging => "Packaging"
    case Packaged => "Packaged"
    case OutForDelivery => "Out for Delivery"
    case Delivered => "Delivered"
    case Cancelled => "Cancelled"
  }

  /** `orders`: total and description are a snapshot of the cart. */
  datatype Order = Order(id: Id, orderNo: string, user: Id, totalAmount: Money, description: string, status: OrderStatus)

  /** `orderproducts`: `price` is the unit price at placement, `None` when
      the insert leaves the column unset. */
  datatype OrderLine = OrderLine(id: Id, order: Id, product: Id, quantity: int, price: Option<Money>)

  /** `orderaddresses`: the buyer's default address when the order was placed. */
  datatype OrderAddress = OrderAddress(id: Id, order: Id, address: Option<Id>)

  datatype TransactionStatus = Pending | Completed | Failed

  /** `transactions`: `ref` is the correlation key shared with the gateway. */
  datatype Transaction = Transaction(id: Id, ref: string, amount: Money, status: TransactionStatus, user: Id)

  /** `ordertransactions`: joins an order to its payment transaction. */
  datatype OrderTransaction = OrderTransaction(id: Id, order: Id, transaction: Id)
}
