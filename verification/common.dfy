/**
 * Shared vocabulary of the BuyTrek model: identifiers, optional values,
 * the error taxonomy the services throw, and the numeric role codes carried
 * in access tokens.
 */
module Common {

  /** Row identifiers. The database generates UUIDs; the model hands out
      natural numbers from a counter kept in the store. */
  type Id = nat

  /** Amounts of money in minor units (kobo / cents). */
  type Money = int

  datatype Option<+T> = None | Some(value: T)

  /** The HTTP exception classes the services throw. `Internal` stands for an
      uncaught JavaScript error (typically a property read on `null` or
      `undefined`), which the framework answers with status 500. */
  datatype ErrorKind = Unauthorized | Forbidden | NotFound | BadRequest | Conflict | Internal

  datatype Error = Error(kind: ErrorKind, message: string)

  datatype Result<+T> = Ok(value: T) | Err(error: Error)

  /** Role codes as stored in `users.type` and signed into tokens. */
  const Buyer: int := 0
  const Admin: int := 1
  const Seller: int := 2
  const Staff: int := 3

  function Fail<T>(kind: ErrorKind, message: string): Result<T>
  {
    Err(Error(kind, message))
  }
}
