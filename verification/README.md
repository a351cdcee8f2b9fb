# BuyTrek order, cart and account core in Dafny

This project models the back end of BuyTrek, a NestJS marketplace, in Dafny. It covers:

- the buyer's cart (`CartService`);
- the order life cycle (`OrderService`): placing an order against the Paystack gateway, the payment webhook, cancellation, the fulfilment chain `Payment Completed → Packaging → Packaged → Out for Delivery → Delivered`, and the sellers' order listings;
- the older `CoreService`, which is still wired into the application and repeats the cart, cancellation and fulfilment rules with different lookups and gates;
- access tokens and one-time passwords (`AuthenticationUtils`);
- accounts, login, password reset, profile names and the default address (`UserService`);
- product ownership, picture links, stock and the rating average (`ProductService`);
- the `paginate` helper.

**How the model is built.**

- The database is one immutable `Storage.Store`. It has one sequence of rows per table, in the order the database returns them, plus the cache. `findOne` is the first matching row (`Tables.Find`).
- Every service method is a pure function from a store and its inputs to a `Step`. A `Step` pairs the resulting store with either a reply or an error of the kind the service throws.
- Writes made before a throw stay in the store, as they do in the database. An uncaught JavaScript `TypeError` is an `Internal` error.
- Row ids are natural numbers drawn from a counter (`Storage.Fresh`), and money is an integer in minor units.
- These are parameters, because their workings do not matter here:
  - the JWT implementation and the PBKDF2 hash (`Storage.Env`);
  - the HMAC over the webhook payload;
  - the gateway's reply;
  - `Math.random()` and `Date.now()`.

**Corrected variants.** Several operations take a flag, `corrected`, `scoped` or `dedupe`, that selects between the code as written and the evidently intended code. In `Checkout.Stage`, `corrected` both saves the order–transaction link and records each order line's price. "## Findings" lists each such defect together with the lemma that exhibits it.

**Modules.**

| module | file | what it holds |
|---|---|---|
| `Common` | `common.dfy` | role codes and error kinds |
| `Entities` | `entities.dfy` | rows |
| `Tables` | `tables.dfy` | repository primitives and their lemmas |
| `Text` | `text.dfy` | `split`, `trim` and the number-to-string used in references |
| `Auth` | `auth.dfy` | tokens and one-time passwords |
| `Storage` | `store.dfy` | the store and the lookups every service shares |
| `Carts` | `carts.dfy` | the cart service |
| `Checkout` | `checkout.dfy` | `initiateOrder` |
| `Payments` | `payments.dfy` | webhook and completion |
| `Fulfilment` | `fulfilment.dfy` | transitions and cancellation |
| `Listing` | `listing.dfy` | `getOrders` and `getNewOrders` |
| `Lifecycle` | `lifecycle.dfy` | placement followed by payment |
| `Legacy` | `legacy.dfy` | `CoreService` |
| `Users` | `users.dfy` | the user service |
| `Products` | `products.dfy` | the product service |
| `Paging` | `paging.dfy` | `paginate` |

## Model

| member | source | states |
|---|---|---|
| Auth.ValidateToken | src/utils/Authentication.ts:39-57 | A header is accepted exactly when it starts with `Bearer `, its second space-separated field verifies as a JWT, and the cache holds that same token for the user the token names. The claims returned are the verified ones, and every refusal is Unauthorized. |
| Auth.BearerTokenRoundTrip | src/utils/Authentication.ts:40-44 | The token a client sends after `Bearer ` is exactly what the header parsing extracts. |
| Auth.GenerateToken | src/utils/Authentication.ts:17-37 | The signed `{userId, type}` token replaces the user's cache slot and expires one hour after issue. Nothing else in the cache changes. |
| Auth.IssuedTokenValidates | src/utils/Authentication.ts:17-57 | A freshly issued token validates, yielding the claims it was issued for. |
| Auth.OnlyLatestTokenValidates | src/utils/Authentication.ts:25-29 | Issuing a second, different token for the same user makes the first one fail validation. |
| Auth.Logout | src/utils/Authentication.ts:59-61 | The user's token slot is removed; every other user's slot is kept. |
| Auth.LogoutRevokes | src/utils/Authentication.ts:47-61 | After logout no token of that user validates. |
| Auth.GenerateOtp | src/utils/Authentication.ts:63-73 | The code lies in 100000..999999 and replaces the user's previous code. Tokens and cached users are untouched. |
| Auth.ValidateOtp | src/utils/Authentication.ts:75-83 | True exactly when the cached code equals the input. A match deletes the code; a mismatch leaves the cache unchanged. |
| Auth.OtpSingleUse | src/utils/Authentication.ts:63-83 | A generated code validates once; presented again it is refused. |
| Auth.OtpReplaced | src/utils/Authentication.ts:63-83 | After a second code is generated, the first validates only if the two coincide. |
| Paging.PageSize | src/utils/Helper.ts:6 | `take` is the size when the size is positive, else 50. |
| Paging.CurrentPage | src/utils/Helper.ts:7 | The page is used when it is given and not negative, else 0. |
| Paging.Paginate | src/utils/Helper.ts:5-11 | `take >= 1`, `skip >= 0` and `skip = page × take`. |
| Paging.FirstPage | src/utils/Helper.ts:7-8 | A missing, zero or negative page starts at row 0. |
| Paging.NextPageFollows | src/utils/Helper.ts:5-11 | Consecutive pages follow each other without gap or overlap. |
| Paging.TotalPagesExact | src/order/service/order.service.ts:619 | `Math.ceil(total / take)` counts exactly the pages that hold rows. |
| Carts.AddToCart | src/cart/service/cart.service.ts:39-88 | Succeeds exactly when: the caller is a buyer with a user row; the product exists and is available; the caller has no line for it. It then appends one line of quantity 1. A non-buyer gets Unauthorized, and a missing or unavailable product gets NotFound. A buyer whose user row is gone gets Internal. A caller who already holds a line for the product gets BadRequest "Product Exists in Cart". A failure writes nothing. |
| Carts.AddToCartKeepsPairsUnique | src/cart/service/cart.service.ts:63-83 | `addToCart` never creates a second line for a (user, product) pair. |
| Carts.IncreaseQuantity | src/cart/service/cart.service.ts:90-142 | Needs an available product and the caller's line for it. Exactly that line gains one unit. |
| Carts.DecreaseQuantity | src/cart/service/cart.service.ts:144-195 | The product need not be available, and the caller's line loses one unit with no lower bound. |
| Carts.IncreaseThenDecrease | src/cart/service/cart.service.ts:90-195 | A successful increase followed by a decrease gives back the original store and replies "Product removed from cart". |
| Carts.AdjustRoundTrip | src/cart/service/cart.service.ts:90-195 | Moving the caller's line up by one and then down by one gives back the store. This holds whichever product row with the same id the second step found. |
| Carts.AdjustFound | src/cart/service/cart.service.ts:90-195 | When the buyer's line for the product is found, the adjustment changes that line's quantity by the step and writes nothing else. |
| Carts.RemoveFromCart | src/cart/service/cart.service.ts:197-244 | Deletes exactly the caller's line for the product. A missing line gives BadRequest "Product does not exist in Cart". |
| Carts.AddThenRemove | src/cart/service/cart.service.ts:39-244 | Adding a product and then removing it restores the cart table. |
| Carts.GetCart | src/cart/service/cart.service.ts:246-317 | Reads only. A missing user row gives NotFound "User not Found", and a cart with no available line gives NotFound "Cart is Empty". For a buyer with a user row, the reply succeeds exactly when the cart is non-empty and every line's picture links resolve. Item i then shows line i's product id, its quantity, its quantity × price and the product's pictures, and the total is the cart's value. |
| Carts.ItemsBuiltExactly | src/cart/service/cart.service.ts:280-317 | The basket is built exactly when every line's product pictures resolve. |
| Carts.ItemsShowProducts | src/cart/service/cart.service.ts:280-317 | Each item shows its line's product name, amount and description as stored, and that product's pictures. |
| Carts.Items | src/cart/service/cart.service.ts:279-312 | Each item carries its line's product, quantity and `quantity × amount`. A picture link without a picture fails the call. |
| Carts.ItemsTotal | src/cart/service/cart.service.ts:279-316 | The basket total is the sum of its items' totals. |
| Carts.PictureIds | src/cart/service/cart.service.ts:290-301 | The picture ids resolve exactly when every link has a picture. |
| Checkout.MapSet | src/order/service/order.service.ts:126 | `Map.set` keeps keys distinct and adds the product id. |
| Checkout.Collect | src/order/service/order.service.ts:117-127 | The products map has one entry per distinct product of the cart lines. |
| Checkout.CollectDistinct | src/order/service/order.service.ts:117-127 | With distinct products the map is exactly the lines, in order. |
| Checkout.OneOrderLinePerProduct | src/order/service/order.service.ts:117-160 | Exactly one order line is created per distinct product in the cart, and none for a product that was not in the cart. |
| Checkout.OrderLinesFor | src/order/service/order.service.ts:151-158 | One line per map entry, with consecutive fresh ids, the order, the product and the quantity. As written the price goes under `amount`, a key the order line does not have, so the price is left unset. The corrected variant records the product's current price. |
| Checkout.UnpricedLinesRecordNothing | src/order/service/order.service.ts:151-158 | As written, the order lines record a value of 0 whatever was bought. |
| Checkout.PricedLinesAddUp | src/order/service/order.service.ts:151-158 | Corrected, the order lines' quantity × price adds up to the value of the cart entries they were made from. |
| Checkout.Description | src/order/service/order.service.ts:121-129 | The description is the `q x name` pieces joined by `, `, with the trailing comma removed. |
| Checkout.TransactionRef | src/order/service/order.service.ts:251-259 | A transaction reference starts with `TXN-`. |
| Checkout.TransactionRefParts | src/order/service/order.service.ts:251-259 | The reference splits back into the prefix, the random part and the timestamp. |
| Checkout.TransactionRefInjective | src/order/service/order.service.ts:251-259 | Equal references come from the same random part at the same millisecond. |
| Checkout.PlaceOrder | src/order/service/order.service.ts:92-115 | A non-buyer is refused as Unauthorized, a missing user as NotFound, and an empty cart as NotFound. None of these writes anything. |
| Checkout.PlaceOrderProceeds | src/order/service/order.service.ts:92-249 | A request that passes the gates is handled by the staging and gateway step. |
| Checkout.Proceed | src/order/service/order.service.ts:184-248 | Every failure is BadRequest "Payment initialization failed. Please try again."; a success returns the new order's id. |
| Checkout.RollbackUndoesStage | src/order/service/order.service.ts:233-248 | The compensating deletes remove exactly the staged order, its lines, address and links. The transaction row stays. |
| Checkout.GatewayDeclineLeavesNoOrder | src/order/service/order.service.ts:184-248 | On a gateway decline, no order row of any kind survives and the cart is untouched. Only the pending transaction remains. |
| Checkout.CorrectedCheckoutPlacesOrder | src/order/service/order.service.ts:117-232 | Intended behaviour when the gateway accepts: the order is pending, with the cart's value and description, and its lines and address are saved. A pending transaction for the same amount is linked to it, and the gateway is asked for that amount. The cart is emptied. |
| Checkout.AsWrittenAuthorizedCheckoutLosesCart | src/order/service/order.service.ts:199-248 | As written, an accepted payment deletes the cart lines and then throws on `userprofile.user`. The order is rolled back, so no order exists and the cart is gone. |
| Checkout.AsWrittenInitiateOrderLosesCart | src/order/service/order.service.ts:92-249 | The same through the whole service. |
| Checkout.InitiateOrderAsWritten | src/order/service/order.service.ts:205-214 | As written, placing an order never succeeds. |
| Checkout.InitiateOrder | src/order/service/order.service.ts:227-232 | The corrected service replies with the new order's id. |
| Payments.Webhook | src/order/service/order.service.ts:261-284 | A caller outside the allow-list gets Forbidden, and a signature that does not match gets BadRequest. Neither writes. An authentic call is acknowledged `OK`, and the store is whatever the completion left. The completion is neither awaited nor caught. |
| Payments.WebhookAcknowledgesFailedCompletion | src/order/service/order.service.ts:275-280 | An authentic call is acknowledged even when the completion fails. |
| Lifecycle.ChargeRejectsUnhandledIffUnlinked | src/order/service/order.service.ts:261-284 | For a freshly staged order, the authentic charge event leaves an unhandled rejected completion exactly when the order was staged as written, without its link. |
| Payments.CompleteOrder | src/order/service/order.service.ts:286-387 | An unknown reference gives NotFound; other events are ignored; a wrong amount gives BadRequest with nothing written. Otherwise the transaction is marked completed and the linked order set to `Payment Completed`. The reply is success exactly when the link and the buyer's profile exist. |
| Payments.CompletionIdempotent | src/order/service/order.service.ts:286-326 | A replayed completion leaves the store as the first one left it. |
| Payments.PaidEventOverridesStatus | src/order/service/order.service.ts:324-326 | The order's earlier status is not checked: any linked order becomes `Payment Completed`. |
| Payments.DeliveredOrderRewoundByReplay | src/order/service/order.service.ts:303-326 | A concrete case: a delivered order is put back to `Payment Completed` by a replayed event. |
| Payments.UnlinkedCompletionFails | src/order/service/order.service.ts:310-324 | Without an order link the transaction is marked completed, no order changes, and the completion fails. |
| Lifecycle.StagedRowsFound | src/order/service/order.service.ts:132-322 | The completion finds the staged order's transaction by reference, the link by transaction and the order by id. |
| Lifecycle.LinkedOrderIsPaid | src/order/service/order.service.ts:286-385 | With the link, the charge event completes and the staged order becomes `Payment Completed`. |
| Lifecycle.UnlinkedOrderStaysPending | src/order/service/order.service.ts:160-324 | As staged by the code, the charge event fails and the order stays pending. |
| Lifecycle.CheckoutThenChargePays | src/order/service/order.service.ts:92-387 | In the corrected flow: checkout, then the signed charge event for the cart's value. The event is acknowledged, the new order ends `Payment Completed` with the cart's value, and the cart is empty. |
| Fulfilment.TransitionsFormTheChain | src/order/service/order.service.ts:874-1104 | Each transition moves one step along the chain, from a status no other transition accepts. |
| Fulfilment.NextActionMatchesTransitions | src/core/service/core.service.ts:788-798 | The `nextAction` hint is non-empty exactly for the statuses some transition accepts. |
| Fulfilment.Progress | src/order/service/order.service.ts:874-1104 | A transition succeeds exactly on its predecessor status and writes its target. Any other status gives BadRequest, and a missing order gives NotFound. The exception is `…Delivered`, which reads the status first and fails with a TypeError. |
| Fulfilment.Advance | src/order/service/order.service.ts:874-1104 | Only roles 1 and 3 pass. A caller without a profile is refused as Unauthorized. |
| Fulfilment.AdvanceChangesOnlyThatOrder | src/order/service/order.service.ts:874-1104 | A transition changes only the named order's status, exactly one rank forward. |
| Fulfilment.ChainSucceeds | src/order/service/order.service.ts:874-1104 | Transitions whose targets and requirements line up succeed one after another. |
| Fulfilment.FulfilmentRunsToDelivery | src/order/service/order.service.ts:874-1104 | The four transitions in order take a paid order to `Delivered`. |
| Fulfilment.AdvanceStatus | src/order/service/order.service.ts:874-930 | After one transition the caller still passes the gate and the order carries the target. |
| Fulfilment.OutOfOrderTransitionRefused | src/order/service/order.service.ts:874-1104 | A skipped or repeated step is refused with no write. |
| Fulfilment.FinalStatusesStay | src/order/service/order.service.ts:874-1104 | No transition accepts a pending, delivered or cancelled order. |
| Fulfilment.CancelOrder | src/order/service/order.service.ts:389-459 | Succeeds exactly for a buyer with a profile on a pending or paid order. `payment` sets the order Cancelled, and `paymentcancelled` deletes its links, lines, address and the order. Any other type writes nothing yet still replies "Order Cancelled". |
| Fulfilment.Purge | src/order/service/order.service.ts:430-441 | No row naming the order remains; the other orders' rows are kept. |
| Fulfilment.CancelIsFinal | src/order/service/order.service.ts:419-429 | A cancelled order cannot be cancelled again and no transition moves it. |
| Fulfilment.WithdrawRemovesOrder | src/order/service/order.service.ts:430-441 | Withdrawing removes the order and its lines; other orders, carts and transactions are kept. |
| Fulfilment.CancelIgnoresOwnership | src/order/service/order.service.ts:396-429 | A buyer may cancel another buyer's order. |
| Listing.Summary | src/order/service/order.service.ts:567-611 | An entry carries its order's id and status and the view's hint. |
| Listing.Summaries | src/order/service/order.service.ts:567-613 | As written, there is one entry per line, for that line's order. A failure is always Internal. |
| Listing.SummariesSucceed | src/order/service/order.service.ts:567-613 | The loop finishes whenever every line's product pictures resolve, with or without de-duplication. |
| Listing.SummariesNeedPictures | src/order/service/order.service.ts:567-613 | Without de-duplication, the loop finishes only if every line's product pictures resolve. |
| Listing.SummariesNeedLine | src/order/service/order.service.ts:567-613 | Without de-duplication, any line of a page whose loop finished has resolving product pictures. |
| Listing.SummariesStep | src/order/service/order.service.ts:567-613 | Without de-duplication, the loop finishes only if it finished on all lines but the last and the last line's entry was built. |
| Listing.SummariesCoverLines | src/order/service/order.service.ts:567-613 | The entries list exactly the orders of the page's lines. |
| Listing.SummariesFaithful | src/order/service/order.service.ts:589-609 | Each entry reports its order's current status and the view's hint. |
| Listing.SummariesDistinct | src/order/service/order.service.ts:569-571 | With the intended de-duplication no order is listed twice. |
| Listing.ListedLines | src/order/service/order.service.ts:542-563 | The query selects the seller's product lines of orders in the view's statuses. |
| Listing.GetOrders | src/order/service/order.service.ts:531-701 | Reads only, and any caller other than roles 1 and 3 gets Unauthorized. For roles 1 and 3 the reply is a page exactly when the loop over the page window finishes. The total is the number of lines, `totalPages` is `ceil(total / take)`, `currentPage` echoes the requested page or 0, and the orders are the summaries of the window. |
| Listing.ListingProduced | src/order/service/order.service.ts:531-701 | A role 1 or 3 caller gets a page whenever the product pictures of the window's lines resolve. Without de-duplication, only then. |
| Listing.ListingShowsOnlyView | src/order/service/order.service.ts:542-613 | A listing shows only statuses its view is for, with the right hint, and every order of the page's lines. |
| Listing.SummariesShowOnlyView | src/order/service/order.service.ts:567-611 | When every line of the window is the seller's line in the view, the entries list exactly the window's orders, each in a status of the view and with that status's hint. |
| Listing.AsWrittenRepeatsOrders | src/order/service/order.service.ts:569 | A concrete case: two lines of one order give two entries as written, and one entry with de-duplication. |
| Listing.IntendedListsEachOrderOnce | src/order/service/order.service.ts:567-613 | With de-duplication each order of the page's lines is listed exactly once. |
| Listing.PageCountExact | src/order/service/order.service.ts:615-622 | The reported page count is the number of pages that hold rows. |
| Legacy.LegacyAddToCart | src/core/service/core.service.ts:256-301 | There is no availability check, and any user's line for the product blocks the insert with BadRequest "Product Exists in Cart". |
| Legacy.LegacyAdjust | src/core/service/core.service.ts:303-381 | Increase and decrease move the first line for the product, whoever holds it. |
| Legacy.LegacyRemove | src/core/service/core.service.ts:383-417 | Deletes the first line for the product, whoever holds it. |
| Legacy.LegacyAddAgrees | src/core/service/core.service.ts:256-301 | When no other user holds the product, the legacy add of an available product replies and writes exactly as `CartService.addToCart`. |
| Legacy.LegacyIncreaseAgrees | src/core/service/core.service.ts:303-381 | When no other user holds the product, the legacy increase of an available product is `CartService`'s. |
| Legacy.LegacyDecreaseAgrees | src/core/service/core.service.ts:303-381 | When no other user holds the product, the legacy decrease is `CartService`'s. |
| Legacy.LegacyRemoveAgrees | src/core/service/core.service.ts:383-417 | When no other user holds the product, the legacy removal is `CartService`'s. |
| Legacy.LegacyAdjustHitsOtherHolder | src/core/service/core.service.ts:303-381 | When another user's line for the product comes first, the legacy adjustment succeeds, moves that line by the step and leaves every line of the caller unchanged. |
| Legacy.LegacyRemoveHitsOtherHolder | src/core/service/core.service.ts:383-417 | When another user's line for the product comes first, the legacy removal deletes that line and keeps every line of the caller. |
| Legacy.SoleHolderLine | src/core/service/core.service.ts:320-336 | When the caller is the only holder of the product, the first line for the product is the caller's line. |
| Legacy.LegacyCartIsShared | src/core/service/core.service.ts:279-289 | Another buyer's line blocks a product that the cart service would add. |
| Legacy.LegacyIncreaseHitsFirstHolder | src/core/service/core.service.ts:320-336 | The legacy increase raises another buyer's line and leaves the caller's own line unchanged. |
| Legacy.LegacyCancel | src/core/service/core.service.ts:419-477 | A pending or paid order becomes Cancelled, then the reply fails on the unloaded profile relation. Other statuses get BadRequest "Order not pending/payment completed". |
| Legacy.CancelAgreesWithOrderService | src/core/service/core.service.ts:419-477 | Both services leave the same store and refuse for the same kinds of reason. |
| Legacy.LegacyAdvance | src/core/service/core.service.ts:813-1039 | Role 1 only, the same predecessor chain, and an error reply after the write. |
| Legacy.LegacyAdvanceAgrees | src/core/service/core.service.ts:813-1039 | An administrator's transitions write the same store in both services. A staff member is refused by the legacy one. |
| Legacy.LegacyGetOrder | src/core/service/core.service.ts:730-811 | Reads only, and always fails. Only role 1 passes the gate, and a missing order gives NotFound. An order with a product that has picture links fails on `picture.picture.url`. Any other order fails on the order address: with a null message when the order has no address row, and on the unloaded `address` relation otherwise. |
| Legacy.LegacyGetUserOrders | src/core/service/core.service.ts:649-654 | The gate compares the token object with 0, so every caller is refused as Unauthorized. |
| Users.CheckPassword | src/users/service/user.service.ts:100-131 | Succeeds exactly when the hash matches. It issues a type-1 token and reports whether a profile exists. |
| Users.Login | src/users/service/user.service.ts:64-133 | On a cache miss, an account that is not activated gets the 403 payload and nothing is written. An unknown address fails (NotFound when corrected). Otherwise the reply is success exactly when the password hashes to the stored hash. An activated row read on a cache miss is cached before the password check, and the user cache is otherwise unchanged. A failure issues no token. |
| Users.LoginIssuesTypeOneToken | src/users/service/user.service.ts:127 | Every login token validates as type 1, so it never passes a buyer's gate. |
| Users.UnknownEmailCrashesLogin | src/users/service/user.service.ts:74-97 | A concrete case: an unknown address crashes the login as written, and gives NotFound when corrected. |
| Users.CreateUserAccount | src/users/service/user.service.ts:135-179 | An existing address gives Conflict with no write. Otherwise the new row stores the salted hash and the salt, not yet activated. A code in 100000..999999 is cached, and the reply is the new id. |
| Users.ActivateAccount | src/users/service/user.service.ts:181-215 | A wrong code gives Unauthorized and no write. A matching code is consumed and the account activated. |
| Users.SignUpActivateLogin | src/users/service/user.service.ts:64-215 | A new account's login gives the 403 payload. After activation with the issued code, the same password logs in. |
| Users.ActivationCodeSpent | src/users/service/user.service.ts:181-203 | A code that activated an account is refused when presented again. |
| Users.CompletePasswordReset | src/users/service/user.service.ts:280-326 | A wrong code gives Unauthorized. Otherwise the salt and hash are replaced and the cached row is evicted. |
| Users.ResetThenLogin | src/users/service/user.service.ts:280-326 | After a reset the new password logs in, and the old one is refused. |
| Users.UpdateProfile | src/users/service/user.service.ts:422-453 | The caller's profile takes only the truthy names; every other profile and field stays. |
| Users.ProfileUpdateSettles | src/users/service/user.service.ts:435-448 | A request with no truthy name changes nothing, and repeating a request changes nothing more. |
| Users.ProfileReadsBack | src/users/service/user.service.ts:435-448 | The profile read afterwards carries the new names. |
| Users.ClearDefault | src/users/service/user.service.ts:507-520 | Each address row is kept or only loses its default flag. Nothing changes when the user has no default row, and a changed row shares the id of the user's first default row. |
| Users.Redefault | src/users/service/user.service.ts:507-524 | The chosen row becomes default; ids, owners and texts are kept. |
| Users.RedefaultFrame | src/users/service/user.service.ts:507-524 | Apart from the chosen row, a changed row only lost its default flag and shares the id of the user's first default row. |
| Users.ClearDefaultOnlyFirst | src/users/service/user.service.ts:507-520 | With distinct ids, clearing touches exactly the user's first default row, and no row when there is none. |
| Users.RedefaultKeepsOthers | src/users/service/user.service.ts:507-524 | With distinct ids, the rows of other users are unchanged, except the chosen row. |
| Users.UpdateDefaultAddress | src/users/service/user.service.ts:481-529 | A missing address gives NotFound "Address not found". Otherwise the caller's default is cleared and the chosen address set. |
| Users.ClearDefaultClears | src/users/service/user.service.ts:507-520 | With at most one default per user, the user has no default left after clearing. |
| Users.RedefaultKeepsOneDefault | src/users/service/user.service.ts:497-524 | Picking one of the user's own addresses keeps one default per user, and the picked one is the user's only default. |
| Users.ForeignAddressBecomesDefault | src/users/service/user.service.ts:497-504 | The address is found by id alone, so another user's address can become a second default for its owner. |
| Products.CreateLinks | src/product/service/product.service.ts:100-115 | Only the requested ids that name a stored picture get linked. |
| Products.CreateProduct | src/product/service/product.service.ts:68-121 | Sellers only. Without an owner row the reply is BadRequest, and an unknown category gives NotFound. The product is appended on sale, linked to the existing requested pictures. |
| Products.MakeProductAvailable | src/product/service/product.service.ts:123-158 | Sellers only. A non-owner gets BadRequest. Only `isAvailable` of that product becomes true. |
| Products.MadeAvailableIsOnSale | src/product/service/product.service.ts:151-153 | The product is then found as available by the cart's lookup. |
| Products.MakeAvailableIdempotent | src/product/service/product.service.ts:123-158 | Putting a product on sale twice has the same effect as once. |
| Products.ReconcileLinksRequested | src/product/service/product.service.ts:316-355 | Afterwards the product is linked to exactly the requested ids that were linked before or name a stored picture. |
| Products.ScopedReconcileKeepsOthers | src/product/service/product.service.ts:347-354 | Deletion restricted to the product keeps every other product's links. |
| Products.ReconcileOrigin | src/product/service/product.service.ts:316-355 | Every remaining link was there before or belongs to the product. |
| Products.AsWrittenDropsEveryLink | src/product/service/product.service.ts:347-354 | As written, every link anywhere to a dropped picture is deleted. |
| Products.AsWrittenReconcileUnlinksOtherProducts | src/product/service/product.service.ts:347-354 | A concrete case: another product loses its picture. |
| Products.UpdateProduct | src/product/service/product.service.ts:260-360 | Nothing is written unless the caller is the owning seller, a given category exists and the existing links resolve. Past those gates the picture links are reconciled. It succeeds, writing only the truthy fields, exactly when no category was given. A given category reaches `update` under the key `category`, which is not a column: the call then fails with Internal and the fields are kept. |
| Products.WriteUpdate | src/product/service/product.service.ts:316-360 | Unresolved links fail with Internal and write nothing. Otherwise the links are reconciled. The fields are then updated and "Product updated" replied when no category was given, and left unchanged with an Internal error when one was. |
| Products.Relink | src/product/service/product.service.ts:316-353 | Only the picture links and the id counter change. Sending no pictures changes nothing. Otherwise the product shows exactly the requested pictures that it already showed or that exist. |
| Products.UpdateWritesTruthyFields | src/product/service/product.service.ts:285-289 | An amount of 0, an empty name or a missing description leaves the stored value. |
| Products.DeleteProduct | src/product/service/product.service.ts:362-403 | Seller or admin, and a seller must own the product. The product, its inventory and its links are deleted; other products are kept. |
| Products.CreateThenDelete | src/product/service/product.service.ts:68-403 | Deleting a just-created product restores the product, picture-link and inventory tables. |
| Products.AsWrittenCreatorCannotPublish | src/product/service/product.service.ts:77-83 | As written, the product belongs to the first user row, so its creator is refused when publishing it. |
| Products.CreatorCanPublish | src/product/service/product.service.ts:68-158 | With the caller as owner, the creator may publish the product. |
| Products.AddNewStock | src/product/service/product.service.ts:846-890 | The owning seller only; a product with no owner gives NotFound "User not found". The row is appended when absent. Otherwise the rows sharing the found row's id get both counts set to the payload's total, and every other row is kept. |
| Products.StockAfterRestock | src/product/service/product.service.ts:875-878 | The product's inventory row carries the new counts. |
| Products.RestockIdempotent | src/product/service/product.service.ts:846-890 | Stocking twice with the same total finds the same row the first call left. |
| Products.AverageRating | src/product/service/product.service.ts:233-237 | The average is 0 without ratings; otherwise average × count = the sum of scores. |
| Products.AverageWithinScale | src/product/service/product.service.ts:226-237 | With scores 1 to 5, a rated product's average lies between 1 and 5. |
| Products.Comments | src/product/service/product.service.ts:229-241 | The comments are exactly the reviews that are present. |
| Products.UnratedProduct | src/product/service/product.service.ts:218-241 | A product nobody rated averages 0 and has no comments. |

## Left out

- Notifications: every `NotificationService` e-mail is fire-and-forget I/O and is not modelled. Reading the profile fields it needs is modelled, because that read can throw.
- The HTTP call to the gateway's `transaction/initialize` and the URL building around it are not modelled. The gateway's reply is a function parameter.
- HMAC-SHA512 (RFC 2104), PBKDF2 (RFC 8018, section 5.2) and JWT signing and verification (RFC 7519) are uninterpreted function parameters. Only equality of their results matters.
- `Math.random()` and `Date.now()` are parameters. The cache time-to-lives and token expiry are not modelled.
- Database constraints (NOT NULL, UNIQUE, foreign keys) are not enforced: every write the code issues succeeds. One exception is the cart's non-null user in the legacy `addToCart`. This means the foreign keys that could make `deleteProduct` fail when the product has order lines or ratings are not modelled.
- Promises that are not awaited are modelled as completed in program order. These are the webhook's completion, the picture-link save in `updateProduct`, and the user cache write at login.
- Money is integer minor units. The webhook's `(amount / 100).toFixed(2)` string comparison is integer equality, and the gateway's `amount * 100` is the amount itself.
- Products.UpdateProduct: `findOneBy` ties the code to TypeORM 0.3, whose `update` throws `EntityPropertyNotFoundError` for the `category` key. The model states that failure, after the link writes, and not the exact TypeORM error object.
- `makeProductUnAvailable` and `getProduct` are not modelled, apart from `getProduct`'s `averageRating` and `comments`.
- Also not modelled: the seller and customer product listings and searches, `addRatingandComment`, the inventory views, `resendOtp`, `initiatePasswordReset`, and `createProfile`/`getProfile`.
- Also not modelled: the address CRUD other than `updateDefaultAddress`, `getSellerTransactions`, and the order service's `getUserOrders`/`getOrder`.
- Also not modelled: the legacy product operations and the legacy `getOrders`/`getNewOrders`.
- The controllers, modules, middleware, the category service, the picture upload and the two older copies of the user service are wiring or I/O, and are not modelled.
- Picture URLs are not modelled. A picture is its id, and a listing's `pictureUrl` is the first linked picture's id.
- Products.RestockIdempotent: states that the second call succeeds, keeps the table's length and finds the same row. It does not state full equality of the stores, because inventory ids are not assumed unique.
- Products.Comments: states which reviews appear, not their order.
- Products.AverageRating: exact real arithmetic instead of JavaScript floating point.
- Legacy.LegacyGetOrder: models the gate and the failure site only, not the view the method builds, which is never returned.
- Checkout.OrderLinesFor: the unset `price` is recorded as `None`. With MySQL in strict mode the NOT NULL column makes the insert at src/order/service/order.service.ts:160 fail before the `try`. That failure leaves the order and its address row without a transaction and keeps the cart, and the model does not show it.
- Payments.Webhook: the process ending on the unhandled rejection is not modelled. `Payments.LeavesUnhandledRejection` names when it happens.
- Legacy.LegacyAdvance: the reply is always an error after the write. The notification that fails is not modelled beyond that failure.

## Findings

| source | as written | input that shows it | evidently intended | confidence | as-written member | corrected member |
|---|---|---|---|---|---|---|
| src/order/service/order.service.ts:205-214 | The buyer's profile is read without its `user` relation, so `userprofile.user.emailAddress` throws after the cart lines were deleted. The order is rolled back. | Any buyer with a non-empty cart whose payment the gateway accepts | The profile is read with `relations: ['user']` and the order is placed | not executed | Checkout.AsWrittenInitiateOrderLosesCart | Checkout.CorrectedCheckoutPlacesOrder |
| src/order/service/order.service.ts:160-169 | No order–transaction link is ever saved, so `completeOrder` cannot find the order (line 324) | A charge event for the reference of a freshly staged order | The link is saved with the transaction, and payment completes the order | not executed | Lifecycle.UnlinkedOrderStaysPending | Lifecycle.LinkedOrderIsPaid |
| src/order/service/order.service.ts:151-158 | Each order line gets the product's price under the key `amount`, but the order line's column is `price`, so the price is never stored | Any order placed from a non-empty cart | Each order line records the product's price at placement | not executed | Checkout.UnpricedLinesRecordNothing | Checkout.PricedLinesAddUp |
| src/order/service/order.service.ts:569 | The ids to skip are read as `order.id` from entries that only have `orderId`, so nothing is skipped | Two lines of one order in a page | Each order is listed once | not executed | Listing.AsWrittenRepeatsOrders | Listing.IntendedListsEachOrderOnce |
| src/users/service/user.service.ts:74-97 | `user.activated` is read before the `!user` check, so an unknown address throws a TypeError | A login with an address no account has | NotFound "Invalid email address" | not executed | Users.UnknownEmailCrashesLogin | Users.Login |
| src/product/service/product.service.ts:351-353 | Links to the dropped pictures are deleted by picture id alone, across all products | Products 10 and 20 both showing picture 5; product 10 is updated to show only picture 6 | Only product 10's links are deleted | not executed | Products.AsWrittenReconcileUnlinksOtherProducts | Products.ScopedReconcileKeepsOthers |
| src/product/service/product.service.ts:78 | The owner is looked up by `isTokenValid.id`, which the token does not carry. The criterion is dropped and the first user row becomes the owner. | A seller who is not the first user creates a product, then publishes it | The caller (`isTokenValid.userId`) owns the product | not executed | Products.AsWrittenCreatorCannotPublish | Products.CreatorCanPublish |
