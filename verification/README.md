# Order, inventory and payment core of a small web shop, in Dafny

This project models the business core of a web shop for orders and payments. It covers:

- the in-memory store: users, products, orders, payments, and an index from each order to its latest payment;
- the two stock primitives: check-and-decrement, and unconditional increment;
- the order validator and pricer;
- stock reservation, which is all-or-nothing with a compensating rollback, and its inverse, release;
- the cancellation guard, the payment guard, and capture-or-fail;
- the handlers that create, read and cancel orders and create and read payments;
- the product picker of the test-data module.

The store is an immutable `Store` record of maps. Each storage call is one atomic step: a getter is a function that reads the store, every writer is a function that returns the new store, and `ListProducts` is a method that builds its list in a loop. Every business operation returns a result or error together with the new store. `Error` has one constructor per kind of HTTP error the modelled code raises. Some constructors stand for several raise sites: `InsufficientStock` for the pre-check and for reservation, `OrderNotFound` for each order handler, and `Forbidden` for four ownership checks, which its `Action` tag tells apart.

Modules (one file each):

- `Wrappers`: Option / Result / Outcome.
- `Models`: the entities and schema bounds of `api/models.py`, including the defaults `currency = "TRY"` and `isActive = true` for products.
- `Storage`: `api/storage.py`.
- `BusinessLogic`: `api/business_logic.py`.
- `Handlers`: the order and payment handlers of `api/main.py`.
- `Invariants`: store-wide invariants that all handlers together keep.
- `TestData`: `pick_valid_product_and_qty`.

Modelling choices:

- Money is a Dafny `real`. The 0.01 settlement tolerance is an exact comparison.
- Generated ids, the provider-reference uuid and timestamps are parameters. The authenticated caller `{id, role}` is an input.
- The role gate `require_customer` (api/auth.py:99-106) sits in the signatures of the create-order and cancel-order handlers. It is modelled as the first check of `CreateOrder` and `CancelOrder`.
- The source mutates the stored order object and then calls `update_order`. This is modelled as a value update under the same key. `Invariants.StepPreservesConsistency` proves that every order stays stored under its own id, so the aliasing makes no difference.
- `get_payment_by_order` tests `if payment_id:`, so an empty payment id reads as absent. The model keeps this.

## Model

| member | source | states |
|---|---|---|
| Storage.AddUser | api/storage.py:19-22 | the user is found under their e-mail afterwards; no other e-mail and no other collection changes |
| Storage.GetUserByEmail | api/storage.py:24-26 | finds a user iff one is registered under the e-mail, and then it is that user; with `AddUser` it gives the add-then-get round trip |
| Storage.AddProduct | api/storage.py:36-39 | the product is found under its id afterwards; every other key and every other collection is unchanged |
| Storage.GetProduct | api/storage.py:41-43 | finds a product iff one is stored under the id, and then it is that product; `AddProduct` and `UpdateProduct` state their effect through it |
| Storage.UpdateProduct | api/storage.py:45-50 | a missing key gives None and leaves the store as it was; an existing key is replaced, and no other key, key set or collection changes |
| Storage.ListProducts | api/storage.py:52-56 | the result holds exactly the stored products (only the active ones when asked), one per key: the returned ghost key list has one entry per listed product, names each shown key exactly once and gives the product stored under it; every shown product is listed, and the length is the number of shown keys |
| Storage.DecreaseStock | api/storage.py:58-65 | succeeds iff the product exists with stock >= qty; on failure the store is unchanged; on success that product's stock drops by qty and nothing else changes |
| Storage.IncreaseStock | api/storage.py:67-72 | a missing product leaves the store unchanged; otherwise the product's stock rises by qty with no upper bound and nothing else changes |
| Storage.DecreaseThenIncreaseRestores | api/storage.py:58-72 | for qty <= stock, a decrement followed by an increment of the same qty gives back exactly the original store |
| Storage.DecreaseKeepsStockNonNegative | api/storage.py:62-64 | when all stocks start non-negative they stay so after any decrement, whatever the qty |
| Storage.AddOrder | api/storage.py:75-78 | the order is found under its id afterwards; no other order and no other collection changes |
| Storage.GetOrder | api/storage.py:80-82 | finds an order iff one is stored under the id, and then it is that order; `AddOrder` and `UpdateOrder` state their effect through it |
| Storage.UpdateOrder | api/storage.py:84-89 | a missing key gives None and leaves the store as it was; an existing key is replaced and nothing else changes |
| Storage.AddPayment | api/storage.py:92-96 | the payment is stored under its id and the index entry for its order points at it, so the latest write wins; other payments and other index entries are untouched |
| Storage.GetPayment | api/storage.py:98-100 | finds a payment iff one is stored under the id, and then it is that payment; `AddPayment` states its effect through it |
| Storage.GetPaymentByOrder | api/storage.py:102-108 | finds a payment iff the index has a non-empty id for the order and that id is stored; it is then the stored payment |
| Storage.PaymentByOrderAfterAdd | api/storage.py:92-108 | after storing a payment with a non-empty id, looking up its order finds exactly that payment; the lookup for every other order is unchanged, unless that order's index entry already named the new payment's id |
| BusinessLogic.ItemError | api/business_logic.py:30-57 | an item passes iff its qty is in [1,10] and its product exists, is active and has stock >= qty; the errors come in the source's order: a bad qty, then a missing product, then an inactive product, then InsufficientStock with the product's stock and the requested qty |
| BusinessLogic.PriceItems | api/business_logic.py:27-60 | the item loop succeeds iff every item passes; the total is then the running total plus the sum of price x qty; otherwise the error is that of the first rejected item |
| BusinessLogic.ValidateAndCalculateOrder | api/business_logic.py:15-75 | an empty cart gives EmptyCart; success iff all items pass and 50 <= sum of price x qty <= 5000; the result is then that sum in "TRY"; otherwise the first rejected item's error, or too-low / too-high exactly when the total is out of range; only reads the store |
| BusinessLogic.ReleaseStock | api/business_logic.py:109-112 | every product's stock rises by the total qty the items name for it; nothing else changes |
| BusinessLogic.ReserveFrom | api/business_logic.py:83-99 | the loop succeeds iff every item fits after the earlier ones; on success every product is debited by its items' total qty; on failure the earlier items are credited back, and the error names the first unfit item with its product's stock after rollback |
| BusinessLogic.ReserveStock | api/business_logic.py:78-106 | all-or-nothing: success iff all items fit in turn, debiting each product by its total qty; on failure the store is exactly as before, and the error reports the first unfit item with its pre-call stock (0 if the product is missing) |
| BusinessLogic.ReserveThenReleaseRestores | api/business_logic.py:78-112 | releasing the items of a successful reservation gives back exactly the original store |
| BusinessLogic.ReserveKeepsStockNonNegative | api/business_logic.py:86-99 | when all stocks start non-negative they stay so after a reservation |
| BusinessLogic.AcceptedDistinctItemsFit | api/business_logic.py:53-57 | when no product appears twice, a cart whose items all pass validation can always be reserved |
| BusinessLogic.RepeatedProductPassesValidationButNotReservation | api/business_logic.py:86-98 | a cart naming a product twice (3 + 3 against a stock of 5) passes validation, but reservation fails with InsufficientStock(A, 5, 3) and leaves the store unchanged |
| BusinessLogic.ValidateOrderCancellation | api/business_logic.py:115-130 | only a CREATED order passes; PAID gives CannotCancelPaid and CANCELLED gives AlreadyCancelled |
| BusinessLogic.ValidatePaymentCreation | api/business_logic.py:133-150 | passes iff the order is CREATED and the index finds no payment for it; a non-CREATED status is reported before an existing payment |
| BusinessLogic.ProcessPayment | api/business_logic.py:153-172 | captures iff the amount is within 0.01 of the total; a mismatch gives AmountMismatch, and the new store is the old one with the FAILED payment stored and indexed, nothing else changed; a capture marks the order PAID, changes nothing else, and returns the payment CAPTURED |
| BusinessLogic.FailedPaymentBlocksOrder | api/business_logic.py:144-165 | right after a failed capture of a CREATED order, the payment guard refuses that order with PaymentExists; the index entry is never cleared |
| Handlers.RequireCustomer | api/auth.py:99-106 | passes iff the caller's role is customer, and otherwise fails with CustomerRoleRequired |
| Handlers.CreateOrder | api/main.py:120-141 | succeeds iff the caller is a customer, validation passes and all items fit; a non-customer gets CustomerRoleRequired, a rejected cart the validator's error, and a failed reservation the reservation's error; the stored order is CREATED, owned by the caller, has the request's items, the cart total and "TRY"; stock is debited by the items; any failure leaves the store unchanged |
| Handlers.SchemaValidRequestPassesShapeChecks | api/models.py:94-110 | a request with 1 or more items, each qty in [1,10], never fails order creation with EmptyCart or InvalidQuantity |
| Handlers.OrderCreationScenarios | tests/test_orders.py:12-54 | with the seeded catalogue: one laptop (15000) gives CartTotalTooHigh; 2 of a product with stock 1 gives InsufficientStock(1, 2); one 10-priced item gives CartTotalTooLow(10); one mouse gives a CREATED order for 150 TRY and leaves 49 in stock |
| Handlers.GetOrderFor | api/main.py:144-161 | returns the stored order iff it exists and the caller is an admin or its owner; otherwise OrderNotFound or Forbidden |
| Handlers.CancelOrder | api/main.py:164-191 | succeeds iff the caller is a customer who owns a CREATED order; the order is then stored CANCELLED and its items' stock is released; a non-customer gets CustomerRoleRequired, then not-found, not-owner, and the cancellation guard's error for a PAID or CANCELLED order are reported in turn, and any failure leaves the store unchanged |
| Handlers.CreatePayment | api/main.py:195-238 | succeeds iff the order exists, the caller is an admin or its owner, and the payment guard passes; the payment copies amount and currency from the order and is CAPTURED, stored and indexed; the order becomes PAID; products and users are untouched and only the order's index entry changes; not-found, then Forbidden, then the payment guard's error; any failure leaves the store unchanged |
| Handlers.GetPaymentFor | api/main.py:241-259 | returns the stored payment iff it exists and, when its order exists, the caller is an admin or that order's owner; otherwise PaymentNotFound or Forbidden |
| Handlers.CreateThenGetOrder | api/main.py:120-161 | after a successful order creation, the creator and any admin read back exactly the created order, and another customer gets Forbidden |
| Handlers.PayThenGetPayment | api/main.py:195-259 | after a successful payment for an order stored under its own id, the payer reads back exactly the stored payment, and a customer who does not own the order gets Forbidden |
| Invariants.EmptyStoreConsistent | api/storage.py:10-16 | the empty store satisfies every store invariant |
| Invariants.IndexedIffFound | api/storage.py:102-108 | in a consistent store, the index lookup finds a payment exactly when the order has an index entry |
| Invariants.OnePaymentPerOrder | api/business_logic.py:144-150 | in a consistent store, two payments for the same order are the same payment |
| Invariants.PlaceOrderPreserves | api/main.py:124-139 | creating an order with a fresh id keeps every store invariant: stock stays non-negative, and the new order is validated, unpaid and unindexed |
| Invariants.CancelPreserves | api/main.py:182-189 | cancelling keeps every store invariant; released stock stays non-negative |
| Invariants.CaptureKeepsConsistent | api/business_logic.py:167-172 | marking a CREATED, unindexed order PAID while storing and indexing a fresh CAPTURED payment for its total keeps every store invariant |
| Invariants.PayPreserves | api/main.py:218-236 | paying with a fresh non-empty payment id keeps every store invariant |
| Invariants.StepPreservesConsistency | api/models.py:69-122 | every handler keeps these bounds: non-negative prices and stock, stored orders with 1 or more items, each qty in [1,10] and a total in [50,5000], CAPTURED payments for non-negative amounts each indexed under its order, and PAID exactly for indexed orders |
| Invariants.StepOnlyAdvancesOrders | api/business_logic.py:115-172 | no handler deletes an order or changes its owner, items or total; status moves only from CREATED to PAID or CANCELLED; PAID and CANCELLED orders never change |
| Invariants.SecondPaymentRejected | api/main.py:217-218 | after a successful payment, a second attempt for the same order by anyone allowed to see it fails with InvalidOrderState(PAID) |
| Invariants.CreateThenCancelRestoresStock | api/main.py:182-189 | cancelling an order just created restores every product's stock exactly and leaves the order CANCELLED |
| TestData.Ceil | tests/data/test_data.py:100 | the result is the least integer not below its argument |
| TestData.FirstSingle | tests/data/test_data.py:84-90 | finds the first product with positive price, min_total <= price <= max_total and stock >= 1, or reports that none qualifies |
| TestData.Phase2QtyIsLeast | tests/data/test_data.py:100-102 | the phase-two qty max(1, ceil(min_total / price)) is at least 1, reaches min_total, and is the fewest units that do |
| TestData.BestCandidate | tests/data/test_data.py:93-110 | returns a phase-two candidate with the smallest total, earliest on ties (the stable sort), or reports that none qualifies |
| TestData.Pick | tests/data/test_data.py:72-112 | no choice (the source raises) iff no product qualifies in either phase; a choice names a listed product meeting min_total <= price x qty <= max_total, stock >= qty and 1 <= qty <= max(1, max_qty); a missing stock counts as 10^9 |
| TestData.PickPrefersFirstSingle | tests/data/test_data.py:83-90 | when a product qualifies for phase one, the result is the first such product with qty 1 |
| TestData.PickFallsBackToBest | tests/data/test_data.py:92-110 | otherwise the result is the first least-total phase-two candidate with its phase-two qty |
| TestData.PickIgnoresMaxQty | tests/data/test_data.py:84-90 | with max_qty = 0, phase one still returns qty 1, breaking qty <= max_qty |
| TestData.PickCapped | tests/data/test_data.py:76-82 | with phase one also honouring max_qty, every choice meets all the documented rules, including qty <= max_qty; no choice iff nothing qualifies |

## Left out

- Locking and concurrent interleavings (api/storage.py:11 and each `with self._lock`). Every storage call is one sequential atomic step. The races between validation and reservation, and between the index check and the index write, are not modelled.
- Floating-point arithmetic. Prices and totals are exact reals. Float rounding of price x qty, of the running total and of `ceil` is not modelled.
- uuid generation and the clock. Ids, the provider-reference uuid and timestamps are parameters. Invariant lemmas assume fresh ids, and a non-empty id for payments.
- Password hashing, token encoding and decoding, and the user lookup behind `get_current_user` (api/auth.py). These are foreign library calls, so the caller is an input.
- `get_user_by_id` (api/storage.py:28-33). It scans dict values in insertion order and serves only authentication. The model keys users by e-mail without order.
- `add_product` and `get_product` are modelled. The product, register, login and health handlers, startup seeding and `uvicorn` are web plumbing and are not modelled.
- The generic `except Exception` rollback (api/business_logic.py:102-106). No step of the modelled reservation can raise anything but the insufficient-stock error.
- Storage.ListProducts: returns products in no particular order. A Dafny map has no insertion order, so the source's order is not modelled.
- HTTP status codes and error messages. Each kind of error is one `Error` constructor that carries the values its message mentions.
- The other helpers of the test-data module, the HTTP test clients and the end-to-end tests.

## Findings

| source | as written | input that shows it | evidently intended | confidence | as-written member | corrected member |
|---|---|---|---|---|---|---|
| tests/data/test_data.py:84-90 | phase one returns quantity 1 without comparing it with `max_qty` | one product priced 100 with stock 5, default totals, `max_qty` = 0: the result is quantity 1 > 0 | every returned quantity is at most `max_qty`, as the docstring at lines 77-81 states | low: only a cap below 1 shows it, and the callers use the default 10; not executed | TestData.PickIgnoresMaxQty | TestData.PickCapped |
