/**
 * The entities of the shop (api/models.py): enumerations, records and the
 * field bounds the request/response schemas impose, plus the error kinds
 * raised by the order, payment and stock logic.
 */
module Models {

  type Id = string

  /** Creation times are supplied by the caller (the source reads the clock). */
  type Timestamp = int

  /** Bounds on `OrderItem.qty`, shared by the schema and the validator. */
  const MinQty: int := 1
  const MaxQty: int := 10

  const DefaultCurrency: string := "TRY"

  datatype UserRole = Customer | Admin

  datatype OrderStatus = Created | Paid | Cancelled

  datatype PaymentMethod = Card | Transfer

  datatype PaymentStatus = Initiated | Captured | Failed | Refunded

  /** A stored account; the password hash is opaque to this model. */
  datatype User = User(id: Id, email: string, passwordHash: string, role: UserRole)

  /** The authenticated caller a handler acts for. */
  datatype Principal = Principal(id: Id, role: UserRole)

  datatype Product = Product(
    id: Id,
    name: string,
    price: real,
    currency: string := DefaultCurrency,
    stock: int,
    isActive: bool := true)
  {
    /** Schema bounds: a price and a stock that are not negative. */
    predicate Valid() {
      price >= 0.0 && stock >= 0
    }
  }

  datatype OrderItem = OrderItem(productId: Id, qty: int)
  {
    /** Schema bound on the quantity of one line. */
    predicate Valid() {
      MinQty <= qty <= MaxQty
    }
  }

  datatype Order = Order(
    id: Id,
    userId: Id,
    items: seq<OrderItem>,
    totalAmount: real,
    currency: string,
    status: OrderStatus,
    createdAt: Timestamp)

  datatype Payment = Payment(
    id: Id,
    orderId: Id,
    amount: real,
    currency: string,
    paymentMethod: PaymentMethod,
    status: PaymentStatus,
    providerRef: string,
    createdAt: Timestamp)
  {
    predicate Valid() {
      amount >= 0.0
    }
  }

  datatype OrderCreateRequest = OrderCreateRequest(items: seq<OrderItem>)
  {
    /** Schema bounds: at least one item, each with a valid quantity. */
    predicate Valid() {
      |items| >= 1 && forall i :: 0 <= i < |items| ==> items[i].Valid()
    }
  }

  datatype PaymentCreateRequest = PaymentCreateRequest(orderId: Id, paymentMethod: PaymentMethod)

  /** Which ownership rule a `Forbidden` error comes from. */
  datatype Action = ViewOrder | CancelOwnOrder | PayOrder | ViewPayment

  /** One constructor per kind of HTTP error the modelled code raises; `Forbidden` tells its four ownership checks apart by `action`. */
  datatype Error =
    | EmptyCart
    | InvalidQuantity
    | ProductNotFound(productId: Id)
    | ProductInactive(productId: Id)
    | InsufficientStock(productId: Id, available: int, requested: int)
    | CartTotalTooLow(total: real)
    | CartTotalTooHigh(total: real)
    | CustomerRoleRequired
    | OrderNotFound(orderId: Id)
    | Forbidden(action: Action)
    | CannotCancelPaid
    | AlreadyCancelled
    | InvalidOrderState(status: OrderStatus)
    | PaymentExists(orderId: Id)
    | AmountMismatch(amount: real, total: real)
    | PaymentNotFound(paymentId: Id)

  /** The total quantity the given items ask of product `pid`. */
  function QtyFor(items: seq<OrderItem>, pid: Id): int
  {
    if |items| == 0 then 0
    else (if items[0].productId == pid then items[0].qty else 0) + QtyFor(items[1..], pid)
  }

  lemma {:induction false} QtyForAppend(a: seq<OrderItem>, b: seq<OrderItem>, pid: Id)
    ensures QtyFor(a + b, pid) == QtyFor(a, pid) + QtyFor(b, pid)
  {
    if |a| == 0 {
      assert a + b == b;
    } else {
      assert (a + b)[1..] == a[1..] + b;
      QtyForAppend(a[1..], b, pid);
    }
  }

  /** Items with positive quantities never ask for a negative amount of stock. */
  lemma {:induction false} QtyForNonNegative(items: seq<OrderItem>, pid: Id)
    requires forall i :: 0 <= i < |items| ==> items[i].qty >= 0
    ensures QtyFor(items, pid) >= 0
  {
    if |items| > 0 {
      QtyForNonNegative(items[1..], pid);
    }
  }

  /** A product no item names is asked for nothing. */
  lemma {:induction false} QtyForAbsent(items: seq<OrderItem>, pid: Id)
    requires forall i :: 0 <= i < |items| ==> items[i].productId != pid
    ensures QtyFor(items, pid) == 0
  {
    if |items| > 0 {
      QtyForAbsent(items[1..], pid);
    }
  }
}
