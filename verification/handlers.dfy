/**
 * The order and payment handlers of the web application (api/main.py):
 * the order in which they validate, check ownership, reserve or release
 * stock and write to the store. Generated ids, the clock and the
 * authenticated caller are parameters.
 */
module Handlers {
  import opened Wrappers
  import opened Models
  import opened Storage
  import opened BusinessLogic

  /** The role gate every customer-only handler passes first. */
  function RequireCustomer(user: Principal): (r: Outcome<Error>)
    ensures r.Pass? <==> user.role == Customer
    ensures r.Fail? ==> r.error == CustomerRoleRequired
  {
    if user.role != Customer then Fail(CustomerRoleRequired) else Pass
  }

  /** Admins see every order; anyone else only their own. */
  predicate MayAccess(user: Principal, o: Order)
  {
    user.role == Admin || o.userId == user.id
  }

  /**
   * Validate and price the cart, reserve its stock, then store a CREATED
   * order owned by the caller. Any failure leaves the store untouched.
   */
  function CreateOrder(s: Store, user: Principal, req: OrderCreateRequest, orderId: Id, now: Timestamp)
    : (r: (Result<Order, Error>, Store))
    ensures r.0.Success? <==>
              && user.role == Customer
              && ValidateAndCalculateOrder(s, req.items).Success?
              && AllFit(s, req.items)
    ensures user.role != Customer ==> r.0 == Failure(CustomerRoleRequired)
    ensures user.role == Customer && ValidateAndCalculateOrder(s, req.items).Failure? ==>
              r.0 == Failure(ValidateAndCalculateOrder(s, req.items).error)
    ensures user.role == Customer && ValidateAndCalculateOrder(s, req.items).Success? && !AllFit(s, req.items) ==>
              r.0 == Failure(ReserveStock(s, req.items).0.error)
    ensures r.0.Failure? ==> r.1 == s
    ensures r.0.Success? ==>
              var o := r.0.value;
              && o == Order(orderId, user.id, req.items, CartTotal(s, req.items), DefaultCurrency, Created, now)
              && GetOrder(r.1, orderId) == Some(o)
              && (forall k :: k != orderId ==> GetOrder(r.1, k) == GetOrder(s, k))
              && StockAdjusted(s, r.1.(orders := s.orders), req.items, -1)
  {
    if RequireCustomer(user).Fail? then (Failure(CustomerRoleRequired), s)
    else
      match ValidateAndCalculateOrder(s, req.items)
      case Failure(e) => (Failure(e), s)
      case Success(priced) =>
        var (reserved, s1) := ReserveStock(s, req.items);
        if reserved.Fail? then (Failure(reserved.error), s1)
        else
          var o := Order(orderId, user.id, req.items, priced.total, priced.currency, Created, now);
          (Success(o), AddOrder(s1, o))
  }

  /**
   * A request that passed the schema (at least one item, each quantity in
   * [1,10]) never meets the validator's empty-cart or quantity errors.
   */
  lemma SchemaValidRequestPassesShapeChecks(s: Store, user: Principal, req: OrderCreateRequest, orderId: Id, now: Timestamp)
    requires req.Valid()
    ensures CreateOrder(s, user, req, orderId, now).0 != Failure(EmptyCart)
    ensures CreateOrder(s, user, req, orderId, now).0 != Failure(InvalidQuantity)
  {
  }

  /** The catalogue the end-to-end order tests seed. */
  function SeededStore(): Store
  {
    EmptyStore.(products := map[
      "laptop" := Product(id := "laptop", name := "Laptop", price := 15000.0, stock := 10),
      "limited" := Product(id := "limited", name := "LimitedStock", price := 100.0, stock := 1),
      "cheap" := Product(id := "cheap", name := "TooCheap", price := 10.0, stock := 10),
      "mouse" := Product(id := "mouse", name := "Mouse", price := 150.0, stock := 50)])
  }

  /**
   * The order-creation cases the end-to-end tests exercise: a too-expensive
   * cart, a cart short of stock, a too-cheap cart, and a successful one.
   */
  lemma OrderCreationScenarios(user: Principal, now: Timestamp)
    requires user.role == Customer
    ensures var s := SeededStore();
            && CreateOrder(s, user, OrderCreateRequest([OrderItem("laptop", 1)]), "o1", now).0
                 == Failure(CartTotalTooHigh(15000.0))
            && CreateOrder(s, user, OrderCreateRequest([OrderItem("limited", 2)]), "o2", now).0
                 == Failure(InsufficientStock("limited", 1, 2))
            && CreateOrder(s, user, OrderCreateRequest([OrderItem("cheap", 1)]), "o3", now).0
                 == Failure(CartTotalTooLow(10.0))
            && var r := CreateOrder(s, user, OrderCreateRequest([OrderItem("mouse", 1)]), "o4", now);
               && r.0 == Success(Order("o4", user.id, [OrderItem("mouse", 1)], 150.0, DefaultCurrency, Created, now))
               && Available(r.1, "mouse") == 49
  {
  }

  /** Reading an order: it must exist, and the caller must be an admin or its owner. */
  function GetOrderFor(s: Store, user: Principal, oid: Id): (r: Result<Order, Error>)
    ensures r.Success? <==> oid in s.orders && MayAccess(user, s.orders[oid])
    ensures r.Success? ==> r.value == s.orders[oid]
    ensures oid !in s.orders ==> r == Failure(OrderNotFound(oid))
    ensures oid in s.orders && !MayAccess(user, s.orders[oid]) ==> r == Failure(Forbidden(ViewOrder))
  {
    match GetOrder(s, oid)
    case None => Failure(OrderNotFound(oid))
    case Some(o) =>
      if user.role != Admin && o.userId != user.id then Failure(Forbidden(ViewOrder))
      else Success(o)
  }

  /**
   * Cancel an order: customer only, the order must exist and belong to the
   * caller, and only a CREATED order passes the guard. Its items' stock is
   * released and it is stored CANCELLED; any failure leaves the store as it was.
   */
  function CancelOrder(s: Store, user: Principal, oid: Id): (r: (Result<Order, Error>, Store))
    ensures r.0.Success? <==>
              && user.role == Customer
              && oid in s.orders
              && s.orders[oid].userId == user.id
              && s.orders[oid].status == Created
    ensures user.role == Customer && oid !in s.orders ==> r.0 == Failure(OrderNotFound(oid))
    ensures user.role == Customer && oid in s.orders && s.orders[oid].userId != user.id ==>
              r.0 == Failure(Forbidden(CancelOwnOrder))
    ensures user.role != Customer ==> r.0 == Failure(CustomerRoleRequired)
    ensures user.role == Customer && oid in s.orders && s.orders[oid].userId == user.id
            && s.orders[oid].status != Created ==>
              r.0 == Failure(ValidateOrderCancellation(s.orders[oid]).error)
    ensures r.0.Failure? ==> r.1 == s
    ensures r.0.Success? ==>
              && r.0.value == s.orders[oid].(status := Cancelled)
              && GetOrder(r.1, oid) == Some(r.0.value)
              && (forall k :: k != oid ==> GetOrder(r.1, k) == GetOrder(s, k))
              && StockAdjusted(s, r.1.(orders := s.orders), s.orders[oid].items, 1)
  {
    if RequireCustomer(user).Fail? then (Failure(CustomerRoleRequired), s)
    else
      match GetOrder(s, oid)
      case None => (Failure(OrderNotFound(oid)), s)
      case Some(o) =>
        if o.userId != user.id then (Failure(Forbidden(CancelOwnOrder)), s)
        else
          match ValidateOrderCancellation(o)
          case Fail(e) => (Failure(e), s)
          case Pass =>
            var s1 := ReleaseStock(s, o.items);
            var cancelled := o.(status := Cancelled);
            (Success(cancelled), UpdateOrder(s1, oid, cancelled).1)
  }

  /** The provider reference the handler generates from a fresh uuid. */
  function ProviderRef(uuid: string): string
  {
    "PROV-" + uuid
  }

  /**
   * Pay for an order: it must exist, the caller must be an admin or its
   * owner, and the payment guard must pass. The payment takes its amount
   * and currency from the order, so the capture branch is always taken:
   * the order becomes PAID and the CAPTURED payment is stored and indexed.
   */
  function CreatePayment(s: Store, user: Principal, req: PaymentCreateRequest, paymentId: Id, uuid: string, now: Timestamp)
    : (r: (Result<Payment, Error>, Store))
    ensures r.0.Success? <==>
              && req.orderId in s.orders
              && MayAccess(user, s.orders[req.orderId])
              && ValidatePaymentCreation(s, s.orders[req.orderId]).Pass?
    ensures req.orderId !in s.orders ==> r.0 == Failure(OrderNotFound(req.orderId))
    ensures req.orderId in s.orders && !MayAccess(user, s.orders[req.orderId]) ==> r.0 == Failure(Forbidden(PayOrder))
    ensures req.orderId in s.orders && MayAccess(user, s.orders[req.orderId])
            && ValidatePaymentCreation(s, s.orders[req.orderId]).Fail? ==>
              r.0 == Failure(ValidatePaymentCreation(s, s.orders[req.orderId]).error)
    ensures r.0.Failure? ==> r.1 == s
    ensures r.0.Success? ==>
              var o := s.orders[req.orderId];
              && r.0.value == Payment(paymentId, req.orderId, o.totalAmount, o.currency, req.paymentMethod,
                                      Captured, ProviderRef(uuid), now)
              && r.1.products == s.products && r.1.users == s.users
              && r.1.paymentByOrder == s.paymentByOrder[req.orderId := paymentId]
              && GetOrder(r.1, o.id) == (if o.id in s.orders then Some(o.(status := Paid)) else None)
              && (forall k :: k != o.id ==> GetOrder(r.1, k) == GetOrder(s, k))
              && GetPayment(r.1, paymentId) == Some(r.0.value)
              && (forall k :: k != paymentId ==> GetPayment(r.1, k) == GetPayment(s, k))
              && req.orderId in r.1.paymentByOrder && r.1.paymentByOrder[req.orderId] == paymentId
  {
    match GetOrder(s, req.orderId)
    case None => (Failure(OrderNotFound(req.orderId)), s)
    case Some(o) =>
      if user.role != Admin && o.userId != user.id then (Failure(Forbidden(PayOrder)), s)
      else
        match ValidatePaymentCreation(s, o)
        case Fail(e) => (Failure(e), s)
        case Pass =>
          var p := Payment(paymentId, req.orderId, o.totalAmount, o.currency, req.paymentMethod,
                           Initiated, ProviderRef(uuid), now);
          var (processed, s1) := ProcessPayment(s, o, p);
          match processed
          case Failure(e) =>
            assert false;
            (Failure(e), s1)
          case Success(captured) => (Success(captured), AddPayment(s1, captured))
  }

  /**
   * Reading a payment: it must exist; when its order exists, the caller
   * must be an admin or the order's owner.
   */
  function GetPaymentFor(s: Store, user: Principal, pid: Id): (r: Result<Payment, Error>)
    ensures r.Success? <==>
              && pid in s.payments
              && (s.payments[pid].orderId in s.orders ==> MayAccess(user, s.orders[s.payments[pid].orderId]))
    ensures r.Success? ==> r.value == s.payments[pid]
    ensures pid !in s.payments ==> r == Failure(PaymentNotFound(pid))
    ensures pid in s.payments && s.payments[pid].orderId in s.orders
            && !MayAccess(user, s.orders[s.payments[pid].orderId]) ==>
              r == Failure(Forbidden(ViewPayment))
  {
    match GetPayment(s, pid)
    case None => Failure(PaymentNotFound(pid))
    case Some(p) =>
      match GetOrder(s, p.orderId)
      case Some(o) =>
        if user.role != Admin && o.userId != user.id then Failure(Forbidden(ViewPayment)) else Success(p)
      case None => Success(p)
  }

  /**
   * A created order can be read back by its owner and by any admin, and
   * by no other customer.
   */
  lemma CreateThenGetOrder(s: Store, user: Principal, req: OrderCreateRequest, oid: Id, now: Timestamp, other: Principal)
    requires CreateOrder(s, user, req, oid, now).0.Success?
    ensures var r := CreateOrder(s, user, req, oid, now);
            && GetOrderFor(r.1, user, oid) == Success(r.0.value)
            && (other.role == Admin ==> GetOrderFor(r.1, other, oid) == Success(r.0.value))
            && (other.role == Customer && other.id != user.id ==> GetOrderFor(r.1, other, oid) == Failure(Forbidden(ViewOrder)))
  {
  }

  /**
   * A payment just created for an order stored under its own id can be
   * read back by the same caller, and is refused to a customer who does
   * not own the order.
   */
  lemma PayThenGetPayment(s: Store, user: Principal, req: PaymentCreateRequest, pid: Id, uuid: string, now: Timestamp, other: Principal)
    requires CreatePayment(s, user, req, pid, uuid, now).0.Success?
    requires s.orders[req.orderId].id == req.orderId
    ensures var r := CreatePayment(s, user, req, pid, uuid, now);
            && GetPaymentFor(r.1, user, pid) == Success(r.0.value)
            && (other.role == Customer && other.id != s.orders[req.orderId].userId ==>
                  GetPaymentFor(r.1, other, pid) == Failure(Forbidden(ViewPayment)))
  {
  }
}
