/**
 * Whole-store invariants the handlers keep: stock and prices are never
 * negative, every stored order passed validation, every payment is
 * CAPTURED and indexed under its order, an order is PAID exactly when it
 * has an indexed payment, and order status only moves forward.
 */
module Invariants {
  import opened Wrappers
  import opened Models
  import opened Storage
  import opened BusinessLogic
  import opened Handlers

  /** One call into the order and payment handlers. */
  datatype Request =
    | PlaceOrder(user: Principal, order: OrderCreateRequest, orderId: Id, now: Timestamp)
    | ReadOrder(user: Principal, orderId: Id)
    | CancelOwn(user: Principal, orderId: Id)
    | Pay(user: Principal, payment: PaymentCreateRequest, paymentId: Id, uuid: string, now: Timestamp)
    | ReadPayment(user: Principal, paymentId: Id)

  /** The store after serving one request (reads leave it as it was). */
  function Step(s: Store, q: Request): Store
  {
    match q
    case PlaceOrder(user, req, oid, now) => CreateOrder(s, user, req, oid, now).1
    case ReadOrder(_, _) => s
    case CancelOwn(user, oid) => CancelOrder(s, user, oid).1
    case Pay(user, req, pid, uuid, now) => CreatePayment(s, user, req, pid, uuid, now).1
    case ReadPayment(_, _) => s
  }

  /** Generated ids are fresh and non-empty, as uuid4 strings are. */
  ghost predicate FreshIds(s: Store, q: Request)
  {
    match q
    case PlaceOrder(_, _, oid, _) => oid !in s.orders
    case Pay(_, _, pid, _, _) => pid !in s.payments && pid != ""
    case _ => true
  }

  /** What every stored order satisfies: the validator accepted it and it sits under its own id. */
  ghost predicate OrderWellFormed(o: Order, key: Id)
  {
    && o.id == key
    && |o.items| >= 1
    && (forall i :: 0 <= i < |o.items| ==> o.items[i].Valid())
    && MinCartTotal <= o.totalAmount <= MaxCartTotal
    && o.currency == DefaultCurrency
  }

  ghost predicate ProductsValid(s: Store)
  {
    forall k :: k in s.products ==> s.products[k].Valid()
  }

  ghost predicate OrdersWellFormed(s: Store)
  {
    forall k :: k in s.orders ==> OrderWellFormed(s.orders[k], k)
  }

  /** Every index entry belongs to a stored order and names a stored payment for that order. */
  ghost predicate IndexSound(s: Store)
  {
    forall o :: o in s.paymentByOrder ==>
      && o in s.orders
      && s.paymentByOrder[o] != ""
      && s.paymentByOrder[o] in s.payments
      && s.payments[s.paymentByOrder[o]].orderId == o
  }

  /** Every stored payment is a valid CAPTURED payment the index names for its order. */
  ghost predicate PaymentsIndexed(s: Store)
  {
    forall p :: p in s.payments ==>
      && s.payments[p].id == p
      && s.payments[p].Valid()
      && s.payments[p].status == Captured
      && s.payments[p].orderId in s.paymentByOrder
      && s.paymentByOrder[s.payments[p].orderId] == p
  }

  ghost predicate PaidIffIndexed(s: Store)
  {
    forall o :: o in s.orders ==> (s.orders[o].status == Paid <==> o in s.paymentByOrder)
  }

  ghost predicate Consistent(s: Store)
  {
    && ProductsValid(s)
    && OrdersWellFormed(s)
    && IndexSound(s)
    && PaymentsIndexed(s)
    && PaidIffIndexed(s)
  }

  lemma EmptyStoreConsistent()
    ensures Consistent(EmptyStore)
  {
  }

  /** Under the invariant, an order has an indexed payment exactly when the index lookup finds one. */
  lemma IndexedIffFound(s: Store, oid: Id)
    requires Consistent(s)
    ensures GetPaymentByOrder(s, oid).Some? <==> oid in s.paymentByOrder
  {
  }

  /** At most one payment per order: two payments for the same order are the same payment. */
  lemma OnePaymentPerOrder(s: Store, p1: Id, p2: Id)
    requires Consistent(s)
    requires p1 in s.payments && p2 in s.payments
    requires s.payments[p1].orderId == s.payments[p2].orderId
    ensures p1 == p2
  {
  }

  lemma PlaceOrderPreserves(s: Store, user: Principal, req: OrderCreateRequest, oid: Id, now: Timestamp)
    requires Consistent(s) && oid !in s.orders
    ensures Consistent(CreateOrder(s, user, req, oid, now).1)
  {
    var r := CreateOrder(s, user, req, oid, now);
    if r.0.Success? {
      ReserveKeepsStockNonNegative(s, req.items);
      var s1 := ReserveStock(s, req.items).1;
      assert r.1 == AddOrder(s1, r.0.value);
      assert StockAdjusted(s, s1, req.items, -1);
      var o := r.0.value;
      assert OrderWellFormed(o, oid) by {
        assert AllAccepted(s, req.items);
        forall i | 0 <= i < |o.items|
          ensures o.items[i].Valid()
        {
          assert ItemAccepted(s, req.items[i]);
        }
      }
      assert oid !in s.paymentByOrder;
    }
  }

  lemma CancelPreserves(s: Store, user: Principal, oid: Id)
    requires Consistent(s)
    ensures Consistent(CancelOrder(s, user, oid).1)
  {
    var r := CancelOrder(s, user, oid);
    if r.0.Success? {
      var o := s.orders[oid];
      forall k | k in r.1.products
        ensures r.1.products[k].Valid()
      {
        QtyForNonNegative(o.items, k);
      }
      assert oid !in s.paymentByOrder;
    }
  }

  /** Marking a CREATED, unindexed order PAID while storing and indexing a fresh captured payment keeps the store consistent. */
  lemma CaptureKeepsConsistent(s: Store, oid: Id, p: Payment)
    requires Consistent(s)
    requires oid in s.orders && s.orders[oid].status == Created && oid !in s.paymentByOrder
    requires p.id !in s.payments && p.id != "" && p.orderId == oid && p.status == Captured
    requires p.amount == s.orders[oid].totalAmount
    ensures Consistent(s.(orders := s.orders[oid := s.orders[oid].(status := Paid)],
                          payments := s.payments[p.id := p],
                          paymentByOrder := s.paymentByOrder[oid := p.id]))
  {
  }

  lemma PayPreserves(s: Store, user: Principal, req: PaymentCreateRequest, pid: Id, uuid: string, now: Timestamp)
    requires Consistent(s) && pid !in s.payments && pid != ""
    ensures Consistent(CreatePayment(s, user, req, pid, uuid, now).1)
  {
    var r := CreatePayment(s, user, req, pid, uuid, now);
    if r.0.Success? {
      var oid := req.orderId;
      var o := s.orders[oid];
      IndexedIffFound(s, oid);
      assert o.id == oid;
      var p := r.0.value;
      assert r.1.products == s.products;
      assert r.1.payments == s.payments[pid := p];
      assert r.1.paymentByOrder == s.paymentByOrder[oid := pid];
      assert r.1.orders == s.orders[oid := o.(status := Paid)];
      assert r.1 == s.(orders := s.orders[oid := o.(status := Paid)],
                       payments := s.payments[pid := p],
                       paymentByOrder := s.paymentByOrder[oid := pid]);
      CaptureKeepsConsistent(s, oid, p);
    }
  }

  /** Every handler keeps the store consistent, given fresh generated ids. */
  lemma StepPreservesConsistency(s: Store, q: Request)
    requires Consistent(s) && FreshIds(s, q)
    ensures Consistent(Step(s, q))
  {
    match q
    case PlaceOrder(user, req, oid, now) => PlaceOrderPreserves(s, user, req, oid, now);
    case ReadOrder(_, _) =>
    case CancelOwn(user, oid) => CancelPreserves(s, user, oid);
    case Pay(user, req, pid, uuid, now) => PayPreserves(s, user, req, pid, uuid, now);
    case ReadPayment(_, _) =>
  }

  /** Status moves only CREATED -> PAID or CREATED -> CANCELLED. */
  predicate StatusAdvances(before: OrderStatus, after: OrderStatus)
  {
    before == after || (before == Created && after != Created)
  }

  /**
   * No order is ever deleted, and an existing order keeps its owner, items
   * and total while its status only advances; PAID and CANCELLED orders
   * are never changed at all.
   */
  lemma StepOnlyAdvancesOrders(s: Store, q: Request, k: Id)
    requires Consistent(s) && FreshIds(s, q) && k in s.orders
    ensures k in Step(s, q).orders
    ensures var before := s.orders[k];
            var after := Step(s, q).orders[k];
            && after == before.(status := after.status)
            && StatusAdvances(before.status, after.status)
            && (before.status != Created ==> after == before)
  {
    match q
    case PlaceOrder(user, req, oid, now) =>
      assert GetOrder(Step(s, q), k) == GetOrder(s, k);
    case ReadOrder(_, _) =>
    case CancelOwn(user, oid) =>
      assert GetOrder(Step(s, q), k) == GetOrder(CancelOrder(s, user, oid).1, k);
    case Pay(user, req, pid, uuid, now) =>
      var r := CreatePayment(s, user, req, pid, uuid, now);
      if r.0.Success? {
        var o := s.orders[req.orderId];
        assert o.id == req.orderId && o.status == Created;
        if k != o.id {
          assert GetOrder(r.1, k) == GetOrder(s, k);
        } else {
          assert GetOrder(r.1, k) == Some(o.(status := Paid));
        }
      }
    case ReadPayment(_, _) =>
  }

  /**
   * A second payment for an order that was just paid is refused by the
   * status check, before the index is consulted, whoever asks.
   */
  lemma SecondPaymentRejected(s: Store, user: Principal, req: PaymentCreateRequest, pid: Id, uuid: string, now: Timestamp,
                              user2: Principal, method2: PaymentMethod, pid2: Id, uuid2: string, now2: Timestamp)
    requires Consistent(s)
    requires CreatePayment(s, user, req, pid, uuid, now).0.Success?
    requires MayAccess(user2, s.orders[req.orderId])
    ensures var s1 := CreatePayment(s, user, req, pid, uuid, now).1;
            CreatePayment(s1, user2, PaymentCreateRequest(req.orderId, method2), pid2, uuid2, now2).0
              == Failure(InvalidOrderState(Paid))
  {
  }

  /** A successful cancellation returns to the products exactly what the order's creation took. */
  lemma CreateThenCancelRestoresStock(s: Store, user: Principal, req: OrderCreateRequest, oid: Id, now: Timestamp)
    requires oid !in s.orders
    requires CreateOrder(s, user, req, oid, now).0.Success?
    ensures var s1 := CreateOrder(s, user, req, oid, now).1;
            var r := CancelOrder(s1, user, oid);
            && r.0.Success?
            && r.1.products == s.products
            && GetOrder(r.1, oid).value.status == Cancelled
  {
    var s1 := CreateOrder(s, user, req, oid, now).1;
    var r := CancelOrder(s1, user, oid);
    assert GetOrder(s1, oid).Some?;
    var o := s1.orders[oid];
    assert o.items == req.items;
    forall k | k in s.products
      ensures r.1.products[k] == s.products[k]
    {
      assert s1.products[k] == s.products[k].(stock := s.products[k].stock - QtyFor(req.items, k));
    }
    assert r.1.products == s.products;
  }
}
