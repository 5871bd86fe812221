/**
 * Order validation and pricing, all-or-nothing stock reservation with
 * compensating rollback, its inverse (release), and the cancellation and
 * payment guards (api/business_logic.py).
 */
module BusinessLogic {
  import opened Wrappers
  import opened Models
  import opened Storage

  const MinCartTotal: real := 50.0
  const MaxCartTotal: real := 5000.0

  /** How far a payment amount may stray from the order total and still be captured. */
  const AmountTolerance: real := 0.01

  /** The validator's answer: the cart total and its currency. */
  datatype Priced = Priced(total: real, currency: string)

  // ---------- Validation and pricing ----------

  /** The price of one line; a line naming no product is worth nothing. */
  function LineTotal(s: Store, item: OrderItem): real
  {
    if item.productId in s.products then s.products[item.productId].price * item.qty as real else 0.0
  }

  /** Reference definition: the sum of price times quantity over the items. */
  function CartTotal(s: Store, items: seq<OrderItem>): real
  {
    if |items| == 0 then 0.0 else LineTotal(s, items[0]) + CartTotal(s, items[1..])
  }

  /** An item every per-item rule accepts. */
  predicate ItemAccepted(s: Store, item: OrderItem)
  {
    && item.Valid()
    && item.productId in s.products
    && s.products[item.productId].isActive
    && s.products[item.productId].stock >= item.qty
  }

  ghost predicate AllAccepted(s: Store, items: seq<OrderItem>)
  {
    forall i :: 0 <= i < |items| ==> ItemAccepted(s, items[i])
  }

  /**
   * The per-item checks, in the order the source makes them: quantity
   * range, then existence, then activity, then the stock pre-check.
   */
  function ItemError(s: Store, item: OrderItem): (r: Option<Error>)
    ensures r.None? <==> ItemAccepted(s, item)
    ensures !item.Valid() ==> r == Some(InvalidQuantity)
    ensures item.Valid() && item.productId !in s.products ==> r == Some(ProductNotFound(item.productId))
    ensures item.Valid() && item.productId in s.products && !s.products[item.productId].isActive ==>
              r == Some(ProductInactive(item.productId))
    ensures item.Valid() && item.productId in s.products && s.products[item.productId].isActive
            && s.products[item.productId].stock < item.qty ==>
              r == Some(InsufficientStock(item.productId, s.products[item.productId].stock, item.qty))
  {
    if item.qty < MinQty || item.qty > MaxQty then Some(InvalidQuantity)
    else if item.productId !in s.products then Some(ProductNotFound(item.productId))
    else
      var p := s.products[item.productId];
      if !p.isActive then Some(ProductInactive(item.productId))
      else if p.stock < item.qty then Some(InsufficientStock(item.productId, p.stock, item.qty))
      else None
  }

  /** Index `i` holds the first item the per-item rules reject. */
  ghost predicate FirstRejected(s: Store, items: seq<OrderItem>, i: int)
  {
    && 0 <= i < |items|
    && !ItemAccepted(s, items[i])
    && forall j :: 0 <= j < i ==> ItemAccepted(s, items[j])
  }

  /**
   * The source's item loop: checks each item in turn, stops at the first
   * rejected one, and otherwise adds its line total to the running total.
   */
  function PriceItems(s: Store, items: seq<OrderItem>, total: real): (r: Result<real, Error>)
    ensures r.Success? <==> AllAccepted(s, items)
    ensures r.Success? ==> r.value == total + CartTotal(s, items)
    ensures r.Failure? ==> exists i :: FirstRejected(s, items, i) && ItemError(s, items[i]) == Some(r.error)
    decreases |items|
  {
    if |items| == 0 then Success(total)
    else
      match ItemError(s, items[0])
      case Some(e) =>
        assert FirstRejected(s, items, 0);
        Failure(e)
      case None =>
        var r := PriceItems(s, items[1..], total + LineTotal(s, items[0]));
        assert r.Failure? ==> exists i :: FirstRejected(s, items, i) && ItemError(s, items[i]) == Some(r.error) by {
          if r.Failure? {
            var i :| FirstRejected(s, items[1..], i) && ItemError(s, items[1..][i]) == Some(r.error);
            assert FirstRejected(s, items, i + 1);
          }
        }
        r
  }

  /**
   * Rejects an empty cart, then the first rejected item, then a total
   * outside [MinCartTotal, MaxCartTotal]; otherwise prices the cart in TRY.
   * It only reads the store.
   */
  function ValidateAndCalculateOrder(s: Store, items: seq<OrderItem>): (r: Result<Priced, Error>)
    ensures |items| == 0 ==> r == Failure(EmptyCart)
    ensures r.Success? <==> |items| > 0 && AllAccepted(s, items) && MinCartTotal <= CartTotal(s, items) <= MaxCartTotal
    ensures r.Success? ==> r.value == Priced(CartTotal(s, items), DefaultCurrency)
    ensures |items| > 0 && !AllAccepted(s, items) ==>
              exists i :: FirstRejected(s, items, i) && r == Failure(ItemError(s, items[i]).value)
    ensures r == Failure(CartTotalTooLow(CartTotal(s, items))) <==>
              |items| > 0 && AllAccepted(s, items) && CartTotal(s, items) < MinCartTotal
    ensures r == Failure(CartTotalTooHigh(CartTotal(s, items))) <==>
              |items| > 0 && AllAccepted(s, items) && CartTotal(s, items) > MaxCartTotal
  {
    if |items| == 0 then Failure(EmptyCart)
    else
      match PriceItems(s, items, 0.0)
      case Failure(e) => Failure(e)
      case Success(total) =>
        if total < MinCartTotal then Failure(CartTotalTooLow(total))
        else if total > MaxCartTotal then Failure(CartTotalTooHigh(total))
        else Success(Priced(total, DefaultCurrency))
  }

  // ---------- Reservation and release ----------

  /**
   * `r` is `s` with every product's stock moved by `sign` times what the
   * items ask of it, and nothing else changed.
   */
  ghost predicate StockAdjusted(s: Store, r: Store, items: seq<OrderItem>, sign: int)
  {
    && r == s.(products := r.products)
    && r.products.Keys == s.products.Keys
    && forall k :: k in s.products ==>
         r.products[k] == s.products[k].(stock := s.products[k].stock + sign * QtyFor(items, k))
  }

  lemma StockAdjustedByNothing(s: Store, r: Store, sign: int)
    requires StockAdjusted(s, r, [], sign)
    ensures r == s
  {
  }

  lemma StockCreditCompose(s: Store, s1: Store, s2: Store, a: seq<OrderItem>, b: seq<OrderItem>)
    requires StockAdjusted(s, s1, a, 1) && StockAdjusted(s1, s2, b, 1)
    ensures StockAdjusted(s, s2, a + b, 1)
  {
    forall k | k in s.products
      ensures s2.products[k] == s.products[k].(stock := s.products[k].stock + QtyFor(a + b, k))
    {
      QtyForAppend(a, b, k);
    }
  }

  lemma StockDebitCompose(s: Store, s1: Store, s2: Store, a: seq<OrderItem>, b: seq<OrderItem>)
    requires StockAdjusted(s, s1, a, -1) && StockAdjusted(s1, s2, b, -1)
    ensures StockAdjusted(s, s2, a + b, -1)
  {
    forall k | k in s.products
      ensures s2.products[k] == s.products[k].(stock := s.products[k].stock - QtyFor(a + b, k))
    {
      QtyForAppend(a, b, k);
    }
  }

  /** Debiting one item and then crediting it back with earlier items credits just the earlier ones. */
  lemma StockDebitThenCredit(s: Store, s1: Store, s2: Store, x: OrderItem, reserved: seq<OrderItem>)
    requires StockAdjusted(s, s1, [x], -1) && StockAdjusted(s1, s2, reserved + [x], 1)
    ensures StockAdjusted(s, s2, reserved, 1)
  {
    forall k | k in s.products
      ensures s2.products[k] == s.products[k].(stock := s.products[k].stock + QtyFor(reserved, k))
    {
      QtyForAppend(reserved, [x], k);
    }
  }

  /** One stock primitive on an existing product, as an adjustment by a one-item list. */
  lemma SingleAdjust(s: Store, r: Store, x: OrderItem, sign: int)
    requires sign == 1 || sign == -1
    requires OnlyStockOfChanged(s, r, x.productId)
    requires x.productId in s.products ==> Available(r, x.productId) == Available(s, x.productId) + sign * x.qty
    ensures StockAdjusted(s, r, [x], sign)
  {
  }

  /** Gives every item's quantity back to its product, in item order (cancellation and rollback). */
  function ReleaseStock(s: Store, items: seq<OrderItem>): (r: Store)
    ensures StockAdjusted(s, r, items, 1)
    decreases |items|
  {
    if |items| == 0 then s
    else
      var s1 := IncreaseStock(s, items[0].productId, items[0].qty);
      var r := ReleaseStock(s1, items[1..]);
      SingleAdjust(s, s1, items[0], 1);
      StockCreditCompose(s, s1, r, [items[0]], items[1..]);
      assert [items[0]] + items[1..] == items;
      r
  }

  /** Item `x` can be debited once the items `before` it have been. */
  ghost predicate Fits(s: Store, before: seq<OrderItem>, x: OrderItem)
  {
    x.productId in s.products && x.qty <= s.products[x.productId].stock - QtyFor(before, x.productId)
  }

  /** Every item can be debited in turn: the reference for a successful reservation. */
  ghost predicate AllFit(s: Store, items: seq<OrderItem>)
  {
    forall i :: 0 <= i < |items| ==> Fits(s, items[..i], items[i])
  }

  /** Index `i` holds the first item whose debit fails. */
  ghost predicate FirstUnfit(s: Store, items: seq<OrderItem>, i: int)
  {
    && 0 <= i < |items|
    && !Fits(s, items[..i], items[i])
    && forall j :: 0 <= j < i ==> Fits(s, items[..j], items[j])
  }

  /** After debiting the first item, the rest fit in the new store exactly when they fitted behind it. */
  lemma FitsAfterDebit(s: Store, items: seq<OrderItem>, s1: Store, i: int)
    requires |items| > 0 && StockAdjusted(s, s1, [items[0]], -1)
    requires 1 <= i < |items|
    ensures Fits(s, items[..i], items[i]) <==> Fits(s1, items[1..][..i - 1], items[i])
  {
    var k := items[i].productId;
    assert items[..i] == [items[0]] + items[1..][..i - 1];
    QtyForAppend([items[0]], items[1..][..i - 1], k);
  }

  lemma ReserveStep(s: Store, items: seq<OrderItem>, s1: Store)
    requires |items| > 0 && Fits(s, [], items[0]) && StockAdjusted(s, s1, [items[0]], -1)
    ensures AllFit(s, items) <==> AllFit(s1, items[1..])
    ensures forall i :: FirstUnfit(s1, items[1..], i) ==> FirstUnfit(s, items, i + 1)
  {
    assert items[..0] == [];
    forall i | 1 <= i < |items|
      ensures Fits(s, items[..i], items[i]) <==> Fits(s1, items[1..][..i - 1], items[1..][i - 1])
    {
      FitsAfterDebit(s, items, s1, i);
    }
    if AllFit(s1, items[1..]) {
      forall i | 0 <= i < |items|
        ensures Fits(s, items[..i], items[i])
      {
        if i > 0 {
          assert Fits(s1, items[1..][..i - 1], items[1..][i - 1]);
        }
      }
    }
    if AllFit(s, items) {
      forall j | 0 <= j < |items| - 1
        ensures Fits(s1, items[1..][..j], items[1..][j])
      {
        assert Fits(s, items[..j + 1], items[j + 1]);
      }
    }
    forall i | FirstUnfit(s1, items[1..], i)
      ensures FirstUnfit(s, items, i + 1)
    {
      forall j | 0 <= j < i + 1
        ensures Fits(s, items[..j], items[j])
      {
        if j > 0 {
          assert Fits(s1, items[1..][..j - 1], items[1..][j - 1]);
        }
      }
    }
  }

  /**
   * The source's reservation loop. `reserved` are the items this call has
   * already debited from `s`; `rest` are still to do. A failed debit gives
   * every reserved item back (in reserved order) and then reports the
   * product's stock as it stands after that rollback.
   */
  function ReserveFrom(s: Store, rest: seq<OrderItem>, reserved: seq<OrderItem>): (r: (Outcome<Error>, Store))
    ensures r.0.Pass? <==> AllFit(s, rest)
    ensures r.0.Pass? ==> StockAdjusted(s, r.1, rest, -1)
    ensures r.0.Fail? ==> StockAdjusted(s, r.1, reserved, 1)
    ensures r.0.Fail? ==>
              exists i :: FirstUnfit(s, rest, i) && r.0.error == InsufficientStock(rest[i].productId, Available(r.1, rest[i].productId), rest[i].qty)
    decreases |rest|
  {
    if |rest| == 0 then (Pass, s)
    else
      var x := rest[0];
      var (ok, s1) := DecreaseStock(s, x.productId, x.qty);
      assert rest[..0] == [];
      if !ok then
        var s2 := ReleaseStock(s1, reserved);
        assert FirstUnfit(s, rest, 0);
        (Fail(InsufficientStock(x.productId, Available(s2, x.productId), x.qty)), s2)
      else
        SingleAdjust(s, s1, x, -1);
        ReserveStep(s, rest, s1);
        var r := ReserveFrom(s1, rest[1..], reserved + [x]);
        if r.0.Pass? then
          StockDebitCompose(s, s1, r.1, [x], rest[1..]);
          assert [x] + rest[1..] == rest;
          r
        else
          StockDebitThenCredit(s, s1, r.1, x, reserved);
          r
  }

  /**
   * All-or-nothing reservation: on success every item's product is debited
   * by its quantity; on failure the store is exactly as before, and the
   * error names the first item that could not be debited, with that
   * product's current stock (0 if it does not exist).
   */
  function ReserveStock(s: Store, items: seq<OrderItem>): (r: (Outcome<Error>, Store))
    ensures r.0.Pass? <==> AllFit(s, items)
    ensures r.0.Pass? ==> StockAdjusted(s, r.1, items, -1)
    ensures r.0.Fail? ==> r.1 == s
    ensures r.0.Fail? ==>
              exists i :: FirstUnfit(s, items, i) && r.0.error == InsufficientStock(items[i].productId, Available(s, items[i].productId), items[i].qty)
  {
    var r := ReserveFrom(s, items, []);
    if r.0.Fail? then StockAdjustedByNothing(s, r.1, 1); r else r
  }

  /** Releasing what a successful reservation took restores the store exactly. */
  lemma ReserveThenReleaseRestores(s: Store, items: seq<OrderItem>)
    requires ReserveStock(s, items).0.Pass?
    ensures ReleaseStock(ReserveStock(s, items).1, items) == s
  {
    var s1 := ReserveStock(s, items).1;
    var s2 := ReleaseStock(s1, items);
    assert StockAdjusted(s, s1, items, -1);
    assert StockAdjusted(s1, s2, items, 1);
    forall k | k in s.products
      ensures s2.products[k] == s.products[k]
    {
      assert s1.products[k] == s.products[k].(stock := s.products[k].stock - QtyFor(items, k));
    }
    assert s2.products == s.products;
  }

  ghost predicate StocksNonNegative(s: Store)
  {
    forall k :: k in s.products ==> s.products[k].stock >= 0
  }

  lemma {:induction false} ReserveFromKeepsStockNonNegative(s: Store, rest: seq<OrderItem>, reserved: seq<OrderItem>)
    requires StocksNonNegative(s)
    ensures ReserveFrom(s, rest, reserved).0.Pass? ==> StocksNonNegative(ReserveFrom(s, rest, reserved).1)
    decreases |rest|
  {
    if |rest| > 0 {
      var (ok, s1) := DecreaseStock(s, rest[0].productId, rest[0].qty);
      if ok {
        DecreaseKeepsStockNonNegative(s, rest[0].productId, rest[0].qty);
        ReserveFromKeepsStockNonNegative(s1, rest[1..], reserved + [rest[0]]);
      }
    }
  }

  /** Stock never goes negative through a reservation, whatever the quantities. */
  lemma ReserveKeepsStockNonNegative(s: Store, items: seq<OrderItem>)
    requires StocksNonNegative(s)
    ensures StocksNonNegative(ReserveStock(s, items).1)
  {
    ReserveFromKeepsStockNonNegative(s, items, []);
  }

  /**
   * With no product named twice, items the validator accepts can all be
   * reserved: only a repeated product can make the reservation fail after
   * a passing validation.
   */
  lemma AcceptedDistinctItemsFit(s: Store, items: seq<OrderItem>)
    requires AllAccepted(s, items)
    requires forall i, j :: 0 <= i < j < |items| ==> items[i].productId != items[j].productId
    ensures AllFit(s, items)
  {
    forall i | 0 <= i < |items|
      ensures Fits(s, items[..i], items[i])
    {
      assert ItemAccepted(s, items[i]);
      QtyForAbsent(items[..i], items[i].productId);
    }
  }

  /** A cart that names one product twice passes validation yet fails reservation, leaving stock as it was. */
  lemma RepeatedProductPassesValidationButNotReservation()
    ensures var s := EmptyStore.(products := map["A" := Product(id := "A", name := "Mouse", price := 150.0, stock := 5)]);
            var items := [OrderItem("A", 3), OrderItem("A", 3)];
            && ValidateAndCalculateOrder(s, items).Success?
            && ReserveStock(s, items) == (Fail(InsufficientStock("A", 5, 3)), s)
  {
  }

  // ---------- Order and payment state machines ----------

  /** Only a CREATED order may be cancelled; PAID and CANCELLED each have their own error. */
  function ValidateOrderCancellation(o: Order): (r: Outcome<Error>)
    ensures r.Pass? <==> o.status == Created
    ensures o.status == Paid ==> r == Fail(CannotCancelPaid)
    ensures o.status == Cancelled ==> r == Fail(AlreadyCancelled)
  {
    match o.status
    case Paid => Fail(CannotCancelPaid)
    case Cancelled => Fail(AlreadyCancelled)
    case Created => Pass
  }

  /**
   * A payment may be created only for a CREATED order with no indexed
   * payment; the status check comes first.
   */
  function ValidatePaymentCreation(s: Store, o: Order): (r: Outcome<Error>)
    ensures r.Pass? <==> o.status == Created && GetPaymentByOrder(s, o.id).None?
    ensures o.status != Created ==> r == Fail(InvalidOrderState(o.status))
    ensures o.status == Created && GetPaymentByOrder(s, o.id).Some? ==> r == Fail(PaymentExists(o.id))
  {
    if o.status != Created then Fail(InvalidOrderState(o.status))
    else if GetPaymentByOrder(s, o.id).Some? then Fail(PaymentExists(o.id))
    else Pass
  }

  /** Whether `|amount - total|` is within the settlement tolerance. */
  predicate AmountMatches(amount: real, total: real)
  {
    var d := amount - total;
    (if d < 0.0 then -d else d) <= AmountTolerance
  }

  /**
   * Capture or fail. A mismatched amount stores and indexes the payment as
   * FAILED and leaves the order alone; otherwise the order becomes PAID and
   * the payment is returned CAPTURED, for the caller to store.
   */
  function ProcessPayment(s: Store, o: Order, p: Payment): (r: (Result<Payment, Error>, Store))
    ensures r.0.Success? <==> o.totalAmount - AmountTolerance <= p.amount <= o.totalAmount + AmountTolerance
    ensures r.0.Failure? ==>
              && r.0.error == AmountMismatch(p.amount, o.totalAmount)
              && r.1 == AddPayment(s, p.(status := Failed))
              && r.1.orders == s.orders && r.1.products == s.products
              && GetPayment(r.1, p.id) == Some(p.(status := Failed))
              && p.orderId in r.1.paymentByOrder && r.1.paymentByOrder[p.orderId] == p.id
    ensures r.0.Success? ==>
              && r.0.value == p.(status := Captured)
              && r.1 == s.(orders := r.1.orders)
              && GetOrder(r.1, o.id) == (if o.id in s.orders then Some(o.(status := Paid)) else None)
              && forall k :: k != o.id ==> GetOrder(r.1, k) == GetOrder(s, k)
  {
    if !AmountMatches(p.amount, o.totalAmount) then
      var failed := p.(status := Failed);
      (Failure(AmountMismatch(p.amount, o.totalAmount)), AddPayment(s, failed))
    else
      var captured := p.(status := Captured);
      var paid := o.(status := Paid);
      (Success(captured), UpdateOrder(s, o.id, paid).1)
  }

  /**
   * A FAILED capture still occupies the order's payment slot: any later
   * attempt for the order is refused, so the order can no longer be paid.
   */
  lemma FailedPaymentBlocksOrder(s: Store, o: Order, p: Payment)
    requires p.id != "" && p.orderId == o.id && o.status == Created
    requires !AmountMatches(p.amount, o.totalAmount)
    ensures ValidatePaymentCreation(ProcessPayment(s, o, p).1, o) == Fail(PaymentExists(o.id))
  {
  }
}
