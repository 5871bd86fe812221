/**
 * The in-memory store (api/storage.py): keyed maps of users, products,
 * orders and payments, an order-to-payment index, and the two stock
 * primitives. The source guards every call with one lock; here every call
 * is one atomic step: a getter is a function that reads the store, every
 * writer is a function that returns the new store, and `ListProducts` is a
 * method that builds its list in a loop.
 */
module Storage {
  import opened Wrappers
  import opened Models

  datatype Store = Store(
    users: map<string, User>,           // keyed by email
    products: map<Id, Product>,
    orders: map<Id, Order>,
    payments: map<Id, Payment>,
    paymentByOrder: map<Id, Id>)        // order id -> id of its latest payment

  const EmptyStore: Store := Store(map[], map[], map[], map[], map[])

  /** The stock of `pid`, or 0 when there is no such product. */
  function Available(s: Store, pid: Id): int
  {
    if pid in s.products then s.products[pid].stock else 0
  }

  /**
   * `r` differs from `s` at most in the stock of product `pid`: the same
   * products exist, and every other field of every product is untouched.
   */
  ghost predicate OnlyStockOfChanged(s: Store, r: Store, pid: Id)
  {
    && r == s.(products := r.products)
    && r.products.Keys == s.products.Keys
    && forall k :: k in s.products ==>
         r.products[k] == (if k == pid then s.products[k].(stock := r.products[k].stock) else s.products[k])
  }

  // ---------- Users ----------

  function AddUser(s: Store, u: User): (r: Store)
    ensures GetUserByEmail(r, u.email) == Some(u)
    ensures forall e :: e != u.email ==> GetUserByEmail(r, e) == GetUserByEmail(s, e)
    ensures r == s.(users := r.users)
  {
    s.(users := s.users[u.email := u])
  }

  /** The user registered under `email`, if any. */
  function GetUserByEmail(s: Store, email: string): (r: Option<User>)
    ensures r.Some? <==> email in s.users
    ensures r.Some? ==> r.value == s.users[email]
  {
    if email in s.users then Some(s.users[email]) else None
  }

  // ---------- Products ----------

  function AddProduct(s: Store, p: Product): (r: Store)
    ensures GetProduct(r, p.id) == Some(p)
    ensures forall k :: k != p.id ==> GetProduct(r, k) == GetProduct(s, k)
    ensures r == s.(products := r.products)
  {
    s.(products := s.products[p.id := p])
  }

  /** The product stored under `pid`, if any. */
  function GetProduct(s: Store, pid: Id): (r: Option<Product>)
    ensures r.Some? <==> pid in s.products
    ensures r.Some? ==> r.value == s.products[pid]
  {
    if pid in s.products then Some(s.products[pid]) else None
  }

  /** Replaces the product under an existing key; a missing key changes nothing. */
  function UpdateProduct(s: Store, pid: Id, p: Product): (r: (Option<Product>, Store))
    ensures pid !in s.products ==> r.0 == None && r.1 == s
    ensures pid in s.products ==> r.0 == Some(p) && GetProduct(r.1, pid) == Some(p)
    ensures forall k :: k != pid ==> GetProduct(r.1, k) == GetProduct(s, k)
    ensures r.1.products.Keys == s.products.Keys
    ensures r.1 == s.(products := r.1.products)
  {
    if pid in s.products then (Some(p), s.(products := s.products[pid := p]))
    else (None, s)
  }

  /** Whether a listing asked for `activeOnly` shows product `p`. */
  predicate Shown(p: Product, activeOnly: bool)
  {
    !activeOnly || p.isActive
  }

  /** The keys whose products a listing shows. */
  ghost function ShownKeys(s: Store, activeOnly: bool): set<Id>
  {
    set k | k in s.products && Shown(s.products[k], activeOnly)
  }

  /**
   * The products (all, or only the active ones), one per key, in no
   * particular order; `keys` names the key each entry was listed under.
   */
  method ListProducts(s: Store, activeOnly: bool) returns (r: seq<Product>, ghost keys: seq<Id>)
    ensures forall i :: 0 <= i < |r| ==> r[i] in s.products.Values && Shown(r[i], activeOnly)
    ensures forall k :: k in s.products && Shown(s.products[k], activeOnly) ==> s.products[k] in r
    ensures |r| == |ShownKeys(s, activeOnly)|
    ensures |keys| == |r|
    ensures forall i :: 0 <= i < |keys| ==> keys[i] in ShownKeys(s, activeOnly) && r[i] == s.products[keys[i]]
    ensures forall i, j :: 0 <= i < j < |keys| ==> keys[i] != keys[j]
    ensures forall k :: k in ShownKeys(s, activeOnly) ==> k in keys
  {
    ghost var listed: set<Id> := {};
    keys := [];
    var todo := s.products.Keys;
    r := [];
    while todo != {}
      invariant todo <= s.products.Keys && listed !! todo
      invariant forall k :: k in listed ==> k in s.products && Shown(s.products[k], activeOnly)
      invariant forall k :: k in s.products && k !in todo && Shown(s.products[k], activeOnly) ==> k in listed
      invariant |keys| == |r| == |listed|
      invariant forall i :: 0 <= i < |keys| ==> keys[i] in listed && r[i] == s.products[keys[i]]
      invariant forall k :: k in listed ==> k in keys
      invariant forall i, j :: 0 <= i < j < |keys| ==> keys[i] != keys[j]
      decreases todo
    {
      var k :| k in todo;
      if Shown(s.products[k], activeOnly) {
        r := r + [s.products[k]];
        keys := keys + [k];
        listed := listed + {k};
      }
      todo := todo - {k};
    }
    assert listed == ShownKeys(s, activeOnly);
    ListingByKeys(s, activeOnly, r, keys);
  }

  /** A listing given key by key, covering every shown key, lists exactly the shown products. */
  lemma ListingByKeys(s: Store, activeOnly: bool, r: seq<Product>, keys: seq<Id>)
    requires |keys| == |r|
    requires forall i :: 0 <= i < |keys| ==> keys[i] in ShownKeys(s, activeOnly) && r[i] == s.products[keys[i]]
    requires forall k :: k in ShownKeys(s, activeOnly) ==> k in keys
    ensures forall i :: 0 <= i < |r| ==> r[i] in s.products.Values && Shown(r[i], activeOnly)
    ensures forall k :: k in s.products && Shown(s.products[k], activeOnly) ==> s.products[k] in r
  {
    forall i | 0 <= i < |r|
      ensures r[i] in s.products.Values && Shown(r[i], activeOnly)
    {
      assert keys[i] in s.products;
    }
    forall k | k in s.products && Shown(s.products[k], activeOnly)
      ensures s.products[k] in r
    {
      assert k in ShownKeys(s, activeOnly);
      var i :| 0 <= i < |keys| && keys[i] == k;
      assert r[i] == s.products[k];
    }
  }

  /**
   * Check-and-decrement: fails without any change when the product is
   * missing or has fewer than `qty` units, and otherwise takes `qty` away.
   */
  function DecreaseStock(s: Store, pid: Id, qty: int): (r: (bool, Store))
    ensures r.0 <==> pid in s.products && s.products[pid].stock >= qty
    ensures !r.0 ==> r.1 == s
    ensures r.0 ==> Available(r.1, pid) == Available(s, pid) - qty
    ensures OnlyStockOfChanged(s, r.1, pid)
  {
    if pid !in s.products || s.products[pid].stock < qty then (false, s)
    else
      var p := s.products[pid];
      (true, s.(products := s.products[pid := p.(stock := p.stock - qty)]))
  }

  /** Unconditional increment; a missing product is left alone. */
  function IncreaseStock(s: Store, pid: Id, qty: int): (r: Store)
    ensures pid !in s.products ==> r == s
    ensures pid in s.products ==> Available(r, pid) == Available(s, pid) + qty
    ensures OnlyStockOfChanged(s, r, pid)
  {
    if pid in s.products then
      var p := s.products[pid];
      s.(products := s.products[pid := p.(stock := p.stock + qty)])
    else s
  }

  /** Taking `qty` units and giving them back restores the store exactly. */
  lemma DecreaseThenIncreaseRestores(s: Store, pid: Id, qty: int)
    requires pid in s.products && qty <= s.products[pid].stock
    ensures DecreaseStock(s, pid, qty).0
    ensures IncreaseStock(DecreaseStock(s, pid, qty).1, pid, qty) == s
  {
  }

  /** A successful decrement never drives stock below zero. */
  lemma DecreaseKeepsStockNonNegative(s: Store, pid: Id, qty: int)
    requires forall k :: k in s.products ==> s.products[k].stock >= 0
    ensures var r := DecreaseStock(s, pid, qty).1;
            forall k :: k in r.products ==> r.products[k].stock >= 0
  {
  }

  // ---------- Orders ----------

  function AddOrder(s: Store, o: Order): (r: Store)
    ensures GetOrder(r, o.id) == Some(o)
    ensures forall k :: k != o.id ==> GetOrder(r, k) == GetOrder(s, k)
    ensures r == s.(orders := r.orders)
  {
    s.(orders := s.orders[o.id := o])
  }

  /** The order stored under `oid`, if any. */
  function GetOrder(s: Store, oid: Id): (r: Option<Order>)
    ensures r.Some? <==> oid in s.orders
    ensures r.Some? ==> r.value == s.orders[oid]
  {
    if oid in s.orders then Some(s.orders[oid]) else None
  }

  /** Replaces the order under an existing key; a missing key changes nothing. */
  function UpdateOrder(s: Store, oid: Id, o: Order): (r: (Option<Order>, Store))
    ensures oid !in s.orders ==> r.0 == None && r.1 == s
    ensures oid in s.orders ==> r.0 == Some(o) && GetOrder(r.1, oid) == Some(o)
    ensures forall k :: k != oid ==> GetOrder(r.1, k) == GetOrder(s, k)
    ensures r.1.orders.Keys == s.orders.Keys
    ensures r.1 == s.(orders := r.1.orders)
  {
    if oid in s.orders then (Some(o), s.(orders := s.orders[oid := o]))
    else (None, s)
  }

  // ---------- Payments ----------

  /** Stores the payment and points the order's index entry at it (the latest write wins). */
  function AddPayment(s: Store, p: Payment): (r: Store)
    ensures GetPayment(r, p.id) == Some(p)
    ensures forall k :: k != p.id ==> GetPayment(r, k) == GetPayment(s, k)
    ensures p.orderId in r.paymentByOrder && r.paymentByOrder[p.orderId] == p.id
    ensures forall o :: o != p.orderId ==>
              (o in r.paymentByOrder <==> o in s.paymentByOrder) &&
              (o in s.paymentByOrder ==> r.paymentByOrder[o] == s.paymentByOrder[o])
    ensures r == s.(payments := r.payments, paymentByOrder := r.paymentByOrder)
  {
    s.(payments := s.payments[p.id := p], paymentByOrder := s.paymentByOrder[p.orderId := p.id])
  }

  /** The payment stored under `pid`, if any. */
  function GetPayment(s: Store, pid: Id): (r: Option<Payment>)
    ensures r.Some? <==> pid in s.payments
    ensures r.Some? ==> r.value == s.payments[pid]
  {
    if pid in s.payments then Some(s.payments[pid]) else None
  }

  /**
   * The payment the index names for an order. An absent entry, an empty
   * payment id (falsy in the source) and a dangling id all read as absent.
   */
  function GetPaymentByOrder(s: Store, oid: Id): (r: Option<Payment>)
    ensures r.Some? <==> oid in s.paymentByOrder && s.paymentByOrder[oid] != "" && s.paymentByOrder[oid] in s.payments
    ensures r.Some? ==> r == GetPayment(s, s.paymentByOrder[oid])
  {
    if oid in s.paymentByOrder && s.paymentByOrder[oid] != "" then GetPayment(s, s.paymentByOrder[oid])
    else None
  }

  /**
   * After storing a payment with a non-empty id, the index lookup for its
   * order yields it, and every other order's lookup is as before unless
   * that order's index entry already named the new payment's id.
   */
  lemma PaymentByOrderAfterAdd(s: Store, p: Payment)
    requires p.id != ""
    ensures GetPaymentByOrder(AddPayment(s, p), p.orderId) == Some(p)
    ensures forall o :: o != p.orderId && (o !in s.paymentByOrder || s.paymentByOrder[o] != p.id) ==>
              GetPaymentByOrder(AddPayment(s, p), o) == GetPaymentByOrder(s, o)
  {
  }
}
