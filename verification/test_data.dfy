/**
 * The product picker of the test data module (tests/data/test_data.py):
 * given a product listing, choose a product and quantity whose line total
 * satisfies the cart rules.
 */
module TestData {
  import opened Wrappers

  const DefaultMinTotal: real := 50.0
  const DefaultMaxTotal: real := 5000.0
  const DefaultMaxQty: int := 10

  /** The stock assumed for a listed product that reports none. */
  const MissingStock: int := 1_000_000_000

  /** A product as the listing returns it; its stock may be absent. */
  datatype ProductData = ProductData(id: string, price: real, stock: Option<int>)

  datatype Choice = Choice(productId: string, qty: int)

  function StockOf(p: ProductData): int
  {
    match p.stock
    case Some(n) => n
    case None => MissingStock
  }

  /** The least integer not below `x`. */
  function Ceil(x: real): (r: int)
    ensures x <= r as real < x + 1.0
  {
    -((-x).Floor)
  }

  /** What a returned choice must satisfy, as the picker's documentation states it. */
  predicate MeetsCartRules(p: ProductData, qty: int, lo: real, hi: real, maxQty: int)
  {
    && 1 <= qty <= maxQty
    && lo <= p.price * qty as real <= hi
    && StockOf(p) >= qty
  }

  // ---------- Phase one: one unit of a product priced within the bounds ----------

  predicate SingleFits(p: ProductData, lo: real, hi: real)
  {
    p.price > 0.0 && lo <= p.price <= hi && StockOf(p) >= 1
  }

  /** The first product phase one accepts. */
  function FirstSingle(ps: seq<ProductData>, lo: real, hi: real): (r: Option<nat>)
    ensures r.Some? ==>
              && r.value < |ps|
              && SingleFits(ps[r.value], lo, hi)
              && forall j :: 0 <= j < r.value ==> !SingleFits(ps[j], lo, hi)
    ensures r.None? ==> forall j :: 0 <= j < |ps| ==> !SingleFits(ps[j], lo, hi)
    decreases |ps|
  {
    if |ps| == 0 then None
    else if SingleFits(ps[0], lo, hi) then Some(0)
    else
      match FirstSingle(ps[1..], lo, hi)
      case None => None
      case Some(i) => Some(i + 1)
  }

  // ---------- Phase two: the fewest units that reach the lower bound ----------

  /** max(1, ceil(lo / price)). */
  function Phase2Qty(p: ProductData, lo: real): int
    requires p.price > 0.0
  {
    var q := Ceil(lo / p.price);
    if q < 1 then 1 else q
  }

  predicate IsCandidate(p: ProductData, lo: real, hi: real, maxQty: int)
  {
    && p.price > 0.0
    && p.price <= hi
    && Phase2Qty(p, lo) <= maxQty
    && p.price * Phase2Qty(p, lo) as real <= hi
    && StockOf(p) >= Phase2Qty(p, lo)
  }

  function CandidateTotal(p: ProductData, lo: real): real
    requires p.price > 0.0
  {
    p.price * Phase2Qty(p, lo) as real
  }

  /** The phase-two quantity is the fewest units (at least one) whose total reaches `lo`. */
  lemma Phase2QtyIsLeast(p: ProductData, lo: real)
    requires p.price > 0.0
    ensures Phase2Qty(p, lo) >= 1
    ensures CandidateTotal(p, lo) >= lo
    ensures Phase2Qty(p, lo) > 1 ==> p.price * (Phase2Qty(p, lo) - 1) as real < lo
  {
    var q := Phase2Qty(p, lo);
    var c := Ceil(lo / p.price);
    assert p.price * (lo / p.price) == lo;
    assert q as real >= lo / p.price;
    assert p.price * q as real >= p.price * (lo / p.price);
    if q > 1 {
      assert q == c;
      assert (q - 1) as real < lo / p.price;
      assert p.price * (q - 1) as real < p.price * (lo / p.price);
      assert p.price * (Phase2Qty(p, lo) - 1) as real < lo;
    }
  }

  /**
   * Index `b` is a candidate with the smallest total among the candidates,
   * and no earlier candidate ties with it (the stable sort keeps input order).
   */
  ghost predicate IsBest(ps: seq<ProductData>, lo: real, hi: real, maxQty: int, b: int)
  {
    && 0 <= b < |ps|
    && IsCandidate(ps[b], lo, hi, maxQty)
    && (forall j :: 0 <= j < |ps| && IsCandidate(ps[j], lo, hi, maxQty) ==>
          CandidateTotal(ps[b], lo) <= CandidateTotal(ps[j], lo))
    && (forall j :: 0 <= j < b && IsCandidate(ps[j], lo, hi, maxQty) ==>
          CandidateTotal(ps[b], lo) < CandidateTotal(ps[j], lo))
  }

  /** The first candidate of least total: what sorting the candidates by total and taking the head yields. */
  function BestCandidate(ps: seq<ProductData>, lo: real, hi: real, maxQty: int): (r: Option<nat>)
    ensures r.Some? ==> IsBest(ps, lo, hi, maxQty, r.value)
    ensures r.None? ==> forall j :: 0 <= j < |ps| ==> !IsCandidate(ps[j], lo, hi, maxQty)
    decreases |ps|
  {
    if |ps| == 0 then None
    else
      var rest := BestCandidate(ps[1..], lo, hi, maxQty);
      assert forall j :: 1 <= j < |ps| ==> ps[j] == ps[1..][j - 1];
      if !IsCandidate(ps[0], lo, hi, maxQty) then
        match rest
        case None => None
        case Some(i) => Some(i + 1)
      else
        match rest
        case None => Some(0)
        case Some(i) =>
          if CandidateTotal(ps[0], lo) <= CandidateTotal(ps[i + 1], lo) then Some(0) else Some(i + 1)
  }

  // ---------- The picker ----------

  /**
   * The picker as written: phase one, else phase two, else no choice (the
   * source raises). Phase one does not compare its quantity with `maxQty`.
   */
  function Pick(ps: seq<ProductData>, lo: real, hi: real, maxQty: int): (r: Option<Choice>)
    ensures r.None? <==>
              (forall j :: 0 <= j < |ps| ==> !SingleFits(ps[j], lo, hi)) &&
              (forall j :: 0 <= j < |ps| ==> !IsCandidate(ps[j], lo, hi, maxQty))
    ensures r.Some? ==>
              exists i :: 0 <= i < |ps| && ps[i].id == r.value.productId && 0.0 < ps[i].price <= hi && MeetsCartRules(ps[i], r.value.qty, lo, hi, Max1(maxQty))
  {
    match FirstSingle(ps, lo, hi)
    case Some(i) =>
      assert MeetsCartRules(ps[i], 1, lo, hi, Max1(maxQty));
      Some(Choice(ps[i].id, 1))
    case None =>
      match BestCandidate(ps, lo, hi, maxQty)
      case Some(b) =>
        Phase2QtyIsLeast(ps[b], lo);
        assert MeetsCartRules(ps[b], Phase2Qty(ps[b], lo), lo, hi, Max1(maxQty));
        Some(Choice(ps[b].id, Phase2Qty(ps[b], lo)))
      case None => None
  }

  function Max1(n: int): int
  {
    if n < 1 then 1 else n
  }

  /** Phase one wins when it applies: the first single-unit product, with quantity 1. */
  lemma PickPrefersFirstSingle(ps: seq<ProductData>, lo: real, hi: real, maxQty: int, i: int)
    requires 0 <= i < |ps| && SingleFits(ps[i], lo, hi)
    requires forall j :: 0 <= j < i ==> !SingleFits(ps[j], lo, hi)
    ensures Pick(ps, lo, hi, maxQty) == Some(Choice(ps[i].id, 1))
  {
  }

  /** Otherwise phase two: the first candidate of least total, with its phase-two quantity. */
  lemma PickFallsBackToBest(ps: seq<ProductData>, lo: real, hi: real, maxQty: int)
    requires forall j :: 0 <= j < |ps| ==> !SingleFits(ps[j], lo, hi)
    requires Pick(ps, lo, hi, maxQty).Some?
    ensures exists b :: IsBest(ps, lo, hi, maxQty, b) &&
              Pick(ps, lo, hi, maxQty) == Some(Choice(ps[b].id, Phase2Qty(ps[b], lo)))
  {
  }

  /** With a zero quantity cap, phase one still hands back one unit. */
  lemma PickIgnoresMaxQty()
    ensures var ps := [ProductData("p", 100.0, Some(5))];
            && Pick(ps, DefaultMinTotal, DefaultMaxTotal, 0) == Some(Choice("p", 1))
            && !MeetsCartRules(ps[0], 1, DefaultMinTotal, DefaultMaxTotal, 0)
  {
  }

  /** Phase one accepts a product only when one unit is within the quantity cap as well. */
  predicate SingleFitsCapped(p: ProductData, lo: real, hi: real, maxQty: int)
  {
    SingleFits(p, lo, hi) && 1 <= maxQty
  }

  /**
   * The picker with phase one also honouring `maxQty`. With a cap below one
   * no product qualifies in either phase; otherwise it agrees with `Pick`.
   */
  function PickCapped(ps: seq<ProductData>, lo: real, hi: real, maxQty: int): (r: Option<Choice>)
    ensures r.Some? ==>
              exists i :: 0 <= i < |ps| && ps[i].id == r.value.productId && 0.0 < ps[i].price <= hi && MeetsCartRules(ps[i], r.value.qty, lo, hi, maxQty)
    ensures r.None? <==>
              (forall j :: 0 <= j < |ps| ==> !SingleFitsCapped(ps[j], lo, hi, maxQty)) &&
              (forall j :: 0 <= j < |ps| ==> !IsCandidate(ps[j], lo, hi, maxQty))
  {
    if maxQty < 1 then
      assert forall j :: 0 <= j < |ps| ==> !IsCandidate(ps[j], lo, hi, maxQty) by {
        forall j | 0 <= j < |ps| && ps[j].price > 0.0
          ensures Phase2Qty(ps[j], lo) > maxQty
        {
          Phase2QtyIsLeast(ps[j], lo);
        }
      }
      None
    else Pick(ps, lo, hi, maxQty)
  }
}
