/**
 saleor/checkout/calculations.py and saleor/checkout/base_calculations.py: the total of a checkout, once built from
 the line prices and once computed from the subtotal.
 */
module CheckoutTotals {
  import opened Wrappers
  import opened DiscountPropagation

  datatype VoucherType = EntireOrder | Shipping | SpecificProduct
  datatype Voucher = NoVoucher | Voucher(kind: VoucherType, oncePerOrder: bool)

  datatype LineInfo = LineInfo(id: nat, basePrice: nat)

  datatype CheckoutInfo = CheckoutInfo(
    lines: seq<LineInfo>,
    voucher: Voucher,
    orderPromotion: bool,
    discount: nat,
    deliveryPrice: nat)

  function BasePrices(lines: seq<LineInfo>): (r: seq<nat>)
    ensures |r| == |lines| && forall i | 0 <= i < |lines| :: r[i] == lines[i].basePrice
  {
    if lines == [] then [] else [lines[0].basePrice] + BasePrices(lines[1..])
  }

  function Subtotal(c: CheckoutInfo): nat {
    Total(BasePrices(c.lines))
  }

  function Delivery(c: CheckoutInfo): int {
    if c.voucher.Voucher? && c.voucher.kind.Shipping? then Max(0, c.deliveryPrice - c.discount) else c.deliveryPrice
  }

  predicate OrderLevelVoucher(v: Voucher) {
    v.Voucher? && v.kind.EntireOrder? && !v.oncePerOrder
  }

  /** Order promotions and entire-order vouchers are not part of the line base prices. */
  predicate DiscountNotIncluded(c: CheckoutInfo) {
    c.orderPromotion || OrderLevelVoucher(c.voucher)
  }

  /** The direct form: subtotal, discount, delivery. */
  function DirectTotal(c: CheckoutInfo): int {
    (if DiscountNotIncluded(c) then Max(0, Subtotal(c) - c.discount) else Subtotal(c)) + Delivery(c)
  }

  /** Whether the discount is spread over the lines at all. */
  predicate Spreads(c: CheckoutInfo) {
    if c.voucher.Voucher? then !(c.voucher.oncePerOrder || c.voucher.kind.Shipping? || c.voucher.kind.SpecificProduct?)
    else c.orderPromotion
  }

  /** The first price listed for the given line id, else the fallback. */
  function PriceFor(lines: seq<LineInfo>, prices: seq<int>, id: nat, fallback: int): int
    requires |prices| == |lines|
  {
    if lines == [] then fallback
    else if lines[0].id == id then prices[0]
    else PriceFor(lines[1..], prices[1..], id, fallback)
  }

  function LinePrice(quantize: Quantizing, c: CheckoutInfo, line: LineInfo): int {
    if !Spreads(c) then line.basePrice
    else PriceFor(c.lines, Propagated(quantize, BasePrices(c.lines), c.discount), line.id, line.basePrice)
  }

  ghost predicate DistinctIds(lines: seq<LineInfo>) {
    forall i, j | 0 <= i < j < |lines| :: lines[i].id != lines[j].id
  }

  /** Each line is asked for on its own, and the generator is run through again for each. */
  method LineTotalPrice(quantize: Quantizing, c: CheckoutInfo, line: LineInfo) returns (price: int)
    ensures price == LinePrice(quantize, c, line)
  {
    if !Spreads(c) {
      return line.basePrice;
    }
    var prices := PropagateDiscount(quantize, BasePrices(c.lines), c.discount);
    assert c.lines[0..] == c.lines && prices[0..] == prices;
    for i := 0 to |c.lines|
      invariant PriceFor(c.lines[i..], prices[i..], line.id, line.basePrice) == PriceFor(c.lines, prices, line.id, line.basePrice)
    {
      if c.lines[i].id == line.id {
        return prices[i];
      }
      assert c.lines[i..][1..] == c.lines[i + 1..] && prices[i..][1..] == prices[i + 1..];
    }
    return line.basePrice;
  }

  lemma {:induction false} PriceForIndex(lines: seq<LineInfo>, prices: seq<int>, k: nat, fallback: int)
    requires |prices| == |lines| && DistinctIds(lines) && k < |lines|
    ensures PriceFor(lines, prices, lines[k].id, fallback) == prices[k]
  {
    if k > 0 {
      assert lines[0].id != lines[k].id;
      assert lines[1..][k - 1] == lines[k];
      forall i, j | 0 <= i < j < |lines[1..]|
        ensures lines[1..][i].id != lines[1..][j].id
      {
        assert lines[1..][i] == lines[i + 1] && lines[1..][j] == lines[j + 1];
      }
      PriceForIndex(lines[1..], prices[1..], k - 1, fallback);
    }
  }

  /** The prices the lines get, all together. */
  function LinePrices(quantize: Quantizing, c: CheckoutInfo): (ps: seq<int>)
    ensures |ps| == |c.lines|
  {
    if Spreads(c) then Propagated(quantize, BasePrices(c.lines), c.discount) else BasePrices(c.lines)
  }

  lemma {:induction false} LinePriceIndex(quantize: Quantizing, c: CheckoutInfo, k: nat)
    requires DistinctIds(c.lines) && k < |c.lines|
    ensures LinePrice(quantize, c, c.lines[k]) == LinePrices(quantize, c)[k]
  {
    if Spreads(c) {
      PriceForIndex(c.lines, LinePrices(quantize, c), k, c.lines[k].basePrice);
    }
  }

  predicate ShippingVoucher(c: CheckoutInfo) {
    c.voucher.Voucher? && c.voucher.kind == Shipping
  }

  /** A voucher for the entire order that does not go to one item only, or without a voucher an order promotion. */
  predicate ForWholeOrder(c: CheckoutInfo) {
    c.voucher == Voucher(EntireOrder, false) || (c.voucher == NoVoucher && c.orderPromotion)
  }

  class Checkout {
    var lineTotals: seq<int>
    var subtotal: int
    var shippingPrice: int
    var total: int

    /** Base prices of a checkout without taxes: line by line, then delivery. */
    method SetBasePrices(quantize: Quantizing, c: CheckoutInfo)
      requires DistinctIds(c.lines)
      modifies this
      ensures lineTotals == LinePrices(quantize, c)
      ensures subtotal == Sum(LinePrices(quantize, c)) && shippingPrice == Delivery(c) && total == subtotal + shippingPrice
      ensures ShippingVoucher(c) ==>
                shippingPrice >= 0 && c.deliveryPrice - shippingPrice == if c.discount < c.deliveryPrice then c.discount else c.deliveryPrice
      ensures !ShippingVoucher(c) ==> shippingPrice == c.deliveryPrice
      ensures |lineTotals| == |c.lines|
      ensures !ForWholeOrder(c) ==> forall i | 0 <= i < |c.lines| :: lineTotals[i] == c.lines[i].basePrice
    {
      subtotal := 0;
      lineTotals := [];
      ghost var ps := LinePrices(quantize, c);
      for i := 0 to |c.lines|
        invariant lineTotals == ps[..i] && subtotal == Sum(ps[..i])
      {
        var price := LineTotalPrice(quantize, c, c.lines[i]);
        LinePriceIndex(quantize, c, i);
        assert ps[..i + 1] == ps[..i] + [ps[i]];
        SumSnoc(ps[..i], ps[i]);
        subtotal := subtotal + price;
        lineTotals := lineTotals + [price];
      }
      assert ps[..|c.lines|] == ps;
      shippingPrice := if c.voucher.Voucher? && c.voucher.kind.Shipping? then Max(0, c.deliveryPrice - c.discount) else c.deliveryPrice;
      total := subtotal + shippingPrice;
    }
  }

  function LineByLineTotal(quantize: Quantizing, c: CheckoutInfo): int {
    Sum(LinePrices(quantize, c)) + Delivery(c)
  }

  lemma {:induction false} SumOfBases(s: seq<nat>)
    ensures Sum(s) == Total(s)
  {
    if s != [] {
      SumOfBases(s[1..]);
    }
  }

  /** The spread over the lines is exact: one line, nothing to pay, a discount above the total, or a last line that takes the rest. */
  ghost predicate SpreadIsExact(quantize: Quantizing, lines: seq<nat>, discount: nat) {
    |lines| <= 1 || Total(lines) == 0 || discount > Total(lines) || Remaining(quantize, lines, discount) <= lines[|lines| - 1]
  }

  lemma {:induction false} SpreadTotal(quantize: Quantizing, lines: seq<nat>, discount: nat)
    requires HalfUnit(quantize)
    ensures var excess := Sum(Propagated(quantize, lines, discount)) - Max(0, Total(lines) - discount);
            && 0 <= 2 * excess <= Max(0, |lines| - 1)
            && (excess == 0 <==> SpreadIsExact(quantize, lines, discount))
  {
    if |lines| == 1 {
      assert lines[1..] == [];
      assert [Max(lines[0] - discount, 0)][1..] == [];
    } else if |lines| > 1 && Total(lines) == 0 {
      SumOfZeros(|lines|);
    } else if |lines| > 1 {
      PropagationBounds(quantize, lines, discount);
      RemainingBounds(quantize, lines, discount);
    }
  }

  /**
   The two totals: where the discount is spread, the total built line by line is never below the direct one and above
   it by at most (n - 1) half units, and equal exactly when the spread is exact.
   */
  lemma {:induction false} TwoTotalsAgree(quantize: Quantizing, c: CheckoutInfo)
    requires HalfUnit(quantize) && Spreads(c)
    ensures var excess := LineByLineTotal(quantize, c) - DirectTotal(c);
            && 0 <= 2 * excess <= Max(0, |c.lines| - 1)
            && (excess == 0 <==> SpreadIsExact(quantize, BasePrices(c.lines), c.discount))
  {
    SpreadTotal(quantize, BasePrices(c.lines), c.discount);
  }

  /**
   Where it is not spread, the totals agree as long as an order promotion does not come together with a voucher of
   another kind; then the direct form would take the discount off and the lines would not.
   */
  lemma {:induction false} TotalsWithoutSpread(quantize: Quantizing, c: CheckoutInfo)
    requires !Spreads(c)
    ensures LineByLineTotal(quantize, c) - DirectTotal(c) ==
            if c.orderPromotion then (if Subtotal(c) < c.discount then Subtotal(c) else c.discount) else 0
  {
    SumOfBases(BasePrices(c.lines));
  }

  /**
   A discount is taken once at most: from the lines up to half units of rounding if it is for the whole order, from the
   delivery if it is a shipping voucher, and never more than there is to pay.
   */
  lemma {:induction false} DiscountTakenOnce(quantize: Quantizing, c: CheckoutInfo)
    requires HalfUnit(quantize)
    ensures var fromLines, fromDelivery := Subtotal(c) - Sum(LinePrices(quantize, c)), c.deliveryPrice - Delivery(c);
            && (fromLines == 0 || fromDelivery == 0) && fromLines + fromDelivery <= c.discount
            && (if ForWholeOrder(c)
                then 0 <= 2 * ((if c.discount < Subtotal(c) then c.discount else Subtotal(c)) - fromLines) <= Max(0, |c.lines| - 1)
                else fromLines == 0)
            && fromDelivery == if !ShippingVoucher(c) then 0 else if c.discount < c.deliveryPrice then c.discount else c.deliveryPrice
  {
    if Spreads(c) {
      SpreadTotal(quantize, BasePrices(c.lines), c.discount);
    } else {
      SumOfBases(BasePrices(c.lines));
    }
  }
}
