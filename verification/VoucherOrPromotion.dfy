/**
 saleor/checkout/utils.py and saleor/discount/utils/checkout.py: an order promotion and a voucher are never on one
 checkout together, and what that means for its totals.
 */
module VoucherOrPromotion {
  import opened Wrappers
  import opened DiscountPropagation
  import opened CheckoutTotals

  /**
   The discount part of a checkout: whether it has a voucher code, the voucher if the code is still good, whether there
   is a discount row of an order promotion, and the amount.
   */
  datatype State = State(code: bool, voucher: Voucher, promotion: bool, amount: nat)

  datatype Promotions = NothingApplies | OrderDiscount(amount: nat) | GiftOnly

  datatype Move =
    | AddVoucher(voucher: Voucher, amount: nat)
    | RemoveVoucher
    | CodeExpires
    | RefreshPromotions(found: Promotions)

  /** A voucher stands behind a code, and excludes order promotions. */
  ghost predicate Apart(s: State) {
    (s.voucher.Voucher? ==> s.code) && !(s.code && s.promotion)
  }

  class Discounts {
    var code: bool
    var voucher: Voucher
    var promotion: bool
    var amount: nat

    ghost function View(): State
      reads this
    {
      State(code, voucher, promotion, amount)
    }

    /** The rows of order promotions are deleted: they cannot be mixed with vouchers. */
    method AddVoucherToCheckout(v: Voucher, discount: nat)
      modifies this
      ensures View() == Next(old(View()), AddVoucher(v, discount))
      ensures code && voucher == v && amount == discount && !promotion
    {
      code, voucher, amount := true, v, discount;
      promotion := false;
    }

    method RemoveVoucherFromCheckout()
      modifies this
      ensures View() == Next(old(View()), RemoveVoucher)
      ensures !code && voucher == NoVoucher && amount == 0 && promotion == old(promotion)
    {
      code, voucher, amount := false, NoVoucher, 0;
    }

    /** Order promotions are looked for only without a voucher code; what was there before is cleared otherwise. */
    method RefreshOrderPromotions(found: Promotions)
      modifies this
      ensures View() == Next(old(View()), RefreshPromotions(found))
      ensures code == old(code) && voucher == old(voucher)
      ensures !code && found.OrderDiscount? ==> promotion && amount == found.amount
      ensures !code && found.GiftOnly? ==> promotion == old(promotion) && amount == old(amount)
      ensures code || found.NothingApplies? ==> !promotion && amount == if voucher == NoVoucher then 0 else old(amount)
    {
      if code || found.NothingApplies? {
        ClearCheckoutDiscount();
      } else if found.OrderDiscount? {
        promotion, amount := true, found.amount;
      }
    }

    method ClearCheckoutDiscount()
      modifies this`promotion, this`amount
      ensures !promotion && amount == if voucher.Voucher? then old(amount) else 0
    {
      promotion := false;
      if !voucher.Voucher? {
        amount := 0;
      }
    }
  }

  function Next(s: State, m: Move): State {
    match m
    case AddVoucher(voucher, amount) => State(true, voucher, false, amount)
    case RemoveVoucher => State(false, NoVoucher, s.promotion, 0)
    case CodeExpires => s.(voucher := NoVoucher)
    case RefreshPromotions(found) =>
      if s.code || found.NothingApplies? then s.(promotion := false, amount := if s.voucher.Voucher? then s.amount else 0)
      else if found.OrderDiscount? then s.(promotion := true, amount := found.amount)
      else s
  }

  function Run(s: State, moves: seq<Move>): State
    decreases |moves|
  {
    if moves == [] then s else Run(Next(s, moves[0]), moves[1..])
  }

  /** Over every run from a checkout without discounts, voucher and order promotion stay apart. */
  lemma {:induction false} RunKeepsApart(s: State, moves: seq<Move>)
    requires Apart(s)
    ensures Apart(Run(s, moves))
    decreases |moves|
  {
    if moves != [] {
      RunKeepsApart(Next(s, moves[0]), moves[1..]);
    }
  }

  function Priced(s: State, lines: seq<LineInfo>, deliveryPrice: nat): CheckoutInfo {
    CheckoutInfo(lines, s.voucher, s.promotion, s.amount, deliveryPrice)
  }

  /**
   So on every checkout that can be reached, the two totals are equal where the discount is not spread over the lines,
   and within (n - 1) half units, equal exactly when the spread is exact, where it is.
   */
  lemma {:induction false} ReachableTotals(quantize: Quantizing, moves: seq<Move>, lines: seq<LineInfo>, deliveryPrice: nat)
    requires HalfUnit(quantize)
    ensures var c := Priced(Run(State(false, NoVoucher, false, 0), moves), lines, deliveryPrice);
            var excess := LineByLineTotal(quantize, c) - DirectTotal(c);
            && 0 <= 2 * excess <= Max(0, |lines| - 1)
            && (excess == 0 <==> !Spreads(c) || SpreadIsExact(quantize, BasePrices(lines), c.discount))
  {
    var s := Run(State(false, NoVoucher, false, 0), moves);
    RunKeepsApart(State(false, NoVoucher, false, 0), moves);
    var c := Priced(s, lines, deliveryPrice);
    if Spreads(c) {
      TwoTotalsAgree(quantize, c);
    } else {
      TotalsWithoutSpread(quantize, c);
    }
  }
}
