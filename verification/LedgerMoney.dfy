/** The money that automatic refunds pay out over a run. */
module LedgerMoney {
  import opened Wrappers
  import opened LedgerBooks
  import opened LedgerTotals
  import opened LedgerCounts
  import opened LedgerSound
  import opened LedgerRefunds
  import opened LedgerRuns
  import opened LedgerAmounts

  /** The product amount that the action computes for an automatic refund. */
  ghost function PaidBy(b: Books, op: Op): nat {
    match op
    case Refund(orderReqs, lineReqs, terms) => if terms.amount.None? then ProductRefund(b, orderReqs, lineReqs) else 0
    case Return(orderReqs, lineReqs, refund) =>
      if refund.Some? && refund.value.amount.None? then ProductRefund(b, OrderSide(orderReqs, false), LineSide(lineReqs, false)) else 0
    case _ => 0
  }

  ghost function PaidOver(b: Books, ops: seq<Op>): nat
    decreases |ops|
  {
    if ops == [] then 0 else PaidBy(b, ops[0]) + PaidOver(Apply(b, ops[0]), ops[1..])
  }

  /** Price of the counted units of the order lines below `n`. */
  ghost function CountedValue(b: Books, op: Op, n: nat): nat {
    if n == 0 then 0 else CountedValue(b, op, n - 1) + CountedBy(b, op, n - 1) * PriceOf(b, n - 1)
  }

  ghost function CountedOverValue(b: Books, ops: seq<Op>, n: nat): nat {
    if n == 0 then 0 else CountedOverValue(b, ops, n - 1) + CountedOver(b, ops, n - 1) * PriceOf(b, n - 1)
  }

  /** Price of the ordered units. */
  ghost function OrderValue(b: Books, n: nat): int {
    if n == 0 then 0
    else OrderValue(b, n - 1) + if n - 1 in b.orderLines then b.orderLines[n - 1].quantity * b.orderLines[n - 1].price else 0
  }

  lemma {:induction false} PricedIsCounted(b: Books, op: Op, orderReqs: seq<OrderRequest>, lineReqs: seq<LineRequest>, n: nat)
    requires CleanOrder(b, orderReqs) && forall ol: Id :: CountedBy(b, op, ol) == Counted(b, orderReqs, lineReqs, ol)
    ensures Priced(b, RefundMap(b, orderReqs, lineReqs), n) == CountedValue(b, op, n)
  {
    if n > 0 {
      PricedIsCounted(b, op, orderReqs, lineReqs, n - 1);
      RefundMapIsCounted(b, orderReqs, lineReqs, n - 1);
    }
  }

  lemma {:induction false} NothingCounted(b: Books, op: Op, n: nat)
    requires forall ol: Id :: CountedBy(b, op, ol) == 0
    ensures CountedValue(b, op, n) == 0
  {
    if n > 0 {
      NothingCounted(b, op, n - 1);
    }
  }

  lemma {:induction false} PaidForCounted(b: Books, op: Op, orderReqs: seq<OrderRequest>, lineReqs: seq<LineRequest>, n: nat)
    requires WellFormed(b) && (forall ol | ol in b.orderLines :: ol < n) && CleanOrder(b, orderReqs)
    requires forall ol: Id :: CountedBy(b, op, ol) == Counted(b, orderReqs, lineReqs, ol)
    ensures ProductRefund(b, orderReqs, lineReqs) == CountedValue(b, op, n)
  {
    RefundAgreesExactly(b, orderReqs, lineReqs, n);
    PricedIsCounted(b, op, orderReqs, lineReqs, n);
  }

  /** One action pays for exactly the units it counts. */
  lemma {:induction false} StepPays(b: Books, op: Op, n: nat)
    requires Sound(b) && Checked(b, op) && forall ol | ol in b.orderLines :: ol < n
    ensures PaidBy(b, op) == CountedValue(b, op, n)
  {
    match op
    case Refund(orderReqs, lineReqs, terms) =>
      if terms.amount.None? {
        PaidForCounted(b, op, orderReqs, lineReqs, n);
      } else {
        NothingCounted(b, op, n);
      }
    case Return(orderReqs, lineReqs, refund) =>
      if refund.Some? && refund.value.amount.None? {
        OrderSideClean(b, orderReqs, false);
        PaidForCounted(b, op, OrderSide(orderReqs, false), LineSide(lineReqs, false), n);
      } else {
        NothingCounted(b, op, n);
      }
    case Create(_, _, _, _) => NothingCounted(b, op, n);
    case Approve(_, _, _) => NothingCounted(b, op, n);
    case CancelWaiting(_, _) => NothingCounted(b, op, n);
    case Cancel(_, _) => NothingCounted(b, op, n);
  }

  lemma {:induction false} AddValues(b: Books, ops: seq<Op>, n: nat)
    requires ops != [] && SameOrder(b, Apply(b, ops[0]))
    ensures CountedOverValue(b, ops, n) == CountedValue(b, ops[0], n) + CountedOverValue(Apply(b, ops[0]), ops[1..], n)
  {
    if n > 0 {
      AddValues(b, ops, n - 1);
      SamePrice(b, Apply(b, ops[0]), n - 1);
      Distribute(CountedBy(b, ops[0], n - 1), CountedOver(Apply(b, ops[0]), ops[1..], n - 1), PriceOf(b, n - 1));
    }
  }

  lemma {:induction false} SamePrice(b: Books, b': Books, ol: Id)
    requires SameOrder(b, b')
    ensures PriceOf(b', ol) == PriceOf(b, ol)
  {
  }

  lemma {:induction false} NoValues(b: Books, n: nat)
    ensures CountedOverValue(b, [], n) == 0
  {
    if n > 0 {
      NoValues(b, n - 1);
    }
  }

  /** Over every run, automatic refunds pay exactly the price of the units they count. */
  lemma {:induction false} RunPays(b: Books, ops: seq<Op>, n: nat)
    requires Sound(b) && AllChecked(b, ops) && forall ol | ol in b.orderLines :: ol < n
    ensures PaidOver(b, ops) == CountedOverValue(b, ops, n)
    decreases |ops|
  {
    if ops == [] {
      NoValues(b, n);
    } else {
      var b1 := Apply(b, ops[0]);
      CheckedIsAllowed(b, ops[0]);
      StepSound(b, ops[0]);
      SameOrderStep(b, ops[0]);
      StepPays(b, ops[0], n);
      RunPays(b1, ops[1..], n);
      AddValues(b, ops, n);
    }
  }

  lemma {:induction false} CountedWithinOrder(b: Books, ops: seq<Op>, n: nat)
    requires Sound(b) && AllChecked(b, ops) && forall ol | ol in b.orderLines :: NeverReopens(b, ops, ol)
    ensures CountedOverValue(b, ops, n) <= OrderValue(b, n)
  {
    if n > 0 {
      CountedWithinOrder(b, ops, n - 1);
      if n - 1 in b.orderLines {
        RefundedOnce(b, ops, n - 1);
      }
    }
  }

  /** Over every run that reopens nothing, automatic refunds pay for products at most the price of the whole order. */
  lemma {:induction false} PaidAtMostOrder(b: Books, ops: seq<Op>, n: nat)
    requires Sound(b) && AllChecked(b, ops) && (forall ol | ol in b.orderLines :: ol < n)
    requires forall ol | ol in b.orderLines :: NeverReopens(b, ops, ol)
    ensures PaidOver(b, ops) <= OrderValue(b, n)
  {
    RunPays(b, ops, n);
    CountedWithinOrder(b, ops, n);
  }
}
