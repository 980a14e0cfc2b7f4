/** Whole runs of the ledger: bounds, balance and refunds. */
module LedgerRuns {
  import opened Wrappers
  import opened LedgerBooks
  import opened LedgerTotals
  import opened LedgerCounts
  import opened LedgerSound
  import opened LedgerCreateCancel
  import opened LedgerRefunds

  /** The actions, with what the stocks turn out to hold; a cancellation comes with the order in which the database returns the lines. */
  datatype Op =
    | Create(parcels: seq<seq<Wanted>>, autoApproved: bool, allowExceeded: bool, holds: Holds)
    | Approve(fulfillment: Id, allowExceeded: bool, allHold: bool)
    | CancelWaiting(fulfillment: Id, rows: seq<Id>)
    | Cancel(fulfillment: Id, rows: seq<Id>)
    | Refund(orderReqs: seq<OrderRequest>, lineReqs: seq<LineRequest>, terms: RefundTerms)
    | Return(orderReqs: seq<OrderRequest>, lineReqs: seq<LineRequest>, refund: Option<RefundTerms>)

  ghost function Apply(b: Books, op: Op): Books {
    match op
    case Create(parcels, autoApproved, allowExceeded, holds) => Created(b, parcels, autoApproved, allowExceeded, holds)
    case Approve(f, allowExceeded, allHold) => Approved(b, f, allowExceeded, allHold)
    case CancelWaiting(f, rows) => WaitingCanceled(b, f, rows)
    case Cancel(f, rows) => FulfillmentCanceled(b, f, rows, true)
    case Refund(orderReqs, lineReqs, terms) => RefundCreated(b, orderReqs, lineReqs, terms)
    case Return(orderReqs, lineReqs, refund) => ReturnCreated(b, orderReqs, lineReqs, refund)
  }

  /**
   What the mutations make sure of, as far as the bounds depend on it: a waiting fulfillment is approved or deleted,
   any fulfillment but a canceled one is canceled, and requests name lines of fulfillments that are not canceled.
   */
  ghost predicate Allowed(b: Books, op: Op) {
    match op
    case Create(_, _, _, _) => true
    case Approve(f, _, _) => f in b.fulfillments && b.fulfillments[f].status.WaitingForApproval?
    case CancelWaiting(f, rows) => f in b.fulfillments && b.fulfillments[f].status.WaitingForApproval? && Lists(b.lines, f, rows)
    case Cancel(f, rows) => f in Among(b, LIVE) && Lists(b.lines, f, rows)
    case Refund(_, lineReqs, _) => LiveRequests(b, lineReqs)
    case Return(_, lineReqs, _) => LiveRequests(b, lineReqs)
  }

  ghost function Run(b: Books, ops: seq<Op>): Books
    decreases |ops|
  {
    if ops == [] then b else Run(Apply(b, ops[0]), ops[1..])
  }

  ghost predicate AllAllowed(b: Books, ops: seq<Op>)
    decreases |ops|
  {
    ops == [] || (Allowed(b, ops[0]) && AllAllowed(Apply(b, ops[0]), ops[1..]))
  }

  /** Units that a cancellation leaves counted as fulfilled. */
  ghost function StrandedBy(b: Books, op: Op, ol: Id): int {
    if op.CancelWaiting? || op.Cancel? then Stranded(b, op.fulfillment, op.rows, ol) else 0
  }

  ghost function StrandedOver(b: Books, ops: seq<Op>, ol: Id): int
    decreases |ops|
  {
    if ops == [] then 0 else StrandedBy(b, ops[0], ol) + StrandedOver(Apply(b, ops[0]), ops[1..], ol)
  }

  lemma {:induction false} StepSound(b: Books, op: Op)
    requires Sound(b) && Allowed(b, op)
    ensures var b' := Apply(b, op);
            && Sound(b') && b'.orderLines.Keys == b.orderLines.Keys
            && (forall ol | ol in b.orderLines :: Slack(b', ol) == Slack(b, ol) + StrandedBy(b, op, ol) && StrandedBy(b, op, ol) >= 0)
  {
    match op
    case Create(parcels, autoApproved, allowExceeded, holds) => CreatedSound(b, parcels, autoApproved, allowExceeded, holds);
    case Approve(f, allowExceeded, allHold) => ApprovedSound(b, f, allowExceeded, allHold);
    case CancelWaiting(f, rows) => WaitingCanceledSound(b, f, rows); StrandedNotNegative(b, f, rows);
    case Cancel(f, rows) => FulfillmentCanceledSound(b, f, rows); StrandedNotNegative(b, f, rows);
    case Refund(orderReqs, lineReqs, terms) => RefundCreatedSound(b, orderReqs, lineReqs, terms);
    case Return(orderReqs, lineReqs, refund) => ReturnCreatedSound(b, orderReqs, lineReqs, refund);
  }

  lemma {:induction false} StrandedNotNegative(b: Books, f: Id, rows: seq<Id>)
    requires WellFormed(b) && Lists(b.lines, f, rows)
    ensures forall ol :: Stranded(b, f, rows, ol) >= 0
  {
    forall ol
      ensures Stranded(b, f, rows, ol) >= 0
    {
      StrandedExactly(b, f, rows, ol);
    }
  }

  /**
   Bounds over every run: whatever is created, approved, canceled, refunded, returned or replaced, each order line's
   fulfilled quantity stays within 0..quantity and covers its live fulfillment lines.
   */
  lemma {:induction false} RunStaysSound(b: Books, ops: seq<Op>)
    requires Sound(b) && AllAllowed(b, ops)
    ensures Sound(Run(b, ops))
    decreases |ops|
  {
    if ops != [] {
      StepSound(b, ops[0]);
      RunStaysSound(Apply(b, ops[0]), ops[1..]);
    }
  }

  /** The account of the balance over every run: what counts as fulfilled beyond the live lines is what cancellations stranded. */
  lemma {:induction false} RunBalance(b: Books, ops: seq<Op>, ol: Id)
    requires Sound(b) && AllAllowed(b, ops) && ol in b.orderLines
    ensures var b' := Run(b, ops);
            ol in b'.orderLines && Slack(b', ol) == Slack(b, ol) + StrandedOver(b, ops, ol) && StrandedOver(b, ops, ol) >= 0
    decreases |ops|
  {
    if ops != [] {
      StepSound(b, ops[0]);
      RunBalance(Apply(b, ops[0]), ops[1..], ol);
    }
  }

  /** Every cancellation of the run lists a line with all units of the order line before its other lines. */
  ghost predicate CancelsWhole(b: Books, ops: seq<Op>, ol: Id)
    decreases |ops|
  {
    ops == [] ||
    ((ops[0].CancelWaiting? || ops[0].Cancel? ==> AllOnFirst(b.lines, ops[0].rows, ol)) && CancelsWhole(Apply(b, ops[0]), ops[1..], ol))
  }

  lemma {:induction false} NothingStranded(b: Books, ops: seq<Op>, ol: Id)
    requires Sound(b) && AllAllowed(b, ops) && ol in b.orderLines
    ensures StrandedOver(b, ops, ol) >= 0 && (StrandedOver(b, ops, ol) == 0 <==> CancelsWhole(b, ops, ol))
    decreases |ops|
  {
    if ops != [] {
      StepSound(b, ops[0]);
      NothingStranded(Apply(b, ops[0]), ops[1..], ol);
      if ops[0].CancelWaiting? || ops[0].Cancel? {
        StrandedExactly(b, ops[0].fulfillment, ops[0].rows, ol);
      }
    }
  }

  /**
   Conservation over every run from a balanced ledger: an order line's fulfilled quantity is the sum of its live
   fulfillment lines at the end if and only if no cancellation found units of it behind its first listed line.
   */
  lemma {:induction false} RunBalancedExactly(b: Books, ops: seq<Op>, ol: Id)
    requires Balanced(b) && AllAllowed(b, ops) && ol in b.orderLines
    ensures var b' := Run(b, ops);
            ol in b'.orderLines && (b'.orderLines[ol].fulfilled == Count(b', ol, LIVE) <==> CancelsWhole(b, ops, ol))
  {
    RunBalance(b, ops, ol);
    NothingStranded(b, ops, ol);
  }

  // ---- order lines keep their quantity and price

  ghost predicate SameOrder(b: Books, b': Books) {
    && b'.orderLines.Keys == b.orderLines.Keys
    && forall ol | ol in b.orderLines :: b'.orderLines[ol].quantity == b.orderLines[ol].quantity && b'.orderLines[ol].price == b.orderLines[ol].price
  }

  lemma {:induction false} SameOrderAdd(b: Books, reqs: seq<OrderRequest>, target: Id)
    ensures SameOrder(b, AddOrderLines(b, reqs, target))
    decreases |reqs|
  {
    if reqs != [] {
      SameOrderAdd(AddOrderLine(b, reqs[0], target), reqs[1..], target);
    }
  }

  lemma {:induction false} SameOrderMove(b: Books, reqs: seq<LineRequest>, target: Id, inTarget: seq<Id>)
    ensures MoveLines(b, reqs, target, inTarget).orderLines == b.orderLines
    decreases |reqs|
  {
    if reqs != [] {
      SameOrderMove(MoveLine(b, reqs[0], target, inTarget), reqs[1..], target, inTarget);
    }
  }

  lemma {:induction false} SameOrderTake(b: Books, st: Status, amount: Option<nat>, orderReqs: seq<OrderRequest>, lineReqs: seq<LineRequest>)
    ensures SameOrder(b, TakeInto(b, st, amount, orderReqs, lineReqs))
  {
    var b1 := Opened(b, st, amount, orderReqs);
    SameOrderAdd(NewFulfillment(b, st, amount), orderReqs, b.nextFulfillment);
    SameOrderMove(b1, lineReqs, b.nextFulfillment, Ids(b.nextLine, b1.nextLine));
  }

  lemma {:induction false} SameOrderReturn(b: Books, st: Status, amount: Option<nat>, orderReqs: seq<OrderRequest>, lineReqs: seq<LineRequest>)
    ensures SameOrder(b, ReturnMoved(b, st, amount, orderReqs, lineReqs))
  {
    var b1 := Opened(b, st, amount, orderReqs);
    SameOrderAdd(NewFulfillment(b, st, amount), orderReqs, b.nextFulfillment);
    var once, again := SplitRefunded(b1, lineReqs, false), SplitRefunded(b1, lineReqs, true);
    SameOrderMove(b1, once, b.nextFulfillment, Ids(b.nextLine, b1.nextLine));
    var b2 := MoveLines(b1, once, b.nextFulfillment, Ids(b.nextLine, b1.nextLine));
    SameOrderMove(b2, again, b.nextFulfillment, []);
    SameOrderMove(NewFulfillment(b2, RefundedAndReturned, None), again, b2.nextFulfillment, []);
  }

  lemma {:induction false} SameOrderFulfill(b: Books, ws: seq<Wanted>, target: Id)
    ensures SameOrder(b, FulfillAll(b, ws, target))
    decreases |ws|
  {
    if ws != [] {
      SameOrderFulfill(FulfillOne(b, ws[0], target), ws[1..], target);
    }
  }

  lemma {:induction false} SameOrderParcels(b: Books, parcels: seq<seq<Wanted>>, st: Status)
    ensures SameOrder(b, FulfillParcels(b, parcels, st))
    decreases |parcels|
  {
    if parcels != [] {
      var b0 := NewFulfillment(b, st, None);
      SameOrderFulfill(b0, parcels[0], b.nextFulfillment);
      SameOrderParcels(FulfillAll(b0, parcels[0], b.nextFulfillment), parcels[1..], st);
    }
  }

  lemma {:induction false} SameOrderStep(b: Books, op: Op)
    ensures SameOrder(b, Apply(b, op))
  {
    match op
    case Create(parcels, autoApproved, _, _) =>
      SameOrderParcels(b, parcels, if autoApproved then Fulfilled else WaitingForApproval);
    case Approve(_, _, _) =>
    case CancelWaiting(_, _) =>
    case Cancel(_, _) =>
    case Refund(orderReqs, lineReqs, terms) =>
      SameOrderTake(b, Refunded, Some(TotalRefund(b, terms, orderReqs, lineReqs)), orderReqs, lineReqs);
    case Return(orderReqs, lineReqs, refund) =>
      var backOrder, backLines := OrderSide(orderReqs, false), LineSide(lineReqs, false);
      var newOrder, newLines := OrderSide(orderReqs, true), LineSide(lineReqs, true);
      var total := match refund case None => None case Some(terms) => Some(TotalRefund(b, terms, backOrder, backLines));
      SameOrderTake(b, Replaced, None, newOrder, newLines);
      var b1 := if newOrder == [] && newLines == [] then b else TakeInto(b, Replaced, None, newOrder, newLines);
      SameOrderReturn(b1, if total.None? then Returned else RefundedAndReturned, total, backOrder, backLines);
  }

  // ---- refunds

  /** The mutations' checks: besides the above, requests within what their sources hold, on lines that can still be moved. */
  ghost predicate Checked(b: Books, op: Op) {
    match op
    case Refund(orderReqs, lineReqs, _) => CleanOrder(b, orderReqs) && CleanLines(b, lineReqs)
    case Return(orderReqs, lineReqs, _) => CleanOrder(b, orderReqs) && CleanLines(b, lineReqs)
    case _ => Allowed(b, op)
  }

  lemma {:induction false} CheckedIsAllowed(b: Books, op: Op)
    requires Sound(b) && Checked(b, op)
    ensures Allowed(b, op)
  {
    if op.Refund? || op.Return? {
      CleanIsLive(b, op.lineReqs);
    }
  }

  ghost predicate AllChecked(b: Books, ops: seq<Op>)
    decreases |ops|
  {
    ops == [] || (Checked(b, ops[0]) && AllChecked(Apply(b, ops[0]), ops[1..]))
  }

  /** Units whose price the action puts into an automatically computed refund. */
  ghost function CountedBy(b: Books, op: Op, ol: Id): nat {
    match op
    case Refund(orderReqs, lineReqs, terms) => if terms.amount.None? then Counted(b, orderReqs, lineReqs, ol) else 0
    case Return(orderReqs, lineReqs, refund) =>
      if refund.Some? && refund.value.amount.None? then Counted(b, OrderSide(orderReqs, false), LineSide(lineReqs, false), ol) else 0
    case _ => 0
  }

  /** Units that the action settles without counting them: replaced ones, and refunds of an amount that was given. */
  ghost function UncountedBy(b: Books, op: Op, ol: Id): nat {
    match op
    case Refund(orderReqs, lineReqs, terms) => if terms.amount.Some? then Counted(b, orderReqs, lineReqs, ol) else 0
    case Return(orderReqs, lineReqs, refund) =>
      Counted(b, OrderSide(orderReqs, true), LineSide(lineReqs, true), ol)
      + (if refund.Some? && refund.value.amount.Some? then Counted(b, OrderSide(orderReqs, false), LineSide(lineReqs, false), ol) else 0)
    case _ => 0
  }

  ghost function UncountedOver(b: Books, ops: seq<Op>, ol: Id): nat
    decreases |ops|
  {
    if ops == [] then 0 else UncountedBy(b, ops[0], ol) + UncountedOver(Apply(b, ops[0]), ops[1..], ol)
  }

  ghost function CountedOver(b: Books, ops: seq<Op>, ol: Id): nat
    decreases |ops|
  {
    if ops == [] then 0 else CountedBy(b, ops[0], ol) + CountedOver(Apply(b, ops[0]), ops[1..], ol)
  }

  /** Settled units that a cancellation gives back to the order line. */
  ghost function ReopenedBy(b: Books, op: Op, ol: Id): int {
    if op.Cancel? && op.fulfillment in Among(b, SETTLED) then UnitsIn(b, Pick(ol, None, {op.fulfillment})) else 0
  }

  ghost function ReopenedOver(b: Books, ops: seq<Op>, ol: Id): int
    decreases |ops|
  {
    if ops == [] then 0 else ReopenedBy(b, ops[0], ol) + ReopenedOver(Apply(b, ops[0]), ops[1..], ol)
  }

  /** Rows outside settled fulfillments may change as they like. */
  lemma {:induction false} UnsettledChange(b: Books, b': Books, ol: Id)
    requires WellFormed(b) && WellFormed(b') && b.nextLine <= b'.nextLine
    requires forall i: Id | i < b'.nextLine :: UnitsAt(b.lines, i, Pick(ol, None, Among(b, SETTLED))) == UnitsAt(b'.lines, i, Pick(ol, None, Among(b', SETTLED)))
    ensures Count(b', ol, SETTLED) == Count(b, ol, SETTLED)
  {
    TotalSame(b.lines, Pick(ol, None, Among(b, SETTLED)), b'.lines, Pick(ol, None, Among(b', SETTLED)), b'.nextLine);
    TotalPast(b, Pick(ol, None, Among(b, SETTLED)), b'.nextLine);
  }

  lemma {:induction false} TotalPast(b: Books, p: Pick, n: nat)
    requires (forall i | i in b.lines :: i < b.nextLine) && b.nextLine <= n
    ensures Total(b.lines, p, n) == UnitsIn(b, p)
  {
    if n > b.nextLine {
      TotalPast(b, p, n - 1);
    }
  }

  lemma {:induction false} FulfillAllUnsettled(b: Books, ws: seq<Wanted>, target: Id)
    requires WellFormed(b) && target in b.fulfillments && IsOpen(b.fulfillments[target].status)
    ensures var b' := FulfillAll(b, ws, target);
            && WellFormed(b') && b'.fulfillments == b.fulfillments && b.nextLine <= b'.nextLine && b'.nextFulfillment == b.nextFulfillment
            && (forall i | i in b.lines :: i in b'.lines && b'.lines[i] == b.lines[i])
            && (forall i | i in b'.lines && i !in b.lines :: b'.lines[i].fulfillment == target && b.nextLine <= i)
    decreases |ws|
  {
    if ws != [] {
      FulfillAllUnsettled(FulfillOne(b, ws[0], target), ws[1..], target);
    }
  }

  lemma {:induction false} ParcelsUnsettled(b: Books, parcels: seq<seq<Wanted>>, st: Status, ol: Id)
    requires WellFormed(b) && IsOpen(st)
    ensures Count(FulfillParcels(b, parcels, st), ol, SETTLED) == Count(b, ol, SETTLED)
    decreases |parcels|
  {
    if parcels != [] {
      var b0 := NewFulfillment(b, st, None);
      CountNewFulfillment(b, st, None, ol, SETTLED);
      FulfillAllUnsettled(b0, parcels[0], b.nextFulfillment);
      var b1 := FulfillAll(b0, parcels[0], b.nextFulfillment);
      UnsettledChange(b0, b1, ol);
      ParcelsUnsettled(b1, parcels[1..], st, ol);
    }
  }

  lemma {:induction false} CancelSettled(b: Books, f: Id, rows: seq<Id>, ol: Id)
    requires WellFormed(b) && f in Among(b, LIVE)
    ensures Count(FulfillmentCanceled(b, f, rows, true), ol, SETTLED) ==
            Count(b, ol, SETTLED) - (if f in Among(b, SETTLED) then UnitsIn(b, Pick(ol, None, {f})) else 0)
  {
    var b' := FulfillmentCanceled(b, f, rows, true);
    if f in Among(b, SETTLED) {
      TotalSplit(b.lines, ol, Among(b, SETTLED), f, b.nextLine);
      assert Among(b', SETTLED) == Among(b, SETTLED) - {f};
    } else {
      assert Among(b', SETTLED) == Among(b, SETTLED);
    }
  }

  lemma {:induction false} StepSettles(b: Books, op: Op, ol: Id)
    requires Sound(b) && Checked(b, op) && ol in b.orderLines
    ensures Count(Apply(b, op), ol, SETTLED) + ReopenedBy(b, op, ol) == Count(b, ol, SETTLED) + CountedBy(b, op, ol) + UncountedBy(b, op, ol)
  {
    CheckedIsAllowed(b, op);
    match op
    case Create(parcels, autoApproved, _, _) =>
      ParcelsUnsettled(b, parcels, if autoApproved then Fulfilled else WaitingForApproval, ol);
    case Approve(f, _, _) =>
      CountByRows(b, Apply(b, op), ol, SETTLED);
    case CancelWaiting(f, rows) =>
      WaitingCanceledSound(b, f, rows);
      UnsettledChange(b, Apply(b, op), ol);
    case Cancel(f, rows) =>
      CancelSettled(b, f, rows, ol);
    case Refund(orderReqs, lineReqs, terms) =>
      RefundSettles(b, orderReqs, lineReqs, terms, ol);
    case Return(orderReqs, lineReqs, refund) =>
      ReturnCreatedSettles(b, orderReqs, lineReqs, refund, ol);
  }

  /**
   The account of refunds over every run: settled units at the end, and those that cancellations reopened, are the
   settled units at the start, the units counted into automatic refunds, and those settled without being counted.
   */
  lemma {:induction false} RunSettles(b: Books, ops: seq<Op>, ol: Id)
    requires Sound(b) && AllChecked(b, ops) && ol in b.orderLines
    ensures Count(Run(b, ops), ol, SETTLED) + ReopenedOver(b, ops, ol) ==
            Count(b, ol, SETTLED) + CountedOver(b, ops, ol) + UncountedOver(b, ops, ol)
    ensures Sound(Run(b, ops)) && SameOrder(b, Run(b, ops))
    decreases |ops|
  {
    if ops != [] {
      CheckedIsAllowed(b, ops[0]);
      StepSound(b, ops[0]);
      SameOrderStep(b, ops[0]);
      StepSettles(b, ops[0], ol);
      RunSettles(Apply(b, ops[0]), ops[1..], ol);
    }
  }

  /** No settled fulfillment that the run cancels holds units of the order line. */
  ghost predicate NeverReopens(b: Books, ops: seq<Op>, ol: Id)
    decreases |ops|
  {
    ops == [] || (ReopenedBy(b, ops[0], ol) == 0 && NeverReopens(Apply(b, ops[0]), ops[1..], ol))
  }

  lemma {:induction false} NothingReopened(b: Books, ops: seq<Op>, ol: Id)
    requires NeverReopens(b, ops, ol)
    ensures ReopenedOver(b, ops, ol) == 0
    decreases |ops|
  {
    if ops != [] {
      NothingReopened(Apply(b, ops[0]), ops[1..], ol);
    }
  }

  lemma {:induction false} SettledWithin(b: Books, ol: Id)
    requires Sound(b) && ol in b.orderLines
    ensures 0 <= Count(b, ol, SETTLED) <= Count(b, ol, LIVE) <= b.orderLines[ol].quantity
  {
    TotalBounds(b.lines, Pick(ol, None, Among(b, SETTLED)), b.nextLine);
    TotalMonotone(b.lines, Pick(ol, None, Among(b, SETTLED)), Pick(ol, None, Among(b, LIVE)), b.nextLine);
    assert Slack(b, ol) >= 0;
  }

  /**
   No unit is refunded twice: over every run in which no cancellation reopens units of the order line, the units
   counted into automatic refunds are at most those settled in the run, and with those settled before at most the
   quantity; so their price is at most that of the whole order line.
   */
  lemma {:induction false} RefundedOnce(b: Books, ops: seq<Op>, ol: Id)
    requires Sound(b) && AllChecked(b, ops) && NeverReopens(b, ops, ol) && ol in b.orderLines
    ensures Count(b, ol, SETTLED) + CountedOver(b, ops, ol) <= Count(Run(b, ops), ol, SETTLED) <= b.orderLines[ol].quantity
    ensures CountedOver(b, ops, ol) * b.orderLines[ol].price <= b.orderLines[ol].quantity * b.orderLines[ol].price
  {
    RunSettles(b, ops, ol);
    NothingReopened(b, ops, ol);
    SettledWithin(b, ol);
    SettledWithin(Run(b, ops), ol);
    Times(CountedOver(b, ops, ol), b.orderLines[ol].quantity, b.orderLines[ol].price);
  }

  lemma {:induction false} Times(a: int, c: int, p: nat)
    requires a <= c
    ensures a * p <= c * p
  {
  }

  // ---- the runs that a cancellation of refunded goods makes possible

  const COMPUTED := RefundTerms(None, None, None)

  /** A computed refund of some unfulfilled units of one order line. */
  function RefundUnits(ol: Id, q: nat): Op {
    Refund([OrderRequest(ol, q, false)], [], COMPUTED)
  }

  lemma {:induction false} RefundUnitsRows(b: Books, ol: Id, q: nat)
    requires WellFormed(b) && ol in b.orderLines && q <= Open(b, ol)
    ensures var b1 := Apply(b, RefundUnits(ol, q));
            && b1.lines == b.lines[b.nextLine := Line(b.nextFulfillment, ol, None, q)] && b1.nextLine == b.nextLine + 1
            && b1.orderLines == b.orderLines[ol := b.orderLines[ol].(fulfilled := b.orderLines[ol].fulfilled + q)]
            && b.nextFulfillment in b1.fulfillments && b1.fulfillments[b.nextFulfillment].status.Refunded?
  {
    var r := OrderRequest(ol, q, false);
    var total := Some(TotalRefund(b, COMPUTED, [r], []));
    assert [r][1..] == [];
    var b0 := NewFulfillment(b, Refunded, total);
    assert AddOrderLines(b0, [r], b.nextFulfillment) == AddOrderLine(b0, r, b.nextFulfillment);
  }

  lemma {:induction false} RefundUnitsCounted(b: Books, ol: Id, q: nat)
    requires ol in b.orderLines && q <= Open(b, ol)
    ensures Checked(b, RefundUnits(ol, q)) && CountedBy(b, RefundUnits(ol, q), ol) == q
  {
    var r := OrderRequest(ol, q, false);
    assert [r][1..] == [];
    assert CleanOrder(b, [r]) && CleanLines(b, []);
    assert OrderAsked([r], ol) == q + OrderAsked([], ol);
    assert Counted(b, [r], [], ol) == q;
  }

  /** Cancelling the refunded fulfillment is accepted and gives its units back to the order line. */
  lemma {:induction false} CancelGivesBack(b: Books, ol: Id, q: nat)
    requires Sound(b) && ol in b.orderLines && q <= Open(b, ol)
    ensures var b1, c := Apply(b, RefundUnits(ol, q)), Cancel(b.nextFulfillment, [b.nextLine]);
            var b2 := Apply(b1, c);
            && Checked(b1, c) && b.nextFulfillment in Among(b1, SETTLED)
            && ol in b2.orderLines && q <= Open(b2, ol)
  {
    var f, b1, rows := b.nextFulfillment, Apply(b, RefundUnits(ol, q)), [b.nextLine];
    RefundUnitsRows(b, ol, q);
    assert Lists(b1.lines, f, rows) by {
      assert forall i :: i in rows <==> i == b.nextLine;
    }
    FulfilledAfter(b1, rows, ol);
    assert rows[1..] == [];
    assert SubtractedOf(b1.lines, rows, ol) == q;
  }

  lemma {:induction false} RunStep(b: Books, op: Op, rest: seq<Op>, ol: Id)
    ensures AllChecked(b, [op] + rest) == (Checked(b, op) && AllChecked(Apply(b, op), rest))
    ensures CountedOver(b, [op] + rest, ol) == CountedBy(b, op, ol) + CountedOver(Apply(b, op), rest, ol)
  {
    assert ([op] + rest)[1..] == rest;
  }

  /**
   The guard of RefundedOnce is needed: refund units, cancel that refunded fulfillment, refund them again, and every
   check passes while the same units are counted twice.
   */
  lemma {:induction false} CountedAgainAfterCancel(b: Books, ol: Id, q: nat)
    requires Sound(b) && ol in b.orderLines && q <= Open(b, ol)
    ensures var ops := [RefundUnits(ol, q), Cancel(b.nextFulfillment, [b.nextLine]), RefundUnits(ol, q)];
            AllChecked(b, ops) && CountedOver(b, ops, ol) == 2 * q
  {
    var x, c := RefundUnits(ol, q), Cancel(b.nextFulfillment, [b.nextLine]);
    var b1 := Apply(b, x);
    var b2 := Apply(b1, c);
    RefundUnitsCounted(b, ol, q);
    CancelGivesBack(b, ol, q);
    RefundUnitsCounted(b2, ol, q);
    RunStep(b2, x, [], ol);
    RunStep(b1, c, [x], ol);
    RunStep(b, x, [c, x], ol);
    assert [x] + [] == [x] && [c] + [x] == [c, x] && [x] + [c, x] == [x, c, x];
  }
}
