/** Open fulfillments have one line per order line, so that cancelling them strands nothing. */
module LedgerSingle {
  import opened Wrappers
  import opened LedgerBooks
  import opened LedgerTotals
  import opened LedgerCounts
  import opened LedgerSound
  import opened LedgerCreateCancel
  import opened LedgerRuns

  ghost predicate InOpen(b: Books, i: Id) {
    i in b.lines && b.lines[i].fulfillment in b.fulfillments && IsOpen(b.fulfillments[b.lines[i].fulfillment].status)
  }

  ghost predicate Alike(x: Line, y: Line) {
    x.fulfillment == y.fulfillment && x.orderLine == y.orderLine
  }

  /** An open fulfillment has at most one line per order line. */
  ghost predicate OpenSingle(b: Books) {
    forall i, j | InOpen(b, i) && InOpen(b, j) && Alike(b.lines[i], b.lines[j]) :: i == j
  }

  /** The lines of open fulfillments are lines that were in open fulfillments before. */
  ghost predicate OpenFrom(b: Books, b': Books) {
    forall i | InOpen(b', i) :: InOpen(b, i) && Alike(b.lines[i], b'.lines[i])
  }

  lemma {:induction false} OpenChain(b: Books, b1: Books, b2: Books)
    requires OpenFrom(b, b1) && OpenFrom(b1, b2)
    ensures OpenFrom(b, b2)
  {
  }

  lemma {:induction false} OpenedFrom(b: Books, st: Status, amount: Option<nat>, orderReqs: seq<OrderRequest>, lineReqs: seq<LineRequest>)
    requires Sound(b) && st in LIVE && !IsOpen(st) && LiveRequests(b, lineReqs)
    ensures OpenFrom(b, Opened(b, st, amount, orderReqs))
  {
    OpenedSound(b, st, amount, orderReqs, lineReqs);
  }

  lemma {:induction false} MovedFrom(b: Books, reqs: seq<LineRequest>, target: Id, inTarget: seq<Id>)
    requires WellFormed(b) && Settling(b, target) && TargetRows(b, target, inTarget) && Sources(b, reqs, target)
    ensures OpenFrom(b, MoveLines(b, reqs, target, inTarget))
  {
    MoveLinesShape(b, reqs, target, inTarget);
  }

  lemma {:induction false} EmptiesFrom(b: Books)
    ensures OpenFrom(b, EmptiesDeleted(b))
  {
  }

  lemma {:induction false} TakenFrom(b: Books, st: Status, amount: Option<nat>, orderReqs: seq<OrderRequest>, lineReqs: seq<LineRequest>)
    requires Sound(b) && st in LIVE && !IsOpen(st) && LiveRequests(b, lineReqs)
    ensures OpenFrom(b, TakeInto(b, st, amount, orderReqs, lineReqs))
  {
    var b1 := Opened(b, st, amount, orderReqs);
    OpenedSound(b, st, amount, orderReqs, lineReqs);
    OpenedFrom(b, st, amount, orderReqs, lineReqs);
    MovedFrom(b1, lineReqs, b.nextFulfillment, Ids(b.nextLine, b1.nextLine));
    OpenChain(b, b1, TakeInto(b, st, amount, orderReqs, lineReqs));
  }

  lemma {:induction false} SecondBatchFrom(b2: Books, again: seq<LineRequest>)
    requires Sound(b2) && LiveRequests(b2, again)
    ensures OpenFrom(b2, MoveLines(NewFulfillment(b2, RefundedAndReturned, None), again, b2.nextFulfillment, []))
  {
    var b3 := NewFulfillment(b2, RefundedAndReturned, None);
    SecondBatch(b2, again);
    NewFulfillmentSound(b2, RefundedAndReturned, None);
    MovedFrom(b3, again, b2.nextFulfillment, []);
    assert OpenFrom(b2, b3);
    OpenChain(b2, b3, MoveLines(b3, again, b2.nextFulfillment, []));
  }

  lemma {:induction false} ReturnedFrom(b: Books, st: Status, amount: Option<nat>, orderReqs: seq<OrderRequest>, lineReqs: seq<LineRequest>)
    requires Sound(b) && st in LIVE && !IsOpen(st) && LiveRequests(b, lineReqs)
    ensures OpenFrom(b, ReturnMoved(b, st, amount, orderReqs, lineReqs))
  {
    var target := b.nextFulfillment;
    var b1 := Opened(b, st, amount, orderReqs);
    OpenedSound(b, st, amount, orderReqs, lineReqs);
    OpenedFrom(b, st, amount, orderReqs, lineReqs);
    var again, once := SplitRefunded(b1, lineReqs, true), SplitRefunded(b1, lineReqs, false);
    SplitRefundedFrom(b1, lineReqs, true);
    SplitRefundedFrom(b1, lineReqs, false);
    var inTarget := Ids(b.nextLine, b1.nextLine);
    var b2 := MoveLines(b1, once, target, inTarget);
    MoveLinesSound(b1, once, target, inTarget);
    MovedFrom(b1, once, target, inTarget);
    MovedKeepsRequests(b1, once, target, inTarget, again);
    OpenChain(b, b1, b2);
    if again != [] {
      if st.RefundedAndReturned? {
        MovedFrom(b2, again, target, []);
        OpenChain(b, b2, MoveLines(b2, again, target, []));
      } else {
        SecondBatchFrom(b2, again);
        OpenChain(b, b2, MoveLines(NewFulfillment(b2, RefundedAndReturned, None), again, b2.nextFulfillment, []));
      }
    }
  }

  lemma {:induction false} ReturnCreatedFrom(b: Books, orderReqs: seq<OrderRequest>, lineReqs: seq<LineRequest>, refund: Option<RefundTerms>)
    requires Sound(b) && LiveRequests(b, lineReqs)
    ensures OpenFrom(b, ReturnCreated(b, orderReqs, lineReqs, refund))
  {
    var backOrder, backLines := OrderSide(orderReqs, false), LineSide(lineReqs, false);
    var newOrder, newLines := OrderSide(orderReqs, true), LineSide(lineReqs, true);
    LineSideFrom(lineReqs, false);
    LineSideFrom(lineReqs, true);
    var total := match refund case None => None case Some(terms) => Some(TotalRefund(b, terms, backOrder, backLines));
    var b1 := if newOrder == [] && newLines == [] then b else TakeInto(b, Replaced, None, newOrder, newLines);
    if newOrder != [] || newLines != [] {
      TakeIntoSound(b, Replaced, None, newOrder, newLines);
      TakenFrom(b, Replaced, None, newOrder, newLines);
      TakeIntoKeepsRequests(b, Replaced, None, newOrder, newLines, backLines);
    }
    var st := if total.None? then Returned else RefundedAndReturned;
    ReturnedFrom(b1, st, total, backOrder, backLines);
    var b2 := ReturnMoved(b1, st, total, backOrder, backLines);
    EmptiesFrom(b2);
    OpenChain(b, b1, b2);
    OpenChain(b, b2, EmptiesDeleted(b2));
  }

  // ---- creating from parcels that name each order line once

  ghost predicate Distinct(ws: seq<Wanted>) {
    forall i, j | 0 <= i < j < |ws| :: ws[i].orderLine != ws[j].orderLine
  }

  /** The wanted goods are not yet among the target's lines. */
  ghost predicate NotYetIn(b: Books, ws: seq<Wanted>, target: Id) {
    forall i, k | i in b.lines && 0 <= k < |ws| && b.lines[i].fulfillment == target :: b.lines[i].orderLine != ws[k].orderLine
  }

  lemma {:induction false} FulfillAllSingle(b: Books, ws: seq<Wanted>, target: Id)
    requires OpenSingle(b) && (forall i | i in b.lines :: i < b.nextLine) && Distinct(ws) && NotYetIn(b, ws, target)
    ensures OpenSingle(FulfillAll(b, ws, target))
    decreases |ws|
  {
    if ws != [] {
      var b1 := FulfillOne(b, ws[0], target);
      FulfillOneSingle(b, ws[0], target);
      forall i, k | i in b1.lines && 0 <= k < |ws[1..]| && b1.lines[i].fulfillment == target
        ensures b1.lines[i].orderLine != ws[1..][k].orderLine
      {
        assert ws[1..][k] == ws[k + 1];
      }
      FulfillAllSingle(b1, ws[1..], target);
    }
  }

  lemma {:induction false} FulfillOneSingle(b: Books, w: Wanted, target: Id)
    requires OpenSingle(b) && (forall i | i in b.lines :: i < b.nextLine)
    requires forall i | i in b.lines && b.lines[i].fulfillment == target :: b.lines[i].orderLine != w.orderLine
    ensures var b' := FulfillOne(b, w, target); OpenSingle(b') && (forall i | i in b'.lines :: i < b'.nextLine)
  {
    var b' := FulfillOne(b, w, target);
    forall i, j | InOpen(b', i) && InOpen(b', j) && Alike(b'.lines[i], b'.lines[j])
      ensures i == j
    {
      assert i != b.nextLine ==> InOpen(b, i);
      assert j != b.nextLine ==> InOpen(b, j);
    }
  }

  lemma {:induction false} ParcelsSingle(b: Books, parcels: seq<seq<Wanted>>, st: Status)
    requires OpenSingle(b) && Sound(b) && IsOpen(st) && Fits(b, Flat(parcels)) && forall i | 0 <= i < |parcels| :: Distinct(parcels[i])
    ensures OpenSingle(FulfillParcels(b, parcels, st))
    decreases |parcels|
  {
    if parcels != [] {
      var b0 := NewFulfillment(b, st, None);
      NewFulfillmentSound(b, st, None);
      assert OpenFrom(b, b0);
      FulfillAllSingle(b0, parcels[0], b.nextFulfillment);
      FulfillAllSound(b0, parcels[0], Flat(parcels[1..]), b.nextFulfillment);
      ParcelsSingle(FulfillAll(b0, parcels[0], b.nextFulfillment), parcels[1..], st);
    }
  }

  // ---- runs

  /** What the fulfill mutation checks: the lines for one warehouse name different order lines. */
  ghost predicate DistinctParcels(op: Op) {
    op.Create? ==> forall i | 0 <= i < |op.parcels| :: Distinct(op.parcels[i])
  }

  lemma {:induction false} StepSingle(b: Books, op: Op)
    requires OpenSingle(b) && Sound(b) && Allowed(b, op) && DistinctParcels(op)
    ensures OpenSingle(Apply(b, op))
  {
    match op
    case Create(parcels, autoApproved, _, _) =>
      if QuantitiesFit(b, parcels) {
        ParcelsSingle(b, parcels, if autoApproved then Fulfilled else WaitingForApproval);
      }
    case Approve(_, _, _) => assert OpenFrom(b, Apply(b, op));
    case CancelWaiting(_, _) => assert OpenFrom(b, Apply(b, op));
    case Cancel(_, _) => assert OpenFrom(b, Apply(b, op));
    case Refund(orderReqs, lineReqs, terms) =>
      var total := Some(TotalRefund(b, terms, orderReqs, lineReqs));
      TakenFrom(b, Refunded, total, orderReqs, lineReqs);
      EmptiesFrom(TakeInto(b, Refunded, total, orderReqs, lineReqs));
      OpenChain(b, TakeInto(b, Refunded, total, orderReqs, lineReqs), Apply(b, op));
    case Return(orderReqs, lineReqs, refund) =>
      ReturnCreatedFrom(b, orderReqs, lineReqs, refund);
  }

  /** Cancelling an open fulfillment strands nothing, in whatever order its lines are listed. */
  lemma {:induction false} OpenCancelStrandsNothing(b: Books, f: Id, rows: seq<Id>, ol: Id)
    requires OpenSingle(b) && WellFormed(b) && f in b.fulfillments && IsOpen(b.fulfillments[f].status) && Lists(b.lines, f, rows)
    ensures Stranded(b, f, rows, ol) == 0
  {
    assert forall i | RowOf(b.lines, i, ol) && b.lines[i].fulfillment == f :: InOpen(b, i);
    OneLineOnFirst(b.lines, f, rows, ol);
    StrandedExactly(b, f, rows, ol);
  }

  /**
   The restriction under which the balance is exact: every canceled fulfillment that was not open, one of refunded,
   returned or replaced goods, has one line per order line. The mutation does not check this.
   */
  ghost predicate SingleCancels(b: Books, ops: seq<Op>)
    decreases |ops|
  {
    ops == [] ||
    (&& DistinctParcels(ops[0])
     && (ops[0].Cancel? && ops[0].fulfillment in b.fulfillments && !IsOpen(b.fulfillments[ops[0].fulfillment].status) ==>
           forall ol :: OneLine(b.lines, ops[0].fulfillment, ol))
     && SingleCancels(Apply(b, ops[0]), ops[1..]))
  }

  /** Under that restriction every run keeps the ledger exactly balanced. */
  lemma {:induction false} RunStaysBalanced(b: Books, ops: seq<Op>)
    requires Balanced(b) && OpenSingle(b) && AllAllowed(b, ops) && SingleCancels(b, ops)
    ensures Balanced(Run(b, ops)) && OpenSingle(Run(b, ops))
    decreases |ops|
  {
    if ops != [] {
      var op := ops[0];
      StepSound(b, op);
      StepSingle(b, op);
      forall ol | ol in b.orderLines
        ensures StrandedBy(b, op, ol) == 0
      {
        NoneStranded(b, op, ol);
      }
      RunStaysBalanced(Apply(b, op), ops[1..]);
    }
  }

  lemma {:induction false} NoneStranded(b: Books, op: Op, ol: Id)
    requires OpenSingle(b) && Sound(b) && Allowed(b, op)
    requires op.Cancel? && !IsOpen(b.fulfillments[op.fulfillment].status) ==> forall ol :: OneLine(b.lines, op.fulfillment, ol)
    ensures StrandedBy(b, op, ol) == 0
  {
    if op.CancelWaiting? || (op.Cancel? && IsOpen(b.fulfillments[op.fulfillment].status)) {
      OpenCancelStrandsNothing(b, op.fulfillment, op.rows, ol);
    } else if op.Cancel? {
      OneLineOnFirst(b.lines, op.fulfillment, op.rows, ol);
      StrandedExactly(b, op.fulfillment, op.rows, ol);
    }
  }
}
