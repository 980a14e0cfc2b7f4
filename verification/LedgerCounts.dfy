/** Units per status of fulfillment, and what each action does to them. */
module LedgerCounts {
  import opened Wrappers
  import opened LedgerBooks
  import opened LedgerTotals

  const LIVE := {Fulfilled, Refunded, Returned, RefundedAndReturned, Replaced, WaitingForApproval}
  const SETTLED := {Refunded, RefundedAndReturned, Replaced}
  const MOVABLE := {Fulfilled, WaitingForApproval, Returned, Refunded}

  /** The fulfillments in one of the given statuses. */
  ghost function Among(b: Books, sts: set<Status>): set<Id> {
    set f | f in b.fulfillments && b.fulfillments[f].status in sts
  }

  /** Units of an order line in fulfillments of the given statuses. */
  ghost function Count(b: Books, orderLine: Id, sts: set<Status>): int {
    UnitsIn(b, Pick(orderLine, None, Among(b, sts)))
  }

  /** The rows that were there keep their meaning: no fulfillment changes, no order line is added or repriced. */
  ghost predicate Extends(b: Books, b': Books) {
    && (forall f | f in b.fulfillments :: f in b'.fulfillments && b'.fulfillments[f] == b.fulfillments[f])
    && b.nextLine <= b'.nextLine && b.nextFulfillment <= b'.nextFulfillment
    && b'.orderLines.Keys == b.orderLines.Keys
    && (forall ol | ol in b.orderLines :: b'.orderLines[ol] == b.orderLines[ol].(fulfilled := b'.orderLines[ol].fulfilled))
  }

  lemma {:induction false} CountByRows(b: Books, b': Books, ol: Id, sts: set<Status>)
    requires WellFormed(b) && b'.lines == b.lines && b'.nextLine == b.nextLine
    requires forall i | i in b.lines :: b.lines[i].fulfillment in Among(b, sts) <==> b.lines[i].fulfillment in Among(b', sts)
    ensures Count(b', ol, sts) == Count(b, ol, sts)
  {
    TotalSame(b.lines, Pick(ol, None, Among(b, sts)), b'.lines, Pick(ol, None, Among(b', sts)), b.nextLine);
  }

  lemma {:induction false} CountNewFulfillment(b: Books, st: Status, amount: Option<nat>, ol: Id, sts: set<Status>)
    requires WellFormed(b)
    ensures var b' := NewFulfillment(b, st, amount);
            WellFormed(b') && Extends(b, b') && Count(b', ol, sts) == Count(b, ol, sts)
  {
    CountByRows(b, NewFulfillment(b, st, amount), ol, sts);
  }

  lemma {:induction false} CountEmptiesDeleted(b: Books, ol: Id, sts: set<Status>)
    requires WellFormed(b)
    ensures WellFormed(EmptiesDeleted(b)) && Count(EmptiesDeleted(b), ol, sts) == Count(b, ol, sts)
  {
    var b' := EmptiesDeleted(b);
    forall i | i in b.lines
      ensures b.lines[i].fulfillment in b'.fulfillments
    {
      assert HasLines(b, b.lines[i].fulfillment);
    }
    CountByRows(b, b', ol, sts);
  }

  // ---- units taken straight from order lines

  function Open(b: Books, ol: Id): int
    requires ol in b.orderLines
  {
    b.orderLines[ol].quantity - b.orderLines[ol].fulfilled
  }

  ghost predicate WithinQuantity(b: Books) {
    forall ol | ol in b.orderLines :: 0 <= b.orderLines[ol].fulfilled <= b.orderLines[ol].quantity
  }

  /** Rows after taking units straight from order lines: new rows, all of them in the target. */
  ghost predicate RowsAdded(b: Books, b': Books, target: Id) {
    && WellFormed(b') && WithinQuantity(b') && Extends(b, b')
    && b'.fulfillments == b.fulfillments && b'.nextFulfillment == b.nextFulfillment
    && (forall i | i in b.lines :: i in b'.lines && b'.lines[i] == b.lines[i])
    && (forall i | i in b'.lines && i !in b.lines :: b'.lines[i].fulfillment == target && b.nextLine <= i)
    && (forall i: Id | b.nextLine <= i < b'.nextLine :: i in b'.lines)
  }

  lemma {:induction false} AddOrderLinesRows(b: Books, reqs: seq<OrderRequest>, target: Id)
    requires WellFormed(b) && WithinQuantity(b) && target in b.fulfillments
    ensures RowsAdded(b, AddOrderLines(b, reqs, target), target)
    decreases |reqs|
  {
    if reqs != [] {
      var b1 := AddOrderLine(b, reqs[0], target);
      assert RowsAdded(b, b1, target);
      AddOrderLinesRows(b1, reqs[1..], target);
    }
  }

  lemma {:induction false} AddOrderLineUnits(b: Books, r: OrderRequest, target: Id, ol: Id, among: set<Id>)
    requires WellFormed(b) && ol in b.orderLines
    ensures var b' := AddOrderLine(b, r, target);
            && ol in b'.orderLines
            && UnitsIn(b', Pick(ol, None, among)) == UnitsIn(b, Pick(ol, None, among))
               + (if target in among then b'.orderLines[ol].fulfilled - b.orderLines[ol].fulfilled else 0)
  {
    if r.line in b.orderLines {
      var row := b.orderLines[r.line];
      var moved := Min(row.quantity - row.fulfilled, r.quantity);
      var mid := b.(orderLines := b.orderLines[r.line := row.(fulfilled := row.fulfilled + moved)]);
      NewLineUnits(mid, Line(target, r.line, None, moved), Pick(ol, None, among));
    }
  }

  lemma {:induction false} AddOrderLinesUnits(b: Books, reqs: seq<OrderRequest>, target: Id, ol: Id, among: set<Id>)
    requires WellFormed(b) && WithinQuantity(b) && target in b.fulfillments && ol in b.orderLines
    ensures var b' := AddOrderLines(b, reqs, target);
            && ol in b'.orderLines
            && UnitsIn(b', Pick(ol, None, among)) == UnitsIn(b, Pick(ol, None, among))
               + (if target in among then b'.orderLines[ol].fulfilled - b.orderLines[ol].fulfilled else 0)
    decreases |reqs|
  {
    if reqs != [] {
      AddOrderLineUnits(b, reqs[0], target, ol, among);
      AddOrderLinesRows(b, [reqs[0]], target);
      var b1 := AddOrderLine(b, reqs[0], target);
      assert AddOrderLines(b, [reqs[0]], target) == b1;
      AddOrderLinesUnits(b1, reqs[1..], target, ol, among);
    }
  }

  /** Units that leave the unfulfilled part of an order line arrive in the target, unit for unit. */
  lemma {:induction false} AddOrderLinesCount(b: Books, reqs: seq<OrderRequest>, target: Id, ol: Id, sts: set<Status>)
    requires WellFormed(b) && WithinQuantity(b) && target in b.fulfillments && ol in b.orderLines
    ensures var b' := AddOrderLines(b, reqs, target);
            && ol in b'.orderLines
            && Count(b', ol, sts) == Count(b, ol, sts)
               + (if b.fulfillments[target].status in sts then b'.orderLines[ol].fulfilled - b.orderLines[ol].fulfilled else 0)
  {
    AddOrderLinesUnits(b, reqs, target, ol, Among(b, sts));
    AddOrderLinesRows(b, reqs, target);
    assert Among(AddOrderLines(b, reqs, target), sts) == Among(b, sts);
  }

  // ---- requests that passed the mutations' checks

  ghost predicate CleanOrder(b: Books, reqs: seq<OrderRequest>) {
    && (forall i | 0 <= i < |reqs| :: reqs[i].line in b.orderLines && reqs[i].quantity <= Open(b, reqs[i].line))
    && (forall i, j | 0 <= i < j < |reqs| :: reqs[i].line != reqs[j].line)
  }

  ghost predicate CleanLines(b: Books, reqs: seq<LineRequest>) {
    && (forall i | 0 <= i < |reqs| ::
          && reqs[i].line in b.lines && reqs[i].quantity <= b.lines[reqs[i].line].quantity
          && b.lines[reqs[i].line].fulfillment in b.fulfillments
          && b.fulfillments[b.lines[reqs[i].line].fulfillment].status in MOVABLE)
    && (forall i, j | 0 <= i < j < |reqs| :: reqs[i].line != reqs[j].line)
  }

  function OrderAsked(reqs: seq<OrderRequest>, ol: Id): nat {
    if reqs == [] then 0 else (if reqs[0].line == ol then reqs[0].quantity else 0) + OrderAsked(reqs[1..], ol)
  }

  lemma {:induction false} OrderAskedAbsent(reqs: seq<OrderRequest>, ol: Id)
    requires forall i | 0 <= i < |reqs| :: reqs[i].line != ol
    ensures OrderAsked(reqs, ol) == 0
  {
    if reqs != [] {
      OrderAskedAbsent(reqs[1..], ol);
    }
  }

  /** Checked requests take exactly the units they name. */
  lemma {:induction false} CleanOrderTakes(b: Books, reqs: seq<OrderRequest>, target: Id, ol: Id)
    requires CleanOrder(b, reqs) && ol in b.orderLines
    ensures var b' := AddOrderLines(b, reqs, target);
            ol in b'.orderLines && b'.orderLines[ol].fulfilled == b.orderLines[ol].fulfilled + OrderAsked(reqs, ol)
    decreases |reqs|
  {
    if reqs != [] {
      var b1 := AddOrderLine(b, reqs[0], target);
      assert forall i | 0 <= i < |reqs[1..]| :: reqs[1..][i] == reqs[i + 1];
      forall i | 0 <= i < |reqs[1..]|
        ensures reqs[1..][i].line in b1.orderLines && reqs[1..][i].quantity <= Open(b1, reqs[1..][i].line)
      {
        assert reqs[i + 1].line != reqs[0].line;
      }
      assert CleanOrder(b1, reqs[1..]);
      CleanOrderTakes(b1, reqs[1..], target, ol);
    }
  }

  // ---- units moved between fulfillments

  /** Net units of an order line that the requests bring into the fulfillments `among`, for a target inside or outside them. */
  ghost function LineFlow(b: Books, reqs: seq<LineRequest>, ol: Id, toInside: bool, among: set<Id>): int {
    if reqs == [] then 0
    else
      (if reqs[0].line in b.lines && b.lines[reqs[0].line].orderLine == ol
       then reqs[0].quantity * ((if toInside then 1 else 0) - In(b.lines[reqs[0].line].fulfillment, among)) else 0)
      + LineFlow(b, reqs[1..], ol, toInside, among)
  }

  lemma {:induction false} LineFlowSame(b: Books, b': Books, reqs: seq<LineRequest>, ol: Id, toInside: bool, among: set<Id>, among': set<Id>)
    requires forall i | 0 <= i < |reqs| ::
               && reqs[i].line in b.lines && reqs[i].line in b'.lines && b'.lines[reqs[i].line] == b.lines[reqs[i].line]
               && (b.lines[reqs[i].line].fulfillment in among <==> b.lines[reqs[i].line].fulfillment in among')
    ensures LineFlow(b', reqs, ol, toInside, among') == LineFlow(b, reqs, ol, toInside, among)
  {
    if reqs != [] {
      assert reqs[0].line in b.lines;
      assert forall i | 0 <= i < |reqs[1..]| :: reqs[1..][i] == reqs[i + 1];
      LineFlowSame(b, b', reqs[1..], ol, toInside, among, among');
    }
  }

  /** Rows named by checked requests, and not by the first one, are still as they were after it. */
  lemma {:induction false} CleanRest(b: Books, reqs: seq<LineRequest>, target: Id, inTarget: seq<Id>)
    requires reqs != [] && WellFormed(b) && target in b.fulfillments && TargetRows(b, target, inTarget) && Sources(b, reqs, target)
    requires CleanLines(b, reqs)
    ensures var b1 := MoveLine(b, reqs[0], target, inTarget);
            && CleanLines(b1, reqs[1..])
            && (forall i | 0 <= i < |reqs[1..]| :: reqs[1..][i].line in b.lines && b1.lines[reqs[1..][i].line] == b.lines[reqs[1..][i].line])
  {
    assert reqs[0] in reqs;
    assert Sources(b, [reqs[0]], target);
    MoveLineShape(b, reqs[0], target, inTarget);
    var b1 := MoveLine(b, reqs[0], target, inTarget);
    forall i | 0 <= i < |reqs[1..]|
      ensures reqs[1..][i].line in b.lines && reqs[1..][i].line in b1.lines && b1.lines[reqs[1..][i].line] == b.lines[reqs[1..][i].line]
    {
      assert reqs[1..][i] == reqs[i + 1];
      assert reqs[i + 1] in reqs;
      assert reqs[0].line != reqs[i + 1].line;
    }
    forall i, j | 0 <= i < j < |reqs[1..]|
      ensures reqs[1..][i].line != reqs[1..][j].line
    {
      assert reqs[1..][i] == reqs[i + 1] && reqs[1..][j] == reqs[j + 1];
    }
    forall i | 0 <= i < |reqs[1..]|
      ensures reqs[1..][i].quantity <= b1.lines[reqs[1..][i].line].quantity
    {
      assert reqs[1..][i] == reqs[i + 1];
    }
  }

  lemma {:induction false} CleanGains(b: Books, reqs: seq<LineRequest>, target: Id, inTarget: seq<Id>, ol: Id, among: set<Id>)
    requires WellFormed(b) && target in b.fulfillments && TargetRows(b, target, inTarget) && Sources(b, reqs, target)
    requires CleanLines(b, reqs)
    ensures Gains(b, reqs, target, inTarget, Pick(ol, None, among)) == LineFlow(b, reqs, ol, target in among, among)
    decreases |reqs|
  {
    if reqs != [] {
      var b1 := MoveLine(b, reqs[0], target, inTarget);
      assert reqs[0] == reqs[0] && reqs[0].line in b.lines;
      SourcesKept(b, reqs, target, inTarget);
      MoveLineShape(b, reqs[0], target, inTarget);
      CleanRest(b, reqs, target, inTarget);
      CleanGains(b1, reqs[1..], target, inTarget, ol, among);
      LineFlowSame(b, b1, reqs[1..], ol, target in among, among, among);
    }
  }

  /** A move of checked requests changes the count of every status class by the net flow into it. */
  lemma {:induction false} MoveLinesCount(b: Books, reqs: seq<LineRequest>, target: Id, inTarget: seq<Id>, ol: Id, sts: set<Status>)
    requires WellFormed(b) && target in b.fulfillments && TargetRows(b, target, inTarget) && Sources(b, reqs, target)
    requires CleanLines(b, reqs)
    ensures Count(MoveLines(b, reqs, target, inTarget), ol, sts) ==
            Count(b, ol, sts) + LineFlow(b, reqs, ol, target in Among(b, sts), Among(b, sts))
  {
    MoveLinesShape(b, reqs, target, inTarget);
    var b' := MoveLines(b, reqs, target, inTarget);
    assert Among(b', sts) == Among(b, sts);
    MoveLinesUnits(b, reqs, target, inTarget, Pick(ol, None, Among(b, sts)));
    CleanGains(b, reqs, target, inTarget, ol, Among(b, sts));
  }

  lemma {:induction false} FlowWithin(b: Books, reqs: seq<LineRequest>, ol: Id, toInside: bool, among: set<Id>)
    requires forall i | 0 <= i < |reqs| :: reqs[i].line in b.lines && (b.lines[reqs[i].line].fulfillment in among <==> toInside)
    ensures LineFlow(b, reqs, ol, toInside, among) == 0
  {
    if reqs != [] {
      assert reqs[0].line in b.lines;
      assert forall i | 0 <= i < |reqs[1..]| :: reqs[1..][i] == reqs[i + 1];
      FlowWithin(b, reqs[1..], ol, toInside, among);
    }
  }
}
