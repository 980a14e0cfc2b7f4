/** saleor/order/actions.py: the actions as they run, row by row, on the tables of one order. */
module Ledger {
  import opened Wrappers
  import opened LedgerBooks
  import opened LedgerTotals
  import opened LedgerCounts
  import opened LedgerSound
  import opened LedgerRefunds
  import opened LedgerAmounts
  import opened LedgerLazy
  import opened LedgerEffects
  import opened LedgerReturns
  import opened LedgerFulfilling

  datatype ActionError = QuantityTooBig | InsufficientStock

  class OrderLedger {
    var orderLines: map<Id, OrderLine>
    var fulfillments: map<Id, Fulfillment>
    var lines: map<Id, Line>
    var nextFulfillment: nat
    var nextLine: nat

    ghost function Snapshot(): Books
      reads this
    {
      Books(orderLines, fulfillments, lines, nextFulfillment, nextLine)
    }

    constructor (rows: map<Id, OrderLine>)
      ensures Snapshot() == Books(rows, map[], map[], 0, 0)
    {
      orderLines, fulfillments, lines, nextFulfillment, nextLine := rows, map[], map[], 0, 0;
    }

    method CreateFulfillment(status: Status, totalRefund: Option<nat>) returns (id: Id)
      modifies this
      ensures Snapshot() == NewFulfillment(old(Snapshot()), status, totalRefund) && id == old(nextFulfillment)
      ensures fulfillments == old(fulfillments)[id := Fulfillment(status, totalRefund)] && nextFulfillment == id + 1
      ensures orderLines == old(orderLines) && lines == old(lines) && nextLine == old(nextLine)
    {
      id := nextFulfillment;
      fulfillments := fulfillments[id := Fulfillment(status, totalRefund)];
      nextFulfillment := nextFulfillment + 1;
    }

    method BulkCreate(rows: seq<Line>) returns (created: seq<Id>)
      modifies this
      ensures Snapshot() == WithNew(old(Snapshot()), rows)
      ensures created == Ids(old(nextLine), nextLine) && nextLine == old(nextLine) + |rows|
    {
      created := [];
      var j := 0;
      while j < |rows|
        invariant 0 <= j <= |rows|
        invariant WithNew(Snapshot(), rows[j..]) == WithNew(old(Snapshot()), rows)
        invariant nextLine == old(nextLine) + j
        invariant created == Ids(old(nextLine), nextLine)
      {
        assert rows[j..][1..] == rows[j + 1..] && rows[j..][0] == rows[j];
        IdsSnoc(old(nextLine), nextLine);
        lines := lines[nextLine := rows[j]];
        created := created + [nextLine];
        nextLine := nextLine + 1;
        j := j + 1;
      }
      assert rows[j..] == [];
    }

    static lemma {:induction false} IdsSnoc(from: nat, to: nat)
      requires from <= to
      ensures Ids(from, to + 1) == Ids(from, to) + [to]
      decreases if from < to then to - from else 0
    {
      if from < to {
        IdsSnoc(from + 1, to);
      }
    }

    /** Unfulfilled units of order lines go to the target; its new rows are created together at the end. */
    method MoveOrderLines(reqs: seq<OrderRequest>, target: Id) returns (created: seq<Id>)
      modifies this
      ensures Snapshot() == AddOrderLines(old(Snapshot()), reqs, target)
      ensures created == Ids(old(nextLine), nextLine)
    {
      var toCreate: seq<Line> := [];
      var i := 0;
      while i < |reqs|
        invariant 0 <= i <= |reqs|
        invariant AddOrderLines(WithNew(Snapshot(), toCreate), reqs[i..], target) == AddOrderLines(old(Snapshot()), reqs, target)
        invariant nextLine == old(nextLine)
      {
        assert reqs[i..][0] == reqs[i] && reqs[i..][1..] == reqs[i + 1..];
        var r := reqs[i];
        ghost var before, rows := Snapshot(), toCreate;
        WithNewOrder(before, rows, before.orderLines);
        if r.line in orderLines {
          var line := orderLines[r.line];
          var unfulfilledToMove := Min(line.quantity - line.fulfilled, r.quantity);
          orderLines := orderLines[r.line := line.(fulfilled := line.fulfilled + unfulfilledToMove)];
          toCreate := toCreate + [Line(target, r.line, None, unfulfilledToMove)];
          WithNewOrder(before, rows, orderLines);
          WithNewSnoc(Snapshot(), rows, Line(target, r.line, None, unfulfilledToMove));
        }
        assert WithNew(Snapshot(), toCreate) == AddOrderLine(WithNew(before, rows), r, target);
        i := i + 1;
      }
      assert reqs[i..] == [];
      created := BulkCreate(toCreate);
    }

    method FindExistingLine(ids: seq<Id>, orderLine: Id, stock: Option<Id>) returns (r: Option<Id>)
      ensures r == FindLine(lines, ids, orderLine, stock)
      ensures r.None? <==> forall i | i in ids :: !IsFor(lines, i, orderLine, stock)
      ensures r.Some? ==> exists k | 0 <= k < |ids| :: ids[k] == r.value && FirstHolding(lines, ids, orderLine, stock, k)
    {
      FindLineIsFirst(lines, ids, orderLine, stock);
      var j := 0;
      while j < |ids|
        invariant 0 <= j <= |ids|
        invariant FindLine(lines, ids, orderLine, stock) == FindLine(lines, ids[j..], orderLine, stock)
      {
        if ids[j] in lines && lines[ids[j]].orderLine == orderLine && lines[ids[j]].stock == stock {
          return Some(ids[j]);
        }
        assert ids[j..][1..] == ids[j + 1..];
        j := j + 1;
      }
      return None;
    }

    /** One request: the source row is reduced, the units merge with a listed row or wait in a row to be created. */
    method MoveOneLine(r: LineRequest, inTarget: seq<Id>, target: Id, toCreate: seq<Line>, toDelete: set<Id>)
      returns (toCreate': seq<Line>, toDelete': set<Id>)
      requires r.line in lines && r.line < nextLine && forall t | t in inTarget :: t < nextLine && t in WithNew(Snapshot(), toCreate).lines
      requires r.line !in inTarget
      modifies this`lines
      ensures r.line in WithNew(old(Snapshot()), toCreate).lines
      ensures WithNew(Snapshot(), toCreate') == LazyMove(WithNew(old(Snapshot()), toCreate), r, target, inTarget)
      ensures toDelete' == LazyGone(WithNew(old(Snapshot()), toCreate), r, toDelete)
    {
      toCreate', toDelete' := toCreate, toDelete;
      ghost var before := Snapshot();
      var src := lines[r.line];
      var existing := FindExistingLine(inTarget, src.orderLine, src.stock);
      var moved := Min(src.quantity, r.quantity);
      SameTargets(before, toCreate, inTarget, src.orderLine, src.stock);
      WithNewRow(before, toCreate, r.line, src.(quantity := src.quantity - moved));
      lines := lines[r.line := src.(quantity := src.quantity - moved)];
      if lines[r.line].quantity == 0 {
        toDelete' := toDelete' + {r.line};
      }
      ghost var mid := Snapshot();
      if existing.Some? {
        var t := existing.value;
        WithNewRow(mid, toCreate, t, lines[t].(quantity := lines[t].quantity + moved));
        lines := lines[t := lines[t].(quantity := lines[t].quantity + moved)];
      } else if moved > 0 {
        toCreate' := toCreate + [Line(target, src.orderLine, src.stock, moved)];
        WithNewSnoc(mid, toCreate, Line(target, src.orderLine, src.stock, moved));
      }
    }

    /**
     Units of fulfillment lines go to the target. Rows are reduced and merged on the way; new rows are created and
     emptied rows are deleted at the end.
     */
    method MoveFulfillmentLines(reqs: seq<LineRequest>, inTarget: seq<Id>, target: Id)
      requires WellFormed(Snapshot()) && TargetRows(Snapshot(), target, inTarget) && Sources(Snapshot(), reqs, target)
      modifies this
      ensures Snapshot() == MoveLines(old(Snapshot()), reqs, target, inTarget)
    {
      var toCreate, toDelete := MoveEach(reqs, inTarget, target);
      var _ := BulkCreate(toCreate);
      lines := lines - toDelete;
    }

    /** The loop over the requests: what is still to be created and deleted at its end. */
    method MoveEach(reqs: seq<LineRequest>, inTarget: seq<Id>, target: Id) returns (toCreate: seq<Line>, toDelete: set<Id>)
      requires WellFormed(Snapshot()) && TargetRows(Snapshot(), target, inTarget) && Sources(Snapshot(), reqs, target)
      modifies this`lines
      ensures Without(WithNew(Snapshot(), toCreate), toDelete) == MoveLines(old(Snapshot()), reqs, target, inTarget)
    {
      toCreate, toDelete := [], {};
      ghost var n, final := nextLine, MoveLines(Snapshot(), reqs, target, inTarget);
      LazyStart(Snapshot(), reqs, target, inTarget);
      assert reqs[0..] == reqs;
      var i := 0;
      while i < |reqs|
        invariant 0 <= i <= |reqs|
        invariant LazyState(WithNew(Snapshot(), toCreate), toDelete, target, inTarget, n)
        invariant MoveLines(Without(WithNew(Snapshot(), toCreate), toDelete), reqs[i..], target, inTarget) == final
      {
        var r := reqs[i];
        assert r in reqs;
        assert reqs[i..][0] == r && reqs[i..][1..] == reqs[i + 1..];
        LazyTurn(WithNew(Snapshot(), toCreate), reqs[i..], target, inTarget, toDelete, n);
        WithNewRow(Snapshot(), toCreate, r.line, Line(0, 0, None, 0));
        if r.line in lines {
          toCreate, toDelete := MoveOneLine(r, inTarget, target, toCreate, toDelete);
        }
        i := i + 1;
      }
      assert reqs[i..] == [];
    }

    static lemma {:induction false} SameTargets(b: Books, rows: seq<Line>, ids: seq<Id>, ol: Id, stock: Option<Id>)
      requires forall t | t in ids :: t < b.nextLine && t in WithNew(b, rows).lines
      ensures forall t | t in ids :: t in b.lines && WithNew(b, rows).lines[t] == b.lines[t]
      ensures FindLine(b.lines, ids, ol, stock) == FindLine(WithNew(b, rows).lines, ids, ol, stock)
    {
      forall t | t in ids
        ensures t in b.lines && WithNew(b, rows).lines[t] == b.lines[t]
      {
        WithNewRow(b, rows, t, Line(0, 0, None, 0));
      }
      FindLineSame(b.lines, WithNew(b, rows).lines, ids, ol, stock);
    }

    // ---- refunding, returning, replacing

    /** The amount and, per order line, the units it pays for. */
    method CalculateRefund(orderReqs: seq<OrderRequest>, lineReqs: seq<LineRequest>) returns (amount: nat, reported: map<Id, nat>)
      requires forall i | 0 <= i < |orderReqs| :: orderReqs[i].line in orderLines
      requires forall i | 0 <= i < |lineReqs| :: lineReqs[i].line in lines && lines[lineReqs[i].line].orderLine in orderLines
      ensures amount == ProductRefund(Snapshot(), orderReqs, lineReqs)
      ensures reported == RefundMap(Snapshot(), orderReqs, lineReqs)
    {
      amount, reported := RefundOrderLines(orderReqs);
      amount, reported := RefundFulfillmentLines(lineReqs, amount, reported);
    }

    /** The first loop: every order-line request counts in full. */
    method RefundOrderLines(orderReqs: seq<OrderRequest>) returns (amount: nat, reported: map<Id, nat>)
      requires forall i | 0 <= i < |orderReqs| :: orderReqs[i].line in orderLines
      ensures amount == RefundOfOrder(Snapshot(), orderReqs) && reported == OrderMap(map[], orderReqs)
    {
      ghost var b := Snapshot();
      amount, reported := 0, map[];
      assert orderReqs[0..] == orderReqs;
      for i := 0 to |orderReqs|
        invariant amount + RefundOfOrder(b, orderReqs[i..]) == RefundOfOrder(b, orderReqs)
        invariant OrderMap(reported, orderReqs[i..]) == OrderMap(map[], orderReqs)
      {
        assert orderReqs[i..][0] == orderReqs[i] && orderReqs[i..][1..] == orderReqs[i + 1..];
        var r := orderReqs[i];
        amount := amount + r.quantity * orderLines[r.line].price;
        reported := reported[r.line := r.quantity];
      }
    }

    /** The second loop: lines that were refunded already are skipped. */
    method RefundFulfillmentLines(lineReqs: seq<LineRequest>, amount0: nat, reported0: map<Id, nat>) returns (amount: nat, reported: map<Id, nat>)
      requires forall i | 0 <= i < |lineReqs| :: lineReqs[i].line in lines && lines[lineReqs[i].line].orderLine in orderLines
      ensures amount == amount0 + RefundOfLines(Snapshot(), lineReqs) && reported == LineMap(Snapshot(), reported0, lineReqs, true)
    {
      ghost var b := Snapshot();
      amount, reported := amount0, reported0;
      assert lineReqs[0..] == lineReqs;
      for i := 0 to |lineReqs|
        invariant amount + RefundOfLines(b, lineReqs[i..]) == amount0 + RefundOfLines(b, lineReqs)
        invariant LineMap(b, reported, lineReqs[i..], true) == LineMap(b, reported0, lineReqs, true)
      {
        RefundTurn(b, reported, lineReqs, i);
        var line := lines[lineReqs[i].line];
        if !(line.fulfillment in fulfillments && fulfillments[line.fulfillment].status.Refunded?) {
          amount := amount + lineReqs[i].quantity * orderLines[line.orderLine].price;
          reported := AddUnits(reported, line.orderLine, lineReqs[i].quantity);
        }
      }
    }

    /** One turn of the second loop, in the specification. */
    static lemma {:induction false} RefundTurn(b: Books, m: map<Id, nat>, reqs: seq<LineRequest>, i: nat)
      requires i < |reqs| && reqs[i].line in b.lines
      ensures RefundOfLines(b, reqs[i..]) == RefundOfLine(b, reqs[i]) + RefundOfLines(b, reqs[i + 1..])
      ensures LineMap(b, m, reqs[i..], true) ==
              LineMap(b, if FromRefunded(b, reqs[i]) then m else Plus(m, b.lines[reqs[i].line].orderLine, reqs[i].quantity), reqs[i + 1..], true)
    {
      assert reqs[i..][0] == reqs[i] && reqs[i..][1..] == reqs[i + 1..];
    }

    static method AddUnits(m: map<Id, nat>, orderLine: Id, quantity: nat) returns (r: map<Id, nat>)
      ensures r == Plus(m, orderLine, quantity)
    {
      if orderLine in m {
        r := m[orderLine := m[orderLine] + quantity];
      } else {
        r := m[orderLine := quantity];
      }
    }

    /** Quantities of the draft order that replaces the requested goods. */
    method ReplacementOrder(orderReqs: seq<OrderRequest>, lineReqs: seq<LineRequest>) returns (draft: map<Id, nat>)
      requires forall i | 0 <= i < |lineReqs| :: lineReqs[i].line in lines
      ensures draft == DraftMap(Snapshot(), orderReqs, lineReqs)
    {
      ghost var b := Snapshot();
      draft := map[];
      assert orderReqs[0..] == orderReqs;
      for i := 0 to |orderReqs|
        invariant OrderMap(draft, orderReqs[i..]) == OrderMap(map[], orderReqs)
      {
        assert orderReqs[i..][0] == orderReqs[i] && orderReqs[i..][1..] == orderReqs[i + 1..];
        draft := draft[orderReqs[i].line := orderReqs[i].quantity];
      }
      ghost var first := draft;
      assert lineReqs[0..] == lineReqs;
      for i := 0 to |lineReqs|
        invariant LineMap(b, draft, lineReqs[i..], false) == LineMap(b, first, lineReqs, false)
      {
        assert lineReqs[i..][0] == lineReqs[i] && lineReqs[i..][1..] == lineReqs[i + 1..];
        var orderLine := lines[lineReqs[i].line].orderLine;
        draft := AddUnits(draft, orderLine, lineReqs[i].quantity);
      }
    }

    method TakeRequested(status: Status, totalRefund: Option<nat>, orderReqs: seq<OrderRequest>, lineReqs: seq<LineRequest>)
      requires Sound(Snapshot()) && status in LIVE && !IsOpen(status) && LiveRequests(Snapshot(), lineReqs)
      modifies this
      ensures Snapshot() == TakeInto(old(Snapshot()), status, totalRefund, orderReqs, lineReqs)
    {
      OpenedSound(Snapshot(), status, totalRefund, orderReqs, lineReqs);
      var target := CreateFulfillment(status, totalRefund);
      var created := MoveOrderLines(orderReqs, target);
      MoveFulfillmentLines(lineReqs, created, target);
    }

    /** Open fulfillments without lines are deleted. */
    method DeleteEmpty()
      modifies this`fulfillments
      ensures Snapshot() == EmptiesDeleted(old(Snapshot()))
      ensures forall f :: f in fulfillments <==>
                          f in old(fulfillments)
                          && ((exists i | i in lines :: lines[i].fulfillment == f) || old(fulfillments)[f].status !in {Fulfilled, WaitingForApproval})
      ensures forall f | f in fulfillments :: fulfillments[f] == old(fulfillments)[f]
    {
      fulfillments := map f | f in fulfillments
                              && !(IsOpen(fulfillments[f].status) && !exists i | i in lines :: lines[i].fulfillment == f) :: fulfillments[f];
    }

    method CreateRefundFulfillment(orderReqs: seq<OrderRequest>, lineReqs: seq<LineRequest>, terms: RefundTerms)
      requires Sound(Snapshot()) && LiveRequests(Snapshot(), lineReqs)
      requires forall i | 0 <= i < |orderReqs| :: orderReqs[i].line in orderLines
      requires forall i | 0 <= i < |lineReqs| :: lineReqs[i].line in lines
      modifies this
      ensures Snapshot() == RefundCreated(old(Snapshot()), orderReqs, lineReqs, terms)
      ensures Sound(Snapshot())
      ensures CleanOrder(old(Snapshot()), orderReqs) && CleanLines(old(Snapshot()), lineReqs) ==>
                RefundDone(old(Snapshot()), Snapshot(), orderReqs, lineReqs, TotalRefund(old(Snapshot()), terms, orderReqs, lineReqs))
    {
      if CleanOrder(Snapshot(), orderReqs) && CleanLines(Snapshot(), lineReqs) {
        WholeRefund(Snapshot(), orderReqs, lineReqs, terms);
      }
      RefundCreatedSound(Snapshot(), orderReqs, lineReqs, terms);
      var total := ProcessRefund(orderReqs, lineReqs, terms);
      TakeRequested(Refunded, Some(total), orderReqs, lineReqs);
      DeleteEmpty();
    }

    method ProcessRefund(orderReqs: seq<OrderRequest>, lineReqs: seq<LineRequest>, terms: RefundTerms) returns (total: nat)
      requires forall i | 0 <= i < |orderReqs| :: orderReqs[i].line in orderLines
      requires forall i | 0 <= i < |lineReqs| :: lineReqs[i].line in lines && lines[lineReqs[i].line].orderLine in orderLines
      ensures total == TotalRefund(Snapshot(), terms, orderReqs, lineReqs)
      ensures terms.captured.Some? ==> total <= terms.captured.value
      ensures terms.captured.None? && terms.amount.Some? ==> total == terms.amount.value
      ensures terms.captured.None? && terms.amount.None? ==>
                total == ProductRefund(Snapshot(), orderReqs, lineReqs) + (if terms.shipping.Some? then terms.shipping.value else 0)
    {
      if terms.amount.Some? {
        total := terms.amount.value;
      } else {
        var amount, _ := CalculateRefund(orderReqs, lineReqs);
        total := amount;
        if terms.shipping.Some? {
          total := total + terms.shipping.value;
        }
      }
      if total != 0 && terms.captured.Some? && terms.captured.value < total {
        total := terms.captured.value;
      }
    }

    method MoveToReturn(status: Status, totalRefund: Option<nat>, orderReqs: seq<OrderRequest>, lineReqs: seq<LineRequest>)
      requires Sound(Snapshot()) && status in {Returned, RefundedAndReturned} && LiveRequests(Snapshot(), lineReqs)
      modifies this
      ensures Snapshot() == ReturnMoved(old(Snapshot()), status, totalRefund, orderReqs, lineReqs)
    {
      OpenedSound(Snapshot(), status, totalRefund, orderReqs, lineReqs);
      var target := CreateFulfillment(status, totalRefund);
      var created := MoveOrderLines(orderReqs, target);
      ghost var b1 := Snapshot();
      var once, again := SeparateRefunded(lineReqs);
      SplitRefundedFrom(b1, lineReqs, true);
      SplitRefundedFrom(b1, lineReqs, false);
      MoveLinesShape(b1, once, target, created);
      MovedKeepsRequests(b1, once, target, created, again);
      MoveFulfillmentLines(once, created, target);
      if again != [] {
        if status.RefundedAndReturned? {
          MoveFulfillmentLines(again, [], target);
        } else {
          SecondBatch(Snapshot(), again);
          var other := CreateFulfillment(RefundedAndReturned, None);
          MoveFulfillmentLines(again, [], other);
        }
      }
    }

    /** Requests on lines that were refunded already are set apart. */
    method SeparateRefunded(reqs: seq<LineRequest>) returns (once: seq<LineRequest>, again: seq<LineRequest>)
      ensures once == SplitRefunded(Snapshot(), reqs, false) && again == SplitRefunded(Snapshot(), reqs, true)
    {
      once, again := [], [];
      assert reqs[0..] == reqs;
      for i := 0 to |reqs|
        invariant once + SplitRefunded(Snapshot(), reqs[i..], false) == SplitRefunded(Snapshot(), reqs, false)
        invariant again + SplitRefunded(Snapshot(), reqs[i..], true) == SplitRefunded(Snapshot(), reqs, true)
      {
        assert reqs[i..][0] == reqs[i] && reqs[i..][1..] == reqs[i + 1..];
        var id := reqs[i].line;
        if id in lines && lines[id].fulfillment in fulfillments && fulfillments[lines[id].fulfillment].status.Refunded? {
          again := again + [reqs[i]];
        } else {
          once := once + [reqs[i]];
        }
      }
    }

    /** The replaced goods leave for a fulfillment of their own; the draft order has their quantities. */
    method ProcessReplace(orderReqs: seq<OrderRequest>, lineReqs: seq<LineRequest>) returns (draft: map<Id, nat>)
      requires Sound(Snapshot()) && LiveRequests(Snapshot(), lineReqs)
      requires forall i | 0 <= i < |lineReqs| :: lineReqs[i].line in lines
      modifies this
      ensures Snapshot() == TakeInto(old(Snapshot()), Replaced, None, orderReqs, lineReqs)
      ensures draft == DraftMap(old(Snapshot()), orderReqs, lineReqs)
    {
      // the draft order copies goods and quantities of the requests, which the move does not change
      draft := ReplacementOrder(orderReqs, lineReqs);
      TakeRequested(Replaced, None, orderReqs, lineReqs);
    }

    method ReplaceAndReturn(orderReqs: seq<OrderRequest>, lineReqs: seq<LineRequest>, total: Option<nat>) returns (draft: Option<map<Id, nat>>)
      requires Sound(Snapshot()) && LiveRequests(Snapshot(), lineReqs)
      requires forall i | 0 <= i < |lineReqs| :: lineReqs[i].line in lines
      modifies this
      ensures Snapshot() == BackOf(AfterReplacing(old(Snapshot()), orderReqs, lineReqs), total, orderReqs, lineReqs)
      ensures draft == if Replaces(orderReqs, lineReqs)
                       then Some(DraftMap(old(Snapshot()), OrderSide(orderReqs, true), LineSide(lineReqs, true))) else None
    {
      var backOrder, backLines := OrderSide(orderReqs, false), LineSide(lineReqs, false);
      var newOrder, newLines := OrderSide(orderReqs, true), LineSide(lineReqs, true);
      LineSidesKnown(Snapshot(), lineReqs, false);
      LineSidesKnown(Snapshot(), lineReqs, true);
      NoReplacedOrder(orderReqs);
      NoReplacedLines(lineReqs);
      draft := None;
      if newOrder != [] || newLines != [] {
        TakeIntoSound(Snapshot(), Replaced, None, newOrder, newLines);
        TakeIntoKeepsRequests(Snapshot(), Replaced, None, newOrder, newLines, backLines);
        var d := ProcessReplace(newOrder, newLines);
        draft := Some(d);
      }
      MoveToReturn(if total.None? then Returned else RefundedAndReturned, total, backOrder, backLines);
    }

    method CreateReturnFulfillments(orderReqs: seq<OrderRequest>, lineReqs: seq<LineRequest>, refund: Option<RefundTerms>)
      returns (draft: Option<map<Id, nat>>)
      requires Sound(Snapshot()) && LiveRequests(Snapshot(), lineReqs)
      requires forall i | 0 <= i < |orderReqs| :: orderReqs[i].line in orderLines
      requires forall i | 0 <= i < |lineReqs| :: lineReqs[i].line in lines
      modifies this
      ensures Snapshot() == ReturnCreated(old(Snapshot()), orderReqs, lineReqs, refund)
      ensures Sound(Snapshot())
      ensures draft.Some? <==> Replaces(orderReqs, lineReqs)
      ensures CleanOrder(old(Snapshot()), orderReqs) && CleanLines(old(Snapshot()), lineReqs) ==>
                && ReturnDone(old(Snapshot()), Snapshot(), orderReqs, lineReqs, TotalOf(old(Snapshot()), orderReqs, lineReqs, refund))
                && (draft.Some? ==> DraftDone(old(Snapshot()), draft.value, orderReqs, lineReqs))
    {
      ReturnOutcome(Snapshot(), orderReqs, lineReqs, refund);
      var total: Option<nat> := None;
      if refund.Some? {
        SidesKnown(Snapshot(), orderReqs, lineReqs, false);
        var t := ProcessRefund(OrderSide(orderReqs, false), LineSide(lineReqs, false), refund.value);
        total := Some(t);
      }
      draft := ReplaceAndReturn(orderReqs, lineReqs, total);
      DeleteEmpty();
    }

    static lemma {:induction false} LineSidesKnown(b: Books, lineReqs: seq<LineRequest>, side: bool)
      requires LiveRequests(b, lineReqs) && forall i | 0 <= i < |lineReqs| :: lineReqs[i].line in b.lines
      ensures LiveRequests(b, LineSide(lineReqs, side))
      ensures forall i | 0 <= i < |LineSide(lineReqs, side)| :: LineSide(lineReqs, side)[i].line in b.lines
    {
      LineSideFrom(lineReqs, side);
      forall i | 0 <= i < |LineSide(lineReqs, side)|
        ensures LineSide(lineReqs, side)[i].line in b.lines
      {
        assert LineSide(lineReqs, side)[i] in LineSide(lineReqs, side);
      }
    }

    static lemma {:induction false} SidesKnown(b: Books, orderReqs: seq<OrderRequest>, lineReqs: seq<LineRequest>, side: bool)
      requires WellFormed(b) && LiveRequests(b, lineReqs)
      requires forall i | 0 <= i < |orderReqs| :: orderReqs[i].line in b.orderLines
      requires forall i | 0 <= i < |lineReqs| :: lineReqs[i].line in b.lines
      ensures LiveRequests(b, LineSide(lineReqs, side))
      ensures forall i | 0 <= i < |OrderSide(orderReqs, side)| :: OrderSide(orderReqs, side)[i].line in b.orderLines
      ensures forall i | 0 <= i < |LineSide(lineReqs, side)| :: LineSide(lineReqs, side)[i].line in b.lines
    {
      LineSidesKnown(b, lineReqs, side);
      OrderSideFrom(orderReqs, side);
      forall i | 0 <= i < |OrderSide(orderReqs, side)|
        ensures OrderSide(orderReqs, side)[i].line in b.orderLines
      {
        assert OrderSide(orderReqs, side)[i] in OrderSide(orderReqs, side);
      }
    }

    // ---- fulfilling

    /** Rows for the goods of one warehouse, as far as their stocks are known. */
    method CollectRows(ws: seq<Wanted>, target: Id, allowExceeded: bool) returns (ok: bool, rows: seq<Line>)
      ensures ok == StocksKnown(ws, allowExceeded)
      ensures ok ==> rows == RowsOf(ws, target)
    {
      ok, rows := true, [];
      assert ws[0..] == ws;
      for i := 0 to |ws|
        invariant ok == StocksKnown(ws[..i], allowExceeded)
        invariant ok ==> rows + RowsOf(ws[i..], target) == RowsOf(ws, target)
      {
        assert ws[i..][0] == ws[i] && ws[i..][1..] == ws[i + 1..];
        StocksKnownSnoc(ws, i, allowExceeded);
        var w := ws[i];
        if w.quantity > 0 {
          if w.stock.None? && !allowExceeded {
            ok := false;
          } else {
            rows := rows + [Line(target, w.orderLine, w.stock, w.quantity)];
          }
        }
      }
      assert ws[..|ws|] == ws;
    }

    method IncreaseOrderLineQuantity(ws: seq<Wanted>)
      requires Known(orderLines, ws)
      modifies this`orderLines
      ensures orderLines == Increased(old(orderLines), ws)
      ensures orderLines.Keys == old(orderLines).Keys
      ensures forall ol | ol in old(orderLines) ::
                orderLines[ol] == old(orderLines)[ol].(fulfilled := old(orderLines)[ol].fulfilled + RequestedOf(ws, ol))
    {
      IncreasedByRequests(orderLines, ws);
      assert ws[0..] == ws;
      for i := 0 to |ws|
        invariant Increased(orderLines, ws[i..]) == Increased(old(orderLines), ws)
        invariant orderLines.Keys == old(orderLines).Keys
      {
        assert ws[i..][0] == ws[i] && ws[i..][1..] == ws[i + 1..];
        var w := ws[i];
        if w.quantity > 0 {
          orderLines := orderLines[w.orderLine := orderLines[w.orderLine].(fulfilled := orderLines[w.orderLine].fulfilled + w.quantity)];
        }
      }
    }

    /** The rows of one warehouse with their order lines raised, or no change when a stock is missing or holds too little. */
    method CreateFulfillmentLines(ws: seq<Wanted>, target: Id, decrease: bool, allowExceeded: bool, holds: Holds) returns (ok: bool, rows: seq<Line>)
      requires Known(orderLines, ws)
      modifies this`orderLines
      ensures ok == (StocksKnown(ws, allowExceeded) && (decrease ==> allowExceeded || NothingTaken(ws) || holds(ws)))
      ensures ok ==> rows == RowsOf(ws, target) && orderLines == Increased(old(orderLines), ws)
      ensures !ok ==> orderLines == old(orderLines)
    {
      ok, rows := CollectRows(ws, target, allowExceeded);
      NoRowsTaken(ws, target);
      if ok && rows != [] {
        if decrease && !allowExceeded && !holds(ws) {
          ok := false;
        } else {
          IncreaseOrderLineQuantity(ws);
        }
      }
    }

    static lemma {:induction false} NoRowsTaken(ws: seq<Wanted>, target: Id)
      ensures RowsOf(ws, target) == [] <==> NothingTaken(ws)
      ensures NothingTaken(ws) ==> forall ols :: Increased(ols, ws) == ols
    {
      if ws != [] {
        NoRowsTaken(ws[1..], target);
        assert NothingTaken(ws) <==> ws[0].quantity == 0 && NothingTaken(ws[1..]);
      }
    }

    /** No order line is fulfilled beyond its quantity; for the rest see the parcels. */
    method CreateFulfillments(parcels: seq<seq<Wanted>>, autoApproved: bool, allowExceeded: bool, holds: Holds) returns (error: Option<ActionError>)
      requires forall i | 0 <= i < |parcels| :: Known(orderLines, parcels[i])
      modifies this
      ensures Snapshot() == Created(old(Snapshot()), parcels, autoApproved, allowExceeded, holds)
      ensures error.None? <==> GoesThrough(old(Snapshot()), parcels, autoApproved, allowExceeded, holds)
      ensures error == Some(QuantityTooBig) <==>
              exists ol | ol in old(orderLines) :: old(orderLines)[ol].fulfilled + WantedInAll(parcels, ol) > old(orderLines)[ol].quantity
    {
      QuantitiesFitInAll(Snapshot(), parcels);
      StocksKnownInAll(parcels);
      StocksHoldInAll(parcels, allowExceeded, holds);
      var before := Books(orderLines, fulfillments, lines, nextFulfillment, nextLine);
      if !QuantitiesFit(before, parcels) {
        return Some(QuantityTooBig);
      }
      var ok := CreateParcels(parcels, autoApproved, allowExceeded, holds);
      error := if ok then None else Some(InsufficientStock);
    }

    /** The fulfillment for one warehouse; its rows wait to be created after those of the warehouses before it. */
    method CreateParcel(ws: seq<Wanted>, status: Status, decrease: bool, allowExceeded: bool, holds: Holds, ghost rows: seq<Line>)
      returns (ok: bool, more: seq<Line>)
      requires Known(orderLines, ws)
      modifies this
      ensures ok == (StocksKnown(ws, allowExceeded) && (decrease ==> allowExceeded || NothingTaken(ws) || holds(ws)))
      ensures ok ==> WithNew(Snapshot(), rows + more) ==
                     FulfillAll(NewFulfillment(WithNew(old(Snapshot()), rows), status, None), ws, WithNew(old(Snapshot()), rows).nextFulfillment)
      ensures ok ==> orderLines.Keys == old(orderLines).Keys
    {
      var target := CreateFulfillment(status, None);
      ghost var begun := Snapshot();
      ok, more := CreateFulfillmentLines(ws, target, decrease, allowExceeded, holds);
      if ok {
        ParcelDeferred(old(Snapshot()), begun, Snapshot(), rows, ws, target, status);
      }
    }

    /** One fulfillment per warehouse; any error rolls everything back. */
    method CreateParcels(parcels: seq<seq<Wanted>>, autoApproved: bool, allowExceeded: bool, holds: Holds) returns (ok: bool)
      requires forall i | 0 <= i < |parcels| :: Known(orderLines, parcels[i])
      modifies this
      ensures ok == (StocksKnown(Flat(parcels), allowExceeded) && (autoApproved ==> StocksHold(parcels, allowExceeded, holds)))
      ensures Snapshot() == if ok then FulfillParcels(old(Snapshot()), parcels, if autoApproved then Fulfilled else WaitingForApproval)
                            else old(Snapshot())
    {
      var saved := Books(orderLines, fulfillments, lines, nextFulfillment, nextLine);
      var status := if autoApproved then Fulfilled else WaitingForApproval;
      var rows: seq<Line> := [];
      assert parcels[0..] == parcels;
      var i := 0;
      while i < |parcels|
        invariant 0 <= i <= |parcels|
        invariant orderLines.Keys == saved.orderLines.Keys
        invariant FulfillParcels(WithNew(Snapshot(), rows), parcels[i..], status) == FulfillParcels(saved, parcels, status)
        invariant StocksKnown(Flat(parcels), allowExceeded) == StocksKnown(Flat(parcels[i..]), allowExceeded)
        invariant autoApproved ==> StocksHold(parcels, allowExceeded, holds) == StocksHold(parcels[i..], allowExceeded, holds)
      {
        ParcelTurn(parcels, i, autoApproved, allowExceeded, holds);
        assert Known(orderLines, parcels[i]);
        var done, more := CreateParcel(parcels[i], status, autoApproved, allowExceeded, holds, rows);
        if !done {
          orderLines, fulfillments, lines, nextFulfillment, nextLine :=
            saved.orderLines, saved.fulfillments, saved.lines, saved.nextFulfillment, saved.nextLine;
          return false;
        }
        rows := rows + more;
        i := i + 1;
      }
      assert parcels[i..] == [];
      var _ := BulkCreate(rows);
      ok := true;
    }

    static lemma {:induction false} ParcelTurn(parcels: seq<seq<Wanted>>, i: nat, autoApproved: bool, allowExceeded: bool, holds: Holds)
      requires i < |parcels|
      ensures parcels[i..][0] == parcels[i] && parcels[i..][1..] == parcels[i + 1..]
      ensures StocksKnown(Flat(parcels[i..]), allowExceeded) <==>
              StocksKnown(parcels[i], allowExceeded) && StocksKnown(Flat(parcels[i + 1..]), allowExceeded)
      ensures StocksHold(parcels[i..], allowExceeded, holds) <==>
              (allowExceeded || NothingTaken(parcels[i]) || holds(parcels[i])) && StocksHold(parcels[i + 1..], allowExceeded, holds)
    {
      assert parcels[i..][0] == parcels[i] && parcels[i..][1..] == parcels[i + 1..];
      StocksKnownConcat(parcels[i], Flat(parcels[i + 1..]), allowExceeded);
    }

    static lemma {:induction false} ParcelDeferred(before: Books, begun: Books, after: Books, rows: seq<Line>, ws: seq<Wanted>, target: Id, status: Status)
      requires begun == NewFulfillment(before, status, None) && target == before.nextFulfillment && Known(before.orderLines, ws)
      requires after == begun.(orderLines := Increased(before.orderLines, ws))
      ensures WithNew(after, rows + RowsOf(ws, target)) ==
              FulfillAll(NewFulfillment(WithNew(before, rows), status, None), ws, WithNew(before, rows).nextFulfillment)
      ensures after.orderLines.Keys == before.orderLines.Keys
    {
      WithNewOrder(before, rows, before.orderLines);
      WithNewFulfillments(before, rows, begun.fulfillments, begun.nextFulfillment);
      assert before.(fulfillments := begun.fulfillments, nextFulfillment := begun.nextFulfillment) == begun;
      var w := WithNew(begun, rows);
      assert w == NewFulfillment(WithNew(before, rows), status, None);
      WithNewOrder(begun, rows, begun.orderLines);
      FulfillAllInTwoPasses(w, ws, target);
      WithNewConcat(after, rows, RowsOf(ws, target));
      WithNewOrder(begun, rows, after.orderLines);
      WithNewOrder(w, RowsOf(ws, target), after.orderLines);
    }

    /** Approval; a line without stock, or a stock that holds too little, rolls it back unless exceeding the stock is allowed. */
    method ApproveFulfillment(f: Id, allowExceeded: bool, holds: bool) returns (error: Option<ActionError>)
      requires f in fulfillments
      modifies this`fulfillments
      ensures Snapshot() == Approved(old(Snapshot()), f, allowExceeded, holds)
      ensures fulfillments == if error.None? then old(fulfillments)[f := Fulfillment(Fulfilled, old(fulfillments)[f].totalRefund)] else old(fulfillments)
      ensures error.None? <==> allowExceeded ||
                               ((forall i | i in lines && lines[i].fulfillment == f :: lines[i].stock.Some?)
                                && ((exists i | i in lines :: lines[i].fulfillment == f) ==> holds))
    {
      var saved := fulfillments;
      fulfillments := fulfillments[f := fulfillments[f].(status := Fulfilled)];
      if !allowExceeded && exists i | i in lines :: lines[i].fulfillment == f && lines[i].stock.None? {
        fulfillments := saved;
        return Some(InsufficientStock);
      }
      if !allowExceeded && (exists i | i in lines :: lines[i].fulfillment == f) && !holds {
        fulfillments := saved;
        return Some(InsufficientStock);
      }
      return None;
    }

    // ---- cancelling

    /**
     The bulk update of both cancellations: every line, in the order of the query, subtracts from its own copy, and of
     several copies of one order line the first is written.
     */
    method SubtractFulfilled(f: Id, rows: seq<Id>)
      requires Lists(lines, f, rows)
      modifies this`orderLines
      ensures orderLines == LedgerBooks.Unfulfilled(old(Snapshot()), rows)
    {
      var written: map<Id, int> := map[];
      assert rows[0..] == rows;
      for i := 0 to |rows|
        invariant orderLines == old(orderLines) && Subtracted(lines, rows[i..]) + written == Subtracted(lines, rows)
      {
        assert rows[i] in rows;
        assert rows[i..][1..] == rows[i + 1..];
        var row := lines[rows[i]];
        FirstWins(Subtracted(lines, rows[i + 1..]), written, row.orderLine, row.quantity);
        if row.orderLine !in written {
          written := written[row.orderLine := row.quantity];
        }
      }
      assert rows[|rows|..] == [] && written == Subtracted(lines, rows);
      orderLines := map ol | ol in orderLines ::
        if ol in written then orderLines[ol].(fulfilled := orderLines[ol].fulfilled - written[ol]) else orderLines[ol];
    }

    static lemma {:induction false} FirstWins(rest: map<Id, int>, written: map<Id, int>, ol: Id, q: int)
      ensures rest[ol := q] + written == rest + (if ol in written then written else written[ol := q])
    {
    }

    method CancelWaitingFulfillment(f: Id, rows: seq<Id>)
      requires Lists(lines, f, rows)
      modifies this
      ensures Snapshot() == WaitingCanceled(old(Snapshot()), f, rows)
      ensures fulfillments == old(fulfillments) - {f}
      ensures forall i :: i in lines <==> i in old(lines) && old(lines)[i].fulfillment != f
      ensures forall i | i in lines :: lines[i] == old(lines)[i]
    {
      SubtractFulfilled(f, rows);
      fulfillments := fulfillments - {f};
      lines := map i | i in lines && lines[i].fulfillment != f :: lines[i];
    }

    method CancelFulfillment(f: Id, rows: seq<Id>, restock: bool)
      requires f in fulfillments && Lists(lines, f, rows)
      modifies this
      ensures Snapshot() == FulfillmentCanceled(old(Snapshot()), f, rows, restock)
      ensures fulfillments == old(fulfillments)[f := Fulfillment(Canceled, old(fulfillments)[f].totalRefund)] && lines == old(lines)
      ensures !restock ==> orderLines == old(orderLines)
    {
      if restock {
        SubtractFulfilled(f, rows);
      }
      fulfillments := fulfillments[f := fulfillments[f].(status := Canceled)];
    }
  }
}
