/** Every action of the ledger keeps its bounds, and all but the cancellations keep its balance. */
module LedgerSound {
  import opened Wrappers
  import opened LedgerBooks
  import opened LedgerTotals
  import opened LedgerCounts

  /** Units that an order line counts as fulfilled although no live fulfillment line holds them. */
  ghost function Slack(b: Books, ol: Id): int
    requires ol in b.orderLines
  {
    b.orderLines[ol].fulfilled - Count(b, ol, LIVE)
  }

  /** The fulfilled quantity of every order line is within bounds and covers its live fulfillment lines. */
  ghost predicate Sound(b: Books) {
    WellFormed(b) && WithinQuantity(b) && forall ol | ol in b.orderLines :: Slack(b, ol) >= 0
  }

  /** It is exactly the sum of its live fulfillment lines. */
  ghost predicate Balanced(b: Books) {
    Sound(b) && forall ol | ol in b.orderLines :: Slack(b, ol) == 0
  }

  ghost predicate SameSlack(b: Books, b': Books) {
    b'.orderLines.Keys == b.orderLines.Keys && forall ol | ol in b.orderLines :: Slack(b', ol) == Slack(b, ol)
  }

  lemma {:induction false} SlackKept(b: Books, b': Books)
    requires Sound(b) && WellFormed(b') && WithinQuantity(b') && SameSlack(b, b')
    ensures Sound(b')
  {
  }

  lemma {:induction false} SlackChain(b: Books, b1: Books, b2: Books)
    requires SameSlack(b, b1) && SameSlack(b1, b2)
    ensures SameSlack(b, b2)
  {
  }

  /** A ledger without fulfillments, where nothing counts as fulfilled, is balanced. */
  lemma {:induction false} FreshIsBalanced(orderLines: map<Id, OrderLine>)
    requires forall ol | ol in orderLines :: orderLines[ol].fulfilled == 0 <= orderLines[ol].quantity
    ensures Balanced(Books(orderLines, map[], map[], 0, 0))
  {
  }

  ghost predicate Settling(b: Books, target: Id) {
    && target in b.fulfillments && b.fulfillments[target].status in LIVE && !IsOpen(b.fulfillments[target].status)
  }

  /** Requests name existing ids whose lines, if still there, are not in a canceled fulfillment. */
  ghost predicate LiveRequests(b: Books, reqs: seq<LineRequest>) {
    forall r | r in reqs :: r.line < b.nextLine && (r.line in b.lines ==> b.lines[r.line].fulfillment in Among(b, LIVE))
  }

  lemma {:induction false} NewFulfillmentSound(b: Books, st: Status, amount: Option<nat>)
    requires Sound(b)
    ensures var b' := NewFulfillment(b, st, amount); Sound(b') && Extends(b, b') && SameSlack(b, b')
  {
    var b' := NewFulfillment(b, st, amount);
    assert WellFormed(b');
    forall ol | ol in b.orderLines
      ensures Slack(b', ol) == Slack(b, ol)
    {
      CountNewFulfillment(b, st, amount, ol, LIVE);
    }
  }

  lemma {:induction false} AddOrderLinesSound(b: Books, reqs: seq<OrderRequest>, target: Id)
    requires Sound(b) && Settling(b, target)
    ensures var b' := AddOrderLines(b, reqs, target); Sound(b') && RowsAdded(b, b', target) && SameSlack(b, b')
  {
    var b' := AddOrderLines(b, reqs, target);
    AddOrderLinesRows(b, reqs, target);
    forall ol | ol in b.orderLines
      ensures Slack(b', ol) == Slack(b, ol)
    {
      AddOrderLinesCount(b, reqs, target, ol, LIVE);
    }
    SlackKept(b, b');
  }

  lemma {:induction false} MoveLinesSound(b: Books, reqs: seq<LineRequest>, target: Id, inTarget: seq<Id>)
    requires Sound(b) && Settling(b, target) && TargetRows(b, target, inTarget) && Sources(b, reqs, target) && LiveRequests(b, reqs)
    ensures var b' := MoveLines(b, reqs, target, inTarget); Sound(b') && Extends(b, b') && SameSlack(b, b')
  {
    var b' := MoveLines(b, reqs, target, inTarget);
    MoveLinesShape(b, reqs, target, inTarget);
    assert Among(b', LIVE) == Among(b, LIVE);
    forall ol | ol in b.orderLines
      ensures Slack(b', ol) == Slack(b, ol)
    {
      var p := Pick(ol, None, Among(b, LIVE));
      MoveLinesUnits(b, reqs, target, inTarget, p);
      GainsWithin(b, reqs, target, inTarget, p);
    }
    SlackKept(b, b');
  }

  lemma {:induction false} EmptiesDeletedSound(b: Books)
    requires Sound(b)
    ensures Sound(EmptiesDeleted(b)) && SameSlack(b, EmptiesDeleted(b))
  {
    var b' := EmptiesDeleted(b);
    CountEmptiesDeleted(b, 0, LIVE);
    forall ol | ol in b.orderLines
      ensures Slack(b', ol) == Slack(b, ol)
    {
      CountEmptiesDeleted(b, ol, LIVE);
    }
    SlackKept(b, b');
  }

  /** Rows of a fulfillment that did not exist yet are not there, so no request can name one. */
  lemma {:induction false} FreshTarget(b: Books, b1: Books, reqs: seq<LineRequest>, target: Id)
    requires WellFormed(b) && target == b.nextFulfillment && RowsAdded(NewFulfillment(b, Refunded, None).(fulfillments := b1.fulfillments), b1, target)
    requires forall r | r in reqs :: r.line < b.nextLine
    ensures Sources(b1, reqs, target) && TargetRows(b1, target, Ids(b.nextLine, b1.nextLine))
  {
    forall r | r in reqs
      ensures r.line < b1.nextLine && (r.line in b1.lines ==> b1.lines[r.line].fulfillment != target)
    {
      if r.line in b1.lines {
        assert r.line in b.lines;
      }
    }
  }

  lemma {:induction false} RequestsKept(b: Books, b1: Books, reqs: seq<LineRequest>)
    requires LiveRequests(b, reqs) && b.nextLine <= b1.nextLine
    requires forall f | f in b.fulfillments :: f in b1.fulfillments && b1.fulfillments[f] == b.fulfillments[f]
    requires forall i | i in b1.lines && i < b.nextLine :: i in b.lines && b1.lines[i].fulfillment == b.lines[i].fulfillment
    ensures LiveRequests(b1, reqs)
  {
  }

  /** The target is opened and filled from order lines: the state both halves of a taking share. */
  function Opened(b: Books, st: Status, amount: Option<nat>, orderReqs: seq<OrderRequest>): Books {
    AddOrderLines(NewFulfillment(b, st, amount), orderReqs, b.nextFulfillment)
  }

  lemma {:induction false} OpenedSound(b: Books, st: Status, amount: Option<nat>, orderReqs: seq<OrderRequest>, lineReqs: seq<LineRequest>)
    requires Sound(b) && st in LIVE && !IsOpen(st) && LiveRequests(b, lineReqs)
    ensures var b1 := Opened(b, st, amount, orderReqs);
            && Sound(b1) && Extends(b, b1) && SameSlack(b, b1) && Settling(b1, b.nextFulfillment) && LiveRequests(b1, lineReqs)
            && Sources(b1, lineReqs, b.nextFulfillment) && TargetRows(b1, b.nextFulfillment, Ids(b.nextLine, b1.nextLine))
            && b1.fulfillments == NewFulfillment(b, st, amount).fulfillments && b1.nextFulfillment == b.nextFulfillment + 1
            && (forall i | i in b.lines :: i in b1.lines && b1.lines[i] == b.lines[i])
            && (forall i | i in b1.lines && i !in b.lines :: b1.lines[i].fulfillment == b.nextFulfillment && b.nextLine <= i)
  {
    var b0 := NewFulfillment(b, st, amount);
    var b1 := Opened(b, st, amount, orderReqs);
    NewFulfillmentSound(b, st, amount);
    AddOrderLinesSound(b0, orderReqs, b.nextFulfillment);
    SlackChain(b, b0, b1);
    FreshTarget(b, b1, lineReqs, b.nextFulfillment);
    RequestsKept(b, b1, lineReqs);
  }

  lemma {:induction false} TakeIntoSound(b: Books, st: Status, amount: Option<nat>, orderReqs: seq<OrderRequest>, lineReqs: seq<LineRequest>)
    requires Sound(b) && st in LIVE && !IsOpen(st) && LiveRequests(b, lineReqs)
    ensures var b' := TakeInto(b, st, amount, orderReqs, lineReqs); Sound(b') && Extends(b, b') && SameSlack(b, b')
  {
    OpenedSound(b, st, amount, orderReqs, lineReqs);
    var b1 := Opened(b, st, amount, orderReqs);
    MoveLinesSound(b1, lineReqs, b.nextFulfillment, Ids(b.nextLine, b1.nextLine));
    SlackChain(b, b1, TakeInto(b, st, amount, orderReqs, lineReqs));
  }

  lemma {:induction false} TakeIntoKeepsRequests(b: Books, st: Status, amount: Option<nat>, orderReqs: seq<OrderRequest>, lineReqs: seq<LineRequest>, others: seq<LineRequest>)
    requires Sound(b) && st in LIVE && !IsOpen(st) && LiveRequests(b, lineReqs) && LiveRequests(b, others)
    ensures LiveRequests(TakeInto(b, st, amount, orderReqs, lineReqs), others)
  {
    OpenedSound(b, st, amount, orderReqs, lineReqs);
    var b1 := Opened(b, st, amount, orderReqs);
    OpenedSound(b, st, amount, orderReqs, others);
    MovedKeepsRequests(b1, lineReqs, b.nextFulfillment, Ids(b.nextLine, b1.nextLine), others);
  }

  lemma {:induction false} MovedKeepsRequests(b: Books, reqs: seq<LineRequest>, target: Id, inTarget: seq<Id>, others: seq<LineRequest>)
    requires WellFormed(b) && target in b.fulfillments && TargetRows(b, target, inTarget) && Sources(b, reqs, target)
    requires LiveRequests(b, others) && Sources(b, others, target)
    ensures var b' := MoveLines(b, reqs, target, inTarget); LiveRequests(b', others) && Sources(b', others, target)
    decreases |reqs|
  {
    if reqs != [] {
      SourcesKept(b, reqs, target, inTarget);
      MoveLineShape(b, reqs[0], target, inTarget);
      var b1 := MoveLine(b, reqs[0], target, inTarget);
      forall r | r in others
        ensures r.line in b1.lines ==> r.line in b.lines && b1.lines[r.line].fulfillment == b.lines[r.line].fulfillment
      {
        MoveLineRowKeys(b, reqs[0], target, inTarget, r.line);
      }
      MovedKeepsRequests(b1, reqs[1..], target, inTarget, others);
    }
  }

  lemma {:induction false} SplitRefundedFrom(b: Books, reqs: seq<LineRequest>, refunded: bool)
    ensures forall r | r in SplitRefunded(b, reqs, refunded) :: r in reqs && FromRefunded(b, r) == refunded
  {
    if reqs != [] {
      SplitRefundedFrom(b, reqs[1..], refunded);
    }
  }

  lemma {:induction false} LineSideFrom(reqs: seq<LineRequest>, replace: bool)
    ensures forall r | r in LineSide(reqs, replace) :: r in reqs && r.replace == replace
  {
    if reqs != [] {
      LineSideFrom(reqs[1..], replace);
    }
  }

  /** Neither the first target nor a later one holds rows that the second batch of returned lines names. */
  lemma {:induction false} SecondBatch(b2: Books, again: seq<LineRequest>)
    requires WellFormed(b2) && LiveRequests(b2, again)
    ensures var b3 := NewFulfillment(b2, RefundedAndReturned, None);
            Sources(b3, again, b2.nextFulfillment) && LiveRequests(b3, again)
  {
  }

  lemma {:induction false} SecondBatchSound(b2: Books, again: seq<LineRequest>)
    requires Sound(b2) && LiveRequests(b2, again)
    ensures var b' := MoveLines(NewFulfillment(b2, RefundedAndReturned, None), again, b2.nextFulfillment, []);
            Sound(b') && Extends(b2, b') && SameSlack(b2, b')
  {
    var b3 := NewFulfillment(b2, RefundedAndReturned, None);
    SecondBatch(b2, again);
    NewFulfillmentSound(b2, RefundedAndReturned, None);
    MoveLinesSound(b3, again, b2.nextFulfillment, []);
    SlackChain(b2, b3, MoveLines(b3, again, b2.nextFulfillment, []));
  }

  lemma {:induction false} ReturnMovedSound(b: Books, st: Status, amount: Option<nat>, orderReqs: seq<OrderRequest>, lineReqs: seq<LineRequest>)
    requires Sound(b) && st in LIVE && !IsOpen(st) && LiveRequests(b, lineReqs)
    ensures var b' := ReturnMoved(b, st, amount, orderReqs, lineReqs); Sound(b') && Extends(b, b') && SameSlack(b, b')
  {
    var target := b.nextFulfillment;
    var b1 := Opened(b, st, amount, orderReqs);
    OpenedSound(b, st, amount, orderReqs, lineReqs);
    var again, once := SplitRefunded(b1, lineReqs, true), SplitRefunded(b1, lineReqs, false);
    SplitRefundedFrom(b1, lineReqs, true);
    SplitRefundedFrom(b1, lineReqs, false);
    var inTarget := Ids(b.nextLine, b1.nextLine);
    var b2 := MoveLines(b1, once, target, inTarget);
    MoveLinesSound(b1, once, target, inTarget);
    MovedKeepsRequests(b1, once, target, inTarget, again);
    SlackChain(b, b1, b2);
    if again != [] {
      if st.RefundedAndReturned? {
        MoveLinesSound(b2, again, target, []);
        SlackChain(b, b2, MoveLines(b2, again, target, []));
      } else {
        SecondBatchSound(b2, again);
        SlackChain(b, b2, MoveLines(NewFulfillment(b2, RefundedAndReturned, None), again, b2.nextFulfillment, []));
      }
    }
  }

  lemma {:induction false} RefundCreatedSound(b: Books, orderReqs: seq<OrderRequest>, lineReqs: seq<LineRequest>, terms: RefundTerms)
    requires Sound(b) && LiveRequests(b, lineReqs)
    ensures Sound(RefundCreated(b, orderReqs, lineReqs, terms)) && SameSlack(b, RefundCreated(b, orderReqs, lineReqs, terms))
  {
    var total := Some(TotalRefund(b, terms, orderReqs, lineReqs));
    TakeIntoSound(b, Refunded, total, orderReqs, lineReqs);
    var b1 := TakeInto(b, Refunded, total, orderReqs, lineReqs);
    EmptiesDeletedSound(b1);
    SlackChain(b, b1, EmptiesDeleted(b1));
  }

  lemma {:induction false} ReturnCreatedSound(b: Books, orderReqs: seq<OrderRequest>, lineReqs: seq<LineRequest>, refund: Option<RefundTerms>)
    requires Sound(b) && LiveRequests(b, lineReqs)
    ensures Sound(ReturnCreated(b, orderReqs, lineReqs, refund)) && SameSlack(b, ReturnCreated(b, orderReqs, lineReqs, refund))
  {
    var backOrder, backLines := OrderSide(orderReqs, false), LineSide(lineReqs, false);
    var newOrder, newLines := OrderSide(orderReqs, true), LineSide(lineReqs, true);
    LineSideFrom(lineReqs, false);
    LineSideFrom(lineReqs, true);
    var total := match refund case None => None case Some(terms) => Some(TotalRefund(b, terms, backOrder, backLines));
    var b1 := if newOrder == [] && newLines == [] then b else TakeInto(b, Replaced, None, newOrder, newLines);
    if newOrder != [] || newLines != [] {
      TakeIntoSound(b, Replaced, None, newOrder, newLines);
      TakeIntoKeepsRequests(b, Replaced, None, newOrder, newLines, backLines);
    }
    var st := if total.None? then Returned else RefundedAndReturned;
    ReturnMovedSound(b1, st, total, backOrder, backLines);
    var b2 := ReturnMoved(b1, st, total, backOrder, backLines);
    EmptiesDeletedSound(b2);
    SlackChain(b, b1, b2);
    SlackChain(b, b2, EmptiesDeleted(b2));
  }
}
