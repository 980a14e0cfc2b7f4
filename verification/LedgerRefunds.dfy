/** Units counted into automatic refunds, and the units that actually end in settled fulfillments. */
module LedgerRefunds {
  import opened Wrappers
  import opened LedgerBooks
  import opened LedgerTotals
  import opened LedgerCounts
  import opened LedgerSound

  /** Units of an order line whose price the computed refund includes. */
  function LinesCounted(b: Books, reqs: seq<LineRequest>, ol: Id): nat {
    if reqs == [] then 0
    else
      (if reqs[0].line in b.lines && b.lines[reqs[0].line].orderLine == ol && !FromRefunded(b, reqs[0]) then reqs[0].quantity else 0)
      + LinesCounted(b, reqs[1..], ol)
  }

  function Counted(b: Books, orderReqs: seq<OrderRequest>, lineReqs: seq<LineRequest>, ol: Id): nat {
    OrderAsked(orderReqs, ol) + LinesCounted(b, lineReqs, ol)
  }

  lemma {:induction false} CleanIsLive(b: Books, reqs: seq<LineRequest>)
    requires WellFormed(b) && CleanLines(b, reqs)
    ensures LiveRequests(b, reqs)
  {
  }

  /** Into a settled fulfillment flow exactly the counted units: lines refunded before are settled already. */
  lemma {:induction false} SettledFlow(b: Books, reqs: seq<LineRequest>, ol: Id)
    requires CleanLines(b, reqs)
    ensures LineFlow(b, reqs, ol, true, Among(b, SETTLED)) == LinesCounted(b, reqs, ol)
  {
    if reqs != [] {
      assert reqs[0].line in b.lines;
      CleanTail(b, reqs);
      SettledFlow(b, reqs[1..], ol);
    }
  }

  lemma {:induction false} CleanTail(b: Books, reqs: seq<LineRequest>)
    requires reqs != [] && CleanLines(b, reqs)
    ensures CleanLines(b, reqs[1..])
  {
    assert forall i | 0 <= i < |reqs[1..]| :: reqs[1..][i] == reqs[i + 1];
  }

  /** Rows, and the status of their fulfillments, are as before for every requested line. */
  ghost predicate SameRows(b: Books, b': Books, reqs: seq<LineRequest>) {
    forall i | 0 <= i < |reqs| ::
      && reqs[i].line in b.lines && reqs[i].line in b'.lines && b'.lines[reqs[i].line] == b.lines[reqs[i].line]
      && b.lines[reqs[i].line].fulfillment in b.fulfillments && b.lines[reqs[i].line].fulfillment in b'.fulfillments
      && b'.fulfillments[b.lines[reqs[i].line].fulfillment] == b.fulfillments[b.lines[reqs[i].line].fulfillment]
  }

  lemma {:induction false} CountedSame(b: Books, b': Books, reqs: seq<LineRequest>, ol: Id)
    requires SameRows(b, b', reqs)
    ensures LinesCounted(b', reqs, ol) == LinesCounted(b, reqs, ol)
    ensures CleanLines(b, reqs) ==> CleanLines(b', reqs)
  {
    if reqs != [] {
      assert reqs[0].line in b.lines;
      assert forall i | 0 <= i < |reqs[1..]| :: reqs[1..][i] == reqs[i + 1];
      CountedSame(b, b', reqs[1..], ol);
    }
  }

  /** The opened target of a taking, for checked requests. */
  lemma {:induction false} OpenedClean(b: Books, st: Status, amount: Option<nat>, orderReqs: seq<OrderRequest>, lineReqs: seq<LineRequest>, ol: Id, sts: set<Status>)
    requires Sound(b) && st in LIVE && !IsOpen(st) && CleanOrder(b, orderReqs) && CleanLines(b, lineReqs) && ol in b.orderLines
    ensures var b1 := Opened(b, st, amount, orderReqs);
            && ol in b1.orderLines && SameRows(b, b1, lineReqs) && CleanLines(b1, lineReqs)
            && Count(b1, ol, sts) == Count(b, ol, sts) + (if st in sts then OrderAsked(orderReqs, ol) else 0)
            && b1.orderLines[ol].fulfilled == b.orderLines[ol].fulfilled + OrderAsked(orderReqs, ol)
  {
    var b0 := NewFulfillment(b, st, amount);
    CleanIsLive(b, lineReqs);
    OpenedSound(b, st, amount, orderReqs, lineReqs);
    NewFulfillmentSound(b, st, amount);
    CountNewFulfillment(b, st, amount, ol, sts);
    AddOrderLinesCount(b0, orderReqs, b.nextFulfillment, ol, sts);
    CleanOrderTakes(b0, orderReqs, b.nextFulfillment, ol);
    assert SameRows(b, Opened(b, st, amount, orderReqs), lineReqs);
    CountedSame(b, Opened(b, st, amount, orderReqs), lineReqs, ol);
  }

  /** Taking checked requests into a settled fulfillment raises the settled units by what was asked and not settled before. */
  lemma {:induction false} TakeIntoSettles(b: Books, st: Status, amount: Option<nat>, orderReqs: seq<OrderRequest>, lineReqs: seq<LineRequest>, ol: Id)
    requires Sound(b) && st in SETTLED && CleanOrder(b, orderReqs) && CleanLines(b, lineReqs) && ol in b.orderLines
    ensures var b' := TakeInto(b, st, amount, orderReqs, lineReqs);
            Count(b', ol, SETTLED) == Count(b, ol, SETTLED) + Counted(b, orderReqs, lineReqs, ol)
  {
    var b1 := Opened(b, st, amount, orderReqs);
    CleanIsLive(b, lineReqs);
    OpenedSound(b, st, amount, orderReqs, lineReqs);
    OpenedClean(b, st, amount, orderReqs, lineReqs, ol, SETTLED);
    MoveLinesCount(b1, lineReqs, b.nextFulfillment, Ids(b.nextLine, b1.nextLine), ol, SETTLED);
    SettledFlow(b1, lineReqs, ol);
    CountedSame(b, b1, lineReqs, ol);
  }

  lemma {:induction false} RefundSettles(b: Books, orderReqs: seq<OrderRequest>, lineReqs: seq<LineRequest>, terms: RefundTerms, ol: Id)
    requires Sound(b) && CleanOrder(b, orderReqs) && CleanLines(b, lineReqs) && ol in b.orderLines
    ensures Count(RefundCreated(b, orderReqs, lineReqs, terms), ol, SETTLED) == Count(b, ol, SETTLED) + Counted(b, orderReqs, lineReqs, ol)
  {
    var total := Some(TotalRefund(b, terms, orderReqs, lineReqs));
    CleanIsLive(b, lineReqs);
    TakeIntoSettles(b, Refunded, total, orderReqs, lineReqs, ol);
    TakeIntoSound(b, Refunded, total, orderReqs, lineReqs);
    CountEmptiesDeleted(TakeInto(b, Refunded, total, orderReqs, lineReqs), ol, SETTLED);
  }

  // ---- splitting requests

  lemma {:induction false} CleanCons(b: Books, reqs: seq<LineRequest>, t: seq<LineRequest>)
    requires reqs != [] && CleanLines(b, reqs) && CleanLines(b, t) && forall r | r in t :: r in reqs[1..]
    ensures CleanLines(b, [reqs[0]] + t)
  {
    var s := [reqs[0]] + t;
    forall i | 0 <= i < |t|
      ensures t[i].line != reqs[0].line
    {
      assert t[i] in reqs[1..];
      var k :| 0 <= k < |reqs[1..]| && reqs[1..][k] == t[i];
      assert reqs[k + 1] == t[i];
    }
    assert forall i | 0 < i < |s| :: s[i] == t[i - 1];
  }

  lemma {:induction false} SplitClean(b: Books, reqs: seq<LineRequest>, refunded: bool)
    requires CleanLines(b, reqs)
    ensures CleanLines(b, SplitRefunded(b, reqs, refunded))
  {
    if reqs != [] {
      CleanTail(b, reqs);
      SplitClean(b, reqs[1..], refunded);
      SplitRefundedFrom(b, reqs[1..], refunded);
      CleanCons(b, reqs, SplitRefunded(b, reqs[1..], refunded));
    }
  }

  lemma {:induction false} SplitCounted(b: Books, reqs: seq<LineRequest>, ol: Id)
    ensures LinesCounted(b, SplitRefunded(b, reqs, false), ol) == LinesCounted(b, reqs, ol)
    ensures LinesCounted(b, SplitRefunded(b, reqs, true), ol) == 0
  {
    if reqs != [] {
      SplitCounted(b, reqs[1..], ol);
      var t := SplitRefunded(b, reqs[1..], FromRefunded(b, reqs[0]));
      assert ([reqs[0]] + t)[1..] == t;
    }
  }

  lemma {:induction false} LineSideClean(b: Books, reqs: seq<LineRequest>, replace: bool)
    requires CleanLines(b, reqs)
    ensures CleanLines(b, LineSide(reqs, replace))
  {
    if reqs != [] {
      CleanTail(b, reqs);
      LineSideClean(b, reqs[1..], replace);
      LineSideFrom(reqs[1..], replace);
      CleanCons(b, reqs, LineSide(reqs[1..], replace));
    }
  }

  lemma {:induction false} OrderSideClean(b: Books, reqs: seq<OrderRequest>, replace: bool)
    requires CleanOrder(b, reqs)
    ensures CleanOrder(b, OrderSide(reqs, replace))
  {
    if reqs != [] {
      assert forall i | 0 <= i < |reqs[1..]| :: reqs[1..][i] == reqs[i + 1];
      OrderSideClean(b, reqs[1..], replace);
      OrderSideFrom(reqs[1..], replace);
      var t := OrderSide(reqs[1..], replace);
      forall i | 0 <= i < |t|
        ensures t[i].line != reqs[0].line
      {
        assert t[i] in reqs[1..];
        var k :| 0 <= k < |reqs[1..]| && reqs[1..][k] == t[i];
        assert reqs[k + 1] == t[i];
      }
      assert reqs[0].line in b.orderLines;
    }
  }

  lemma {:induction false} OrderSideFrom(reqs: seq<OrderRequest>, replace: bool)
    ensures forall r | r in OrderSide(reqs, replace) :: r in reqs && r.replace == replace
  {
    if reqs != [] {
      OrderSideFrom(reqs[1..], replace);
    }
  }

  /** A line is on one side only, so taking the replaced goods leaves the returned ones as they were. */
  lemma {:induction false} SidesApart(b: Books, orderReqs: seq<OrderRequest>, lineReqs: seq<LineRequest>)
    requires CleanOrder(b, orderReqs) && CleanLines(b, lineReqs)
    ensures forall r, q | r in LineSide(lineReqs, true) && q in LineSide(lineReqs, false) :: r.line != q.line
    ensures forall r, q | r in OrderSide(orderReqs, true) && q in OrderSide(orderReqs, false) :: r.line != q.line
  {
    LineSideFrom(lineReqs, true);
    LineSideFrom(lineReqs, false);
    OrderSideFrom(orderReqs, true);
    OrderSideFrom(orderReqs, false);
  }

  // ---- returning

  /** Rows requested second are untouched by the first move. */
  lemma {:induction false} MovedSameRows(b: Books, reqs: seq<LineRequest>, target: Id, inTarget: seq<Id>, others: seq<LineRequest>)
    requires WellFormed(b) && target in b.fulfillments && TargetRows(b, target, inTarget) && Sources(b, reqs, target)
    requires Sources(b, others, target) && CleanLines(b, others)
    requires forall r, q | r in reqs && q in others :: r.line != q.line
    ensures SameRows(b, MoveLines(b, reqs, target, inTarget), others)
  {
    MoveLinesShape(b, reqs, target, inTarget);
    var b' := MoveLines(b, reqs, target, inTarget);
    forall i | 0 <= i < |others|
      ensures others[i].line in b.lines && others[i].line in b'.lines && b'.lines[others[i].line] == b.lines[others[i].line]
    {
      assert others[i] in others;
      MoveLinesFrame(b, reqs, target, inTarget, others[i].line);
    }
  }

  lemma {:induction false} SplitApart(b: Books, reqs: seq<LineRequest>)
    requires CleanLines(b, reqs)
    ensures forall r, q | r in SplitRefunded(b, reqs, false) && q in SplitRefunded(b, reqs, true) :: r.line != q.line
  {
    SplitRefundedFrom(b, reqs, false);
    SplitRefundedFrom(b, reqs, true);
  }

  lemma {:induction false} RefundedSourcesSettled(b: Books, reqs: seq<LineRequest>, ol: Id)
    requires CleanLines(b, reqs) && forall r | r in reqs :: FromRefunded(b, r)
    ensures LineFlow(b, reqs, ol, true, Among(b, SETTLED)) == 0
  {
    assert forall i | 0 <= i < |reqs| :: reqs[i] in reqs;
    FlowWithin(b, reqs, ol, true, Among(b, SETTLED));
  }

  lemma {:induction false} OtherSourcesUnsettled(b: Books, reqs: seq<LineRequest>, ol: Id)
    requires CleanLines(b, reqs) && forall r | r in reqs :: !FromRefunded(b, r)
    ensures LineFlow(b, reqs, ol, false, Among(b, SETTLED)) == 0
  {
    assert forall i | 0 <= i < |reqs| :: reqs[i] in reqs;
    FlowWithin(b, reqs, ol, false, Among(b, SETTLED));
  }

  /** The first batch of a return, up to the lines that were refunded before. */
  lemma {:induction false} FirstBatchSettles(b: Books, st: Status, amount: Option<nat>, orderReqs: seq<OrderRequest>, lineReqs: seq<LineRequest>, ol: Id)
    requires Sound(b) && st in {Returned, RefundedAndReturned} && CleanOrder(b, orderReqs) && CleanLines(b, lineReqs) && ol in b.orderLines
    ensures var b1 := Opened(b, st, amount, orderReqs);
            var once := SplitRefunded(b1, lineReqs, false);
            var b2 := MoveLines(b1, once, b.nextFulfillment, Ids(b.nextLine, b1.nextLine));
            Count(b2, ol, SETTLED) == Count(b, ol, SETTLED) + (if st in SETTLED then Counted(b, orderReqs, lineReqs, ol) else 0)
  {
    var b1 := Opened(b, st, amount, orderReqs);
    CleanIsLive(b, lineReqs);
    OpenedSound(b, st, amount, orderReqs, lineReqs);
    OpenedClean(b, st, amount, orderReqs, lineReqs, ol, SETTLED);
    var once := SplitRefunded(b1, lineReqs, false);
    SplitRefundedFrom(b1, lineReqs, false);
    SplitClean(b1, lineReqs, false);
    MoveLinesCount(b1, once, b.nextFulfillment, Ids(b.nextLine, b1.nextLine), ol, SETTLED);
    if st in SETTLED {
      SettledFlow(b1, once, ol);
      SplitCounted(b1, lineReqs, ol);
      CountedSame(b, b1, lineReqs, ol);
    } else {
      OtherSourcesUnsettled(b1, once, ol);
    }
  }

  /** The second batch comes from refunded fulfillments and stays settled. */
  lemma {:induction false} SecondBatchStays(b2: Books, again: seq<LineRequest>, target: Id, ol: Id)
    requires WellFormed(b2) && CleanLines(b2, again) && (forall r | r in again :: FromRefunded(b2, r))
    requires target in Among(b2, SETTLED) && Sources(b2, again, target)
    ensures Count(MoveLines(b2, again, target, []), ol, SETTLED) == Count(b2, ol, SETTLED)
  {
    MoveLinesCount(b2, again, target, [], ol, SETTLED);
    RefundedSourcesSettled(b2, again, ol);
  }

  /** After the first batch, the requests on refunded lines still find their rows, in refunded fulfillments. */
  lemma {:induction false} SecondBatchReady(b1: Books, lineReqs: seq<LineRequest>, target: Id, inTarget: seq<Id>)
    requires WellFormed(b1) && target in b1.fulfillments && TargetRows(b1, target, inTarget)
    requires Sources(b1, lineReqs, target) && LiveRequests(b1, lineReqs) && CleanLines(b1, lineReqs)
    ensures var again := SplitRefunded(b1, lineReqs, true);
            var b2 := MoveLines(b1, SplitRefunded(b1, lineReqs, false), target, inTarget);
            && WellFormed(b2) && b2.fulfillments == b1.fulfillments && CleanLines(b2, again) && Sources(b2, again, target)
            && LiveRequests(b2, again) && (forall r | r in again :: FromRefunded(b2, r))
  {
    var again, once := SplitRefunded(b1, lineReqs, true), SplitRefunded(b1, lineReqs, false);
    SplitRefundedFrom(b1, lineReqs, true);
    SplitRefundedFrom(b1, lineReqs, false);
    SplitClean(b1, lineReqs, true);
    SplitApart(b1, lineReqs);
    MovedSameRows(b1, once, target, inTarget, again);
    MovedKeepsRequests(b1, once, target, inTarget, again);
    MoveLinesShape(b1, once, target, inTarget);
    CountedSame(b1, MoveLines(b1, once, target, inTarget), again, 0);
  }

  lemma {:induction false} SecondBatchAnew(b2: Books, again: seq<LineRequest>, ol: Id)
    requires WellFormed(b2) && CleanLines(b2, again) && LiveRequests(b2, again) && (forall r | r in again :: FromRefunded(b2, r))
    ensures Count(MoveLines(NewFulfillment(b2, RefundedAndReturned, None), again, b2.nextFulfillment, []), ol, SETTLED) == Count(b2, ol, SETTLED)
  {
    var b3 := NewFulfillment(b2, RefundedAndReturned, None);
    SecondBatch(b2, again);
    CountNewFulfillment(b2, RefundedAndReturned, None, ol, SETTLED);
    assert SameRows(b2, b3, again);
    CountedSame(b2, b3, again, ol);
    SecondBatchStays(b3, again, b2.nextFulfillment, ol);
  }

  lemma {:induction false} ReturnSettles(b: Books, st: Status, amount: Option<nat>, orderReqs: seq<OrderRequest>, lineReqs: seq<LineRequest>, ol: Id)
    requires Sound(b) && st in {Returned, RefundedAndReturned} && CleanOrder(b, orderReqs) && CleanLines(b, lineReqs) && ol in b.orderLines
    ensures Count(ReturnMoved(b, st, amount, orderReqs, lineReqs), ol, SETTLED) ==
            Count(b, ol, SETTLED) + (if st in SETTLED then Counted(b, orderReqs, lineReqs, ol) else 0)
  {
    var target, b1 := b.nextFulfillment, Opened(b, st, amount, orderReqs);
    CleanIsLive(b, lineReqs);
    OpenedSound(b, st, amount, orderReqs, lineReqs);
    OpenedClean(b, st, amount, orderReqs, lineReqs, ol, SETTLED);
    FirstBatchSettles(b, st, amount, orderReqs, lineReqs, ol);
    var inTarget := Ids(b.nextLine, b1.nextLine);
    SecondBatchReady(b1, lineReqs, target, inTarget);
    var again := SplitRefunded(b1, lineReqs, true);
    var b2 := MoveLines(b1, SplitRefunded(b1, lineReqs, false), target, inTarget);
    if again != [] {
      if st.RefundedAndReturned? {
        SecondBatchStays(b2, again, target, ol);
      } else {
        SecondBatchAnew(b2, again, ol);
      }
    }
  }

  /** After the replaced goods have left, the requests for returned goods are as good as before. */
  lemma {:induction false} ReplaceKeepsReturns(b: Books, newOrder: seq<OrderRequest>, newLines: seq<LineRequest>, backOrder: seq<OrderRequest>, backLines: seq<LineRequest>, ol: Id)
    requires Sound(b) && CleanOrder(b, newOrder) && CleanLines(b, newLines) && CleanOrder(b, backOrder) && CleanLines(b, backLines)
    requires forall r, q | r in newLines && q in backLines :: r.line != q.line
    requires forall r, q | r in newOrder && q in backOrder :: r.line != q.line
    ensures var b1 := TakeInto(b, Replaced, None, newOrder, newLines);
            && CleanOrder(b1, backOrder) && CleanLines(b1, backLines) && LinesCounted(b1, backLines, ol) == LinesCounted(b, backLines, ol)
            && SameRows(b, b1, backLines) && b1.nextFulfillment == b.nextFulfillment + 1
  {
    CleanIsLive(b, newLines);
    CleanIsLive(b, backLines);
    OpenedSound(b, Replaced, None, newOrder, newLines);
    OpenedSound(b, Replaced, None, newOrder, backLines);
    var b0 := Opened(b, Replaced, None, newOrder);
    var target, inTarget := b.nextFulfillment, Ids(b.nextLine, b0.nextLine);
    assert SameRows(b, b0, backLines);
    CountedSame(b, b0, backLines, ol);
    MovedSameRows(b0, newLines, target, inTarget, backLines);
    var b1 := MoveLines(b0, newLines, target, inTarget);
    CountedSame(b0, b1, backLines, ol);
    MoveLinesShape(b0, newLines, target, inTarget);
    forall i | 0 <= i < |backOrder|
      ensures backOrder[i].line in b1.orderLines && backOrder[i].quantity <= Open(b1, backOrder[i].line)
    {
      assert backOrder[i] in backOrder;
      CleanOrderTakes(NewFulfillment(b, Replaced, None), newOrder, target, backOrder[i].line);
      OrderAskedAbsent(newOrder, backOrder[i].line);
    }
  }

  /** The returning part, up to the deletion of empty fulfillments. */
  lemma {:induction false} BackSettles(b1: Books, st: Status, total: Option<nat>, backOrder: seq<OrderRequest>, backLines: seq<LineRequest>, ol: Id)
    requires Sound(b1) && st in {Returned, RefundedAndReturned} && CleanOrder(b1, backOrder) && CleanLines(b1, backLines) && ol in b1.orderLines
    ensures Count(EmptiesDeleted(ReturnMoved(b1, st, total, backOrder, backLines)), ol, SETTLED) ==
            Count(b1, ol, SETTLED) + (if st in SETTLED then Counted(b1, backOrder, backLines, ol) else 0)
  {
    CleanIsLive(b1, backLines);
    ReturnMovedSound(b1, st, total, backOrder, backLines);
    ReturnSettles(b1, st, total, backOrder, backLines, ol);
    CountEmptiesDeleted(ReturnMoved(b1, st, total, backOrder, backLines), ol, SETTLED);
  }

  /** Returning and replacing settle exactly the replaced units and, with a refund, the returned ones that it counts. */
  lemma {:induction false} ReturnCreatedSettles(b: Books, orderReqs: seq<OrderRequest>, lineReqs: seq<LineRequest>, refund: Option<RefundTerms>, ol: Id)
    requires Sound(b) && CleanOrder(b, orderReqs) && CleanLines(b, lineReqs) && ol in b.orderLines
    ensures Count(ReturnCreated(b, orderReqs, lineReqs, refund), ol, SETTLED) ==
            Count(b, ol, SETTLED) + Counted(b, OrderSide(orderReqs, true), LineSide(lineReqs, true), ol)
            + (if refund.Some? then Counted(b, OrderSide(orderReqs, false), LineSide(lineReqs, false), ol) else 0)
  {
    var backOrder, backLines := OrderSide(orderReqs, false), LineSide(lineReqs, false);
    var newOrder, newLines := OrderSide(orderReqs, true), LineSide(lineReqs, true);
    OrderSideClean(b, orderReqs, false);
    OrderSideClean(b, orderReqs, true);
    LineSideClean(b, lineReqs, false);
    LineSideClean(b, lineReqs, true);
    SidesApart(b, orderReqs, lineReqs);
    CleanIsLive(b, newLines);
    CleanIsLive(b, backLines);
    var total := match refund case None => None case Some(terms) => Some(TotalRefund(b, terms, backOrder, backLines));
    var b1 := if newOrder == [] && newLines == [] then b else TakeInto(b, Replaced, None, newOrder, newLines);
    if newOrder != [] || newLines != [] {
      TakeIntoSound(b, Replaced, None, newOrder, newLines);
      TakeIntoSettles(b, Replaced, None, newOrder, newLines, ol);
      ReplaceKeepsReturns(b, newOrder, newLines, backOrder, backLines, ol);
    }
    var st := if total.None? then Returned else RefundedAndReturned;
    BackSettles(b1, st, total, backOrder, backLines, ol);
  }
}
