/** How many units a refund can count, and when a cancellation lets it count units a second time. */
module LedgerReopen {
  import opened Wrappers
  import opened LedgerBooks
  import opened LedgerTotals
  import opened LedgerCounts
  import opened LedgerSound
  import opened LedgerCreateCancel
  import opened LedgerRefunds
  import opened LedgerRuns

  /** Statuses whose units can be refunded and have not been. */
  const UNSETTLED := {Fulfilled, WaitingForApproval, Returned}

  /** Units of an order line that a refund can still count. */
  ghost function Refundable(b: Books, ol: Id): int
    requires ol in b.orderLines
  {
    Open(b, ol) + Count(b, ol, UNSETTLED)
  }

  lemma {:induction false} TotalApart(lines: map<Id, Line>, ol: Id, x: set<Id>, y: set<Id>, n: nat)
    requires x !! y
    ensures Total(lines, Pick(ol, None, x + y), n) == Total(lines, Pick(ol, None, x), n) + Total(lines, Pick(ol, None, y), n)
  {
    if n > 0 {
      TotalApart(lines, ol, x, y, n - 1);
    }
  }

  lemma {:induction false} LiveIsBoth(b: Books, ol: Id)
    ensures Count(b, ol, LIVE) == Count(b, ol, SETTLED) + Count(b, ol, UNSETTLED)
  {
    assert Among(b, LIVE) == Among(b, SETTLED) + Among(b, UNSETTLED);
    TotalApart(b.lines, ol, Among(b, SETTLED), Among(b, UNSETTLED), b.nextLine);
  }

  /** No checked refund counts more. */
  lemma {:induction false} CountedAtMost(b: Books, orderReqs: seq<OrderRequest>, lineReqs: seq<LineRequest>, ol: Id)
    requires Sound(b) && CleanOrder(b, orderReqs) && CleanLines(b, lineReqs) && ol in b.orderLines
    ensures Counted(b, orderReqs, lineReqs, ol) <= Refundable(b, ol)
  {
    var b' := RefundCreated(b, orderReqs, lineReqs, COMPUTED);
    CleanIsLive(b, lineReqs);
    RefundCreatedSound(b, orderReqs, lineReqs, COMPUTED);
    RefundSettles(b, orderReqs, lineReqs, COMPUTED, ol);
    SameOrderStep(b, Refund(orderReqs, lineReqs, COMPUTED));
    SettledWithin(b', ol);
    LiveIsBoth(b, ol);
    assert Slack(b', ol) == Slack(b, ol);
  }

  /** Requests for all lines below `n` that hold unsettled units of the order line. */
  ghost function AllLines(b: Books, ol: Id, n: nat): seq<LineRequest> {
    if n == 0 then []
    else if n - 1 in b.lines && b.lines[n - 1].orderLine == ol && b.lines[n - 1].fulfillment in Among(b, UNSETTLED) && b.lines[n - 1].quantity >= 0
    then [LineRequest(n - 1, b.lines[n - 1].quantity, false)] + AllLines(b, ol, n - 1)
    else AllLines(b, ol, n - 1)
  }

  lemma {:induction false} AllLinesClean(b: Books, ol: Id, n: nat)
    requires WellFormed(b)
    ensures var reqs := AllLines(b, ol, n);
            && CleanLines(b, reqs) && (forall i | 0 <= i < |reqs| :: reqs[i].line < n)
            && LinesCounted(b, reqs, ol) == Total(b.lines, Pick(ol, None, Among(b, UNSETTLED)), n)
  {
    if n > 0 {
      AllLinesClean(b, ol, n - 1);
      var rest := AllLines(b, ol, n - 1);
      if AllLines(b, ol, n) != rest {
        assert AllLines(b, ol, n)[1..] == rest;
      }
    }
  }

  /** And some checked refund counts as many. */
  lemma {:induction false} RefundableIsReached(b: Books, ol: Id) returns (orderReqs: seq<OrderRequest>, lineReqs: seq<LineRequest>)
    requires Sound(b) && ol in b.orderLines
    ensures CleanOrder(b, orderReqs) && CleanLines(b, lineReqs) && Counted(b, orderReqs, lineReqs, ol) == Refundable(b, ol)
  {
    orderReqs := [OrderRequest(ol, Open(b, ol), false)];
    lineReqs := AllLines(b, ol, b.nextLine);
    AllLinesClean(b, ol, b.nextLine);
    assert orderReqs[1..] == [];
    assert OrderAsked(orderReqs, ol) == Open(b, ol) + OrderAsked([], ol);
  }

  /** Some checked refund counts more than `n` units of the order line. */
  ghost predicate CanCountMore(b: Books, ol: Id, n: int) {
    exists orderReqs, lineReqs :: CleanOrder(b, orderReqs) && CleanLines(b, lineReqs) && Counted(b, orderReqs, lineReqs, ol) > n
  }

  lemma {:induction false} CanCountExactly(b: Books, ol: Id, n: int)
    requires Sound(b) && ol in b.orderLines
    ensures CanCountMore(b, ol, n) <==> Refundable(b, ol) > n
  {
    var orderReqs, lineReqs := RefundableIsReached(b, ol);
    if CanCountMore(b, ol, n) {
      var o, l :| CleanOrder(b, o) && CleanLines(b, l) && Counted(b, o, l, ol) > n;
      CountedAtMost(b, o, l, ol);
    }
  }

  /** What a cancellation does to the units that a refund can count. */
  lemma {:induction false} RefundableAfterCancel(b: Books, f: Id, rows: seq<Id>, ol: Id)
    requires Sound(b) && f in Among(b, LIVE) && Lists(b.lines, f, rows) && ol in b.orderLines
    ensures var b' := FulfillmentCanceled(b, f, rows, true);
            && ol in b'.orderLines
            && Open(b', ol) == Open(b, ol) + SubtractedOf(b.lines, rows, ol)
            && Refundable(b', ol) == Refundable(b, ol) + SubtractedOf(b.lines, rows, ol)
                                     - (if f in Among(b, SETTLED) then 0 else UnitsIn(b, Pick(ol, None, {f})))
  {
    var b' := FulfillmentCanceled(b, f, rows, true);
    FulfillmentCanceledSound(b, f, rows);
    FulfilledAfter(b, rows, ol);
    CanceledCount(b, f, rows, true, ol);
    CancelSettled(b, f, rows, ol);
    LiveIsBoth(b, ol);
    LiveIsBoth(b', ol);
  }

  /**
   When units can be refunded twice, for every ledger, every accepted cancellation and every order line: after it more
   units are open than before exactly when it subtracts any, and some checked refund counts more units than any could
   before exactly when the canceled fulfillment was settled besides. With one line of the order line, or with all
   units on the first listed one, it subtracts any exactly when the fulfillment holds any.
   */
  lemma {:induction false} CancelReopensExactly(b: Books, f: Id, rows: seq<Id>, ol: Id)
    requires Sound(b) && f in Among(b, LIVE) && Lists(b.lines, f, rows) && ol in b.orderLines
    ensures var b' := FulfillmentCanceled(b, f, rows, true);
            && ol in b'.orderLines
            && (Open(b', ol) > Open(b, ol) <==> SubtractedOf(b.lines, rows, ol) > 0)
            && (CanCountMore(b', ol, Refundable(b, ol)) <==> f in Among(b, SETTLED) && SubtractedOf(b.lines, rows, ol) > 0)
    ensures OneLine(b.lines, f, ol) ==> AllOnFirst(b.lines, rows, ol)
    ensures AllOnFirst(b.lines, rows, ol) ==> SubtractedOf(b.lines, rows, ol) == UnitsIn(b, Pick(ol, None, {f}))
  {
    var b' := FulfillmentCanceled(b, f, rows, true);
    FulfillmentCanceledSound(b, f, rows);
    RefundableAfterCancel(b, f, rows, ol);
    CanCountExactly(b', ol, Refundable(b, ol));
    StrandedExactly(b, f, rows, ol);
    if OneLine(b.lines, f, ol) {
      OneLineOnFirst(b.lines, f, rows, ol);
    }
  }

  /** Every action leaves room for exactly as many units fewer as it settles or strands, and for those it reopens. */
  lemma {:induction false} RefundableAfterStep(b: Books, op: Op, ol: Id)
    requires Sound(b) && Checked(b, op) && ol in b.orderLines
    ensures var b' := Apply(b, op);
            && ol in b'.orderLines
            && Refundable(b', ol) == Refundable(b, ol) + ReopenedBy(b, op, ol)
                                     - CountedBy(b, op, ol) - UncountedBy(b, op, ol) - StrandedBy(b, op, ol)
  {
    var b' := Apply(b, op);
    CheckedIsAllowed(b, op);
    StepSound(b, op);
    StepSettles(b, op, ol);
    SameOrderStep(b, op);
    LiveIsBoth(b, ol);
    LiveIsBoth(b', ol);
  }
}
