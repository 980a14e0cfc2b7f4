/** A whole return, with replacements and refunds, said of the requests as they were made. */
module LedgerReturns {
  import opened Wrappers
  import opened LedgerBooks
  import opened LedgerTotals
  import opened LedgerCounts
  import opened LedgerSound
  import opened LedgerRefunds
  import opened LedgerAmounts
  import opened LedgerEffects

  predicate Replaces(orderReqs: seq<OrderRequest>, lineReqs: seq<LineRequest>) {
    (exists k | 0 <= k < |orderReqs| :: orderReqs[k].replace) || exists k | 0 <= k < |lineReqs| :: lineReqs[k].replace
  }

  /** Units of an order line asked for with the given flag, from wherever they are. */
  function AskedWith(b: Books, orderReqs: seq<OrderRequest>, lineReqs: seq<LineRequest>, ol: Id, replace: bool): nat {
    OpenAsked(orderReqs, ol, replace) + AskedFrom(b, lineReqs, ol, replace, true) + AskedFrom(b, lineReqs, ol, replace, false)
  }

  /** Price of the goods that come back for money: not those replaced, and not those refunded before. */
  function BackOrderPrice(b: Books, reqs: seq<OrderRequest>): nat {
    if reqs == [] then 0
    else
      (if !reqs[0].replace && reqs[0].line in b.orderLines then reqs[0].quantity * b.orderLines[reqs[0].line].price else 0)
      + BackOrderPrice(b, reqs[1..])
  }

  function BackLinesPrice(b: Books, reqs: seq<LineRequest>): nat {
    if reqs == [] then 0
    else
      (if !reqs[0].replace && reqs[0].line in b.lines && !InRefunded(b, reqs[0].line) && b.lines[reqs[0].line].orderLine in b.orderLines
       then reqs[0].quantity * b.orderLines[b.lines[reqs[0].line].orderLine].price else 0)
      + BackLinesPrice(b, reqs[1..])
  }

  lemma {:induction false} BackOrderIsSide(b: Books, reqs: seq<OrderRequest>)
    ensures RefundOfOrder(b, OrderSide(reqs, false)) == BackOrderPrice(b, reqs)
  {
    if reqs != [] {
      BackOrderIsSide(b, reqs[1..]);
      var t := OrderSide(reqs[1..], false);
      assert ([reqs[0]] + t)[1..] == t;
    }
  }

  lemma {:induction false} BackLinesIsSide(b: Books, reqs: seq<LineRequest>)
    ensures RefundOfLines(b, LineSide(reqs, false)) == BackLinesPrice(b, reqs)
  {
    if reqs != [] {
      BackLinesIsSide(b, reqs[1..]);
      var t := LineSide(reqs[1..], false);
      assert ([reqs[0]] + t)[1..] == t;
    }
  }

  lemma {:induction false} NoReplacedOrder(reqs: seq<OrderRequest>)
    ensures OrderSide(reqs, true) == [] <==> forall k | 0 <= k < |reqs| :: !reqs[k].replace
  {
    if reqs != [] {
      NoReplacedOrder(reqs[1..]);
      assert forall k | 0 <= k < |reqs[1..]| :: reqs[1..][k] == reqs[k + 1];
      assert forall k | 0 < k < |reqs| :: reqs[k] == reqs[1..][k - 1];
    }
  }

  lemma {:induction false} NoReplacedLines(reqs: seq<LineRequest>)
    ensures LineSide(reqs, true) == [] <==> forall k | 0 <= k < |reqs| :: !reqs[k].replace
  {
    if reqs != [] {
      NoReplacedLines(reqs[1..]);
      assert forall k | 0 <= k < |reqs[1..]| :: reqs[1..][k] == reqs[k + 1];
      assert forall k | 0 < k < |reqs| :: reqs[k] == reqs[1..][k - 1];
    }
  }

  lemma {:induction false} OpenBoth(reqs: seq<OrderRequest>, ol: Id)
    ensures OrderAsked(reqs, ol) == OpenAsked(reqs, ol, true) + OpenAsked(reqs, ol, false)
  {
    if reqs != [] {
      OpenBoth(reqs[1..], ol);
    }
  }

  // ---- the two parts of a return

  function BackOf(b1: Books, total: Option<nat>, orderReqs: seq<OrderRequest>, lineReqs: seq<LineRequest>): Books {
    ReturnMoved(b1, if total.None? then Returned else RefundedAndReturned, total, OrderSide(orderReqs, false), LineSide(lineReqs, false))
  }

  function AfterReplacing(b: Books, orderReqs: seq<OrderRequest>, lineReqs: seq<LineRequest>): Books {
    if Replaces(orderReqs, lineReqs) then TakeInto(b, Replaced, None, OrderSide(orderReqs, true), LineSide(lineReqs, true)) else b
  }

  /** A row or order line gives what it is asked for with `replace`; the other requests are as good as before. */
  lemma {:induction false} ReplacingEffects(b: Books, orderReqs: seq<OrderRequest>, lineReqs: seq<LineRequest>, i: Id, ol: Id)
    requires Sound(b) && CleanOrder(b, orderReqs) && CleanLines(b, lineReqs) && ol in b.orderLines
    ensures var b1 := AfterReplacing(b, orderReqs, lineReqs);
            && Sound(b1) && CleanOrder(b1, OrderSide(orderReqs, false)) && CleanLines(b1, LineSide(lineReqs, false))
            && SameRows(b, b1, LineSide(lineReqs, false))
            && b1.nextFulfillment == (if Replaces(orderReqs, lineReqs) then b.nextFulfillment + 1 else b.nextFulfillment)
            && (i in b.lines ==> OnRow(b1, i) == b.lines[i].quantity - AskedOf(LineSide(lineReqs, true), i))
            && ol in b1.orderLines && b1.orderLines[ol].fulfilled == b.orderLines[ol].fulfilled + OpenAsked(orderReqs, ol, true)
            && b.nextLine <= b1.nextLine
  {
    var newOrder, newLines := OrderSide(orderReqs, true), LineSide(lineReqs, true);
    OrderSideClean(b, orderReqs, false);
    OrderSideClean(b, orderReqs, true);
    LineSideClean(b, lineReqs, false);
    LineSideClean(b, lineReqs, true);
    NoReplacedOrder(orderReqs);
    NoReplacedLines(lineReqs);
    OpenSideAsked(orderReqs, ol, true);
    if Replaces(orderReqs, lineReqs) {
      SidesApart(b, orderReqs, lineReqs);
      CleanIsLive(b, newLines);
      TakeIntoSound(b, Replaced, None, newOrder, newLines);
      ReplaceKeepsReturns(b, newOrder, newLines, OrderSide(orderReqs, false), LineSide(lineReqs, false), ol);
      TakeEffects(b, Replaced, None, newOrder, newLines, i, ol);
    }
  }

  /** The REPLACED fulfillment holds all units asked for with `replace`, from wherever they were. */
  lemma {:induction false} ReplacedHolds(b: Books, orderReqs: seq<OrderRequest>, lineReqs: seq<LineRequest>, ol: Id)
    requires Sound(b) && CleanOrder(b, orderReqs) && CleanLines(b, lineReqs) && ol in b.orderLines && Replaces(orderReqs, lineReqs)
    ensures var b1 := AfterReplacing(b, orderReqs, lineReqs);
            && b1.fulfillments == b.fulfillments[b.nextFulfillment := Fulfillment(Replaced, None)]
            && b1.nextFulfillment == b.nextFulfillment + 1
            && UnitsIn(b1, Pick(ol, None, {b.nextFulfillment})) == AskedWith(b, orderReqs, lineReqs, ol, true)
  {
    var newOrder, newLines := OrderSide(orderReqs, true), LineSide(lineReqs, true);
    OrderSideClean(b, orderReqs, true);
    LineSideClean(b, lineReqs, true);
    TakeEffects(b, Replaced, None, newOrder, newLines, 0, ol);
    TakenUnits(b, Replaced, None, newOrder, newLines, ol);
    OpenSideAsked(orderReqs, ol, true);
    AskedInAll(b, newLines, ol);
    SideAsked(b, lineReqs, ol, true, true);
    SideAsked(b, lineReqs, ol, true, false);
  }

  /** What the returned side asks for after the replaced goods left is what it asked for before. */
  lemma {:induction false} BackAsked(b: Books, b1: Books, lineReqs: seq<LineRequest>, ol: Id, refunded: bool)
    requires SameRows(b, b1, LineSide(lineReqs, false))
    ensures AskedFrom(b1, LineSide(lineReqs, false), ol, false, refunded) == AskedFrom(b, lineReqs, ol, false, refunded)
    ensures AskedFrom(b1, LineSide(lineReqs, false), ol, true, refunded) == 0
  {
    AskedFromSame(b, b1, LineSide(lineReqs, false), ol, false, refunded);
    AskedFromSame(b, b1, LineSide(lineReqs, false), ol, true, refunded);
    SideAsked(b, lineReqs, ol, false, refunded);
  }

  /** The fulfillments of returned goods and what they hold. */
  ghost predicate ReturnHolds(b': Books, f: Id, total: Option<nat>, open: nat, unrefunded: nat, refunded: nat, ol: Id) {
    && f in b'.fulfillments
    && b'.fulfillments[f] == Fulfillment(if total.None? then Returned else RefundedAndReturned, total)
    && UnitsIn(b', Pick(ol, None, {f})) == open + unrefunded + (if total.Some? then refunded else 0)
    && (total.None? && refunded > 0 ==>
          f + 1 in b'.fulfillments && b'.fulfillments[f + 1] == Fulfillment(RefundedAndReturned, None)
          && UnitsIn(b', Pick(ol, None, {f + 1})) == refunded)
  }

  lemma {:induction false} BackHolds(b: Books, b1: Books, total: Option<nat>, orderReqs: seq<OrderRequest>, lineReqs: seq<LineRequest>, ol: Id)
    requires Sound(b1) && CleanOrder(b1, OrderSide(orderReqs, false)) && CleanLines(b1, LineSide(lineReqs, false)) && ol in b1.orderLines
    requires SameRows(b, b1, LineSide(lineReqs, false))
    ensures var b' := BackOf(b1, total, orderReqs, lineReqs);
            && ReturnHolds(b', b1.nextFulfillment, total, OpenAsked(orderReqs, ol, false),
                           AskedFrom(b, lineReqs, ol, false, false), AskedFrom(b, lineReqs, ol, false, true), ol)
            && ol in b'.orderLines && b'.orderLines[ol].fulfilled == b1.orderLines[ol].fulfilled + OpenAsked(orderReqs, ol, false)
  {
    ReturnEffects(b1, if total.None? then Returned else RefundedAndReturned, total, OrderSide(orderReqs, false), LineSide(lineReqs, false), ol);
    OpenSideAsked(orderReqs, ol, false);
    BackAsked(b, b1, lineReqs, ol, true);
    BackAsked(b, b1, lineReqs, ol, false);
  }

  /** A row that is gone stays gone. */
  lemma {:induction false} GoneStaysGone(b1: Books, st: Status, total: Option<nat>, orderReqs: seq<OrderRequest>, lineReqs: seq<LineRequest>, i: Id)
    requires Sound(b1) && st in {Returned, RefundedAndReturned} && LiveRequests(b1, lineReqs) && i < b1.nextLine && i !in b1.lines
    ensures i !in ReturnMoved(b1, st, total, orderReqs, lineReqs).lines
  {
    var target, b2 := b1.nextFulfillment, Opened(b1, st, total, orderReqs);
    var once, again, inTarget := SplitRefunded(b2, lineReqs, false), SplitRefunded(b2, lineReqs, true), Ids(b1.nextLine, b2.nextLine);
    OpenedSound(b1, st, total, orderReqs, lineReqs);
    SplitRefundedFrom(b2, lineReqs, true);
    SplitRefundedFrom(b2, lineReqs, false);
    RowKeysKept(b2, once, target, inTarget, i);
    MoveLinesShape(b2, once, target, inTarget);
    MovedKeepsRequests(b2, once, target, inTarget, again);
    var b3 := MoveLines(b2, once, target, inTarget);
    if again != [] {
      if st.RefundedAndReturned? {
        RowKeysKept(b3, again, target, [], i);
      } else {
        SecondBatch(b3, again);
        RowKeysKept(NewFulfillment(b3, RefundedAndReturned, None), again, b3.nextFulfillment, [], i);
      }
    }
  }

  /** Nothing that a return takes comes from the fulfillment of replaced goods. */
  lemma {:induction false} ReplacedStays(b: Books, total: Option<nat>, orderReqs: seq<OrderRequest>, lineReqs: seq<LineRequest>, ol: Id)
    requires Sound(b) && CleanOrder(b, orderReqs) && CleanLines(b, lineReqs) && ol in b.orderLines && Replaces(orderReqs, lineReqs)
    ensures var b1, f := AfterReplacing(b, orderReqs, lineReqs), b.nextFulfillment;
            var b' := BackOf(b1, total, orderReqs, lineReqs);
            && f in b'.fulfillments && b'.fulfillments[f] == Fulfillment(Replaced, None)
            && UnitsIn(b', Pick(ol, None, {f})) == UnitsIn(b1, Pick(ol, None, {f}))
  {
    var b1 := AfterReplacing(b, orderReqs, lineReqs);
    ReplacingEffects(b, orderReqs, lineReqs, 0, ol);
    ReplacedHolds(b, orderReqs, lineReqs, ol);
    BackSpares(b, b1, LineSide(lineReqs, false));
    LeftAsIs(b1, total, orderReqs, lineReqs, b.nextFulfillment, ol);
  }

  lemma {:induction false} BackSpares(b: Books, b1: Books, backLines: seq<LineRequest>)
    requires SameRows(b, b1, backLines) && WellFormed(b)
    ensures Spares(b1, backLines, b.nextFulfillment)
  {
    assert forall r | r in backLines :: exists k | 0 <= k < |backLines| :: backLines[k] == r;
  }

  lemma {:induction false} LeftAsIs(b1: Books, total: Option<nat>, orderReqs: seq<OrderRequest>, lineReqs: seq<LineRequest>, f: Id, ol: Id)
    requires Sound(b1) && CleanLines(b1, LineSide(lineReqs, false)) && Spares(b1, LineSide(lineReqs, false), f)
    requires f in b1.fulfillments && f < b1.nextFulfillment && ol in b1.orderLines
    ensures var b' := BackOf(b1, total, orderReqs, lineReqs);
            && f in b'.fulfillments && b'.fulfillments[f] == b1.fulfillments[f]
            && UnitsIn(b', Pick(ol, None, {f})) == UnitsIn(b1, Pick(ol, None, {f}))
  {
    var backLines, st := LineSide(lineReqs, false), if total.None? then Returned else RefundedAndReturned;
    CleanIsLive(b1, backLines);
    ReturnLeavesKept(b1, st, total, OrderSide(orderReqs, false), backLines, f, ol);
    ReturnKeepsFulfillments(b1, st, total, OrderSide(orderReqs, false), backLines, f);
  }

  lemma {:induction false} ReturnKeepsFulfillments(b1: Books, st: Status, total: Option<nat>, orderReqs: seq<OrderRequest>, lineReqs: seq<LineRequest>, f: Id)
    requires Sound(b1) && st in {Returned, RefundedAndReturned} && LiveRequests(b1, lineReqs) && f in b1.fulfillments && f < b1.nextFulfillment
    ensures var b' := ReturnMoved(b1, st, total, orderReqs, lineReqs); f in b'.fulfillments && b'.fulfillments[f] == b1.fulfillments[f]
  {
    var target, b2 := b1.nextFulfillment, Opened(b1, st, total, orderReqs);
    var once, again, inTarget := SplitRefunded(b2, lineReqs, false), SplitRefunded(b2, lineReqs, true), Ids(b1.nextLine, b2.nextLine);
    OpenedSound(b1, st, total, orderReqs, lineReqs);
    SplitRefundedFrom(b2, lineReqs, true);
    SplitRefundedFrom(b2, lineReqs, false);
    MoveLinesShape(b2, once, target, inTarget);
    MovedKeepsRequests(b2, once, target, inTarget, again);
    var b3 := MoveLines(b2, once, target, inTarget);
    if again != [] {
      if st.RefundedAndReturned? {
        MoveLinesShape(b3, again, target, []);
      } else {
        SecondBatch(b3, again);
        MoveLinesShape(NewFulfillment(b3, RefundedAndReturned, None), again, b3.nextFulfillment, []);
      }
    }
  }

  // ---- the whole return

  function TotalOf(b: Books, orderReqs: seq<OrderRequest>, lineReqs: seq<LineRequest>, refund: Option<RefundTerms>): Option<nat> {
    match refund case None => None case Some(terms) => Some(TotalRefund(b, terms, OrderSide(orderReqs, false), LineSide(lineReqs, false)))
  }

  lemma {:induction false} ReturnInParts(b: Books, orderReqs: seq<OrderRequest>, lineReqs: seq<LineRequest>, refund: Option<RefundTerms>)
    ensures ReturnCreated(b, orderReqs, lineReqs, refund) ==
            EmptiesDeleted(BackOf(AfterReplacing(b, orderReqs, lineReqs), TotalOf(b, orderReqs, lineReqs, refund), orderReqs, lineReqs))
  {
    NoReplacedOrder(orderReqs);
    NoReplacedLines(lineReqs);
  }

  /** The stored amount: what was given, or the price of the goods that come back for money with the shipping, within what was captured. */
  lemma {:induction false} AmountStored(b: Books, orderReqs: seq<OrderRequest>, lineReqs: seq<LineRequest>, terms: RefundTerms)
    ensures var due := match terms.amount
              case Some(a) => a
              case None => BackOrderPrice(b, orderReqs) + BackLinesPrice(b, lineReqs) + (if terms.shipping.Some? then terms.shipping.value else 0);
            TotalOf(b, orderReqs, lineReqs, Some(terms)) ==
            Some(if terms.captured.Some? && terms.captured.value < due then terms.captured.value else due)
  {
    BackOrderIsSide(b, orderReqs);
    BackLinesIsSide(b, lineReqs);
  }

  lemma {:induction false} BackTakesFromRow(b1: Books, total: Option<nat>, orderReqs: seq<OrderRequest>, lineReqs: seq<LineRequest>, i: Id)
    requires Sound(b1) && CleanOrder(b1, OrderSide(orderReqs, false)) && CleanLines(b1, LineSide(lineReqs, false)) && i < b1.nextLine
    ensures OnRow(BackOf(b1, total, orderReqs, lineReqs), i) == OnRow(b1, i) - AskedOf(LineSide(lineReqs, false), i)
  {
    var st, backOrder, backLines := if total.None? then Returned else RefundedAndReturned, OrderSide(orderReqs, false), LineSide(lineReqs, false);
    if i in b1.lines {
      ReturnEffectsOnRow(b1, st, total, backOrder, backLines, i);
    } else {
      AskedThere(backLines, b1, i);
      CleanIsLive(b1, backLines);
      GoneStaysGone(b1, st, total, backOrder, backLines, i);
    }
  }

  /** Every row of a fulfillment loses exactly what is asked of it. */
  lemma {:induction false} ReturnTakesFromRow(b: Books, orderReqs: seq<OrderRequest>, lineReqs: seq<LineRequest>, refund: Option<RefundTerms>, i: Id)
    requires Sound(b) && CleanOrder(b, orderReqs) && CleanLines(b, lineReqs) && i in b.lines
    ensures OnRow(ReturnCreated(b, orderReqs, lineReqs, refund), i) == b.lines[i].quantity - AskedOf(lineReqs, i)
  {
    ReturnInParts(b, orderReqs, lineReqs, refund);
    ReplacingEffects(b, orderReqs, lineReqs, i, b.lines[i].orderLine);
    SideAskedOf(lineReqs, i);
    BackTakesFromRow(AfterReplacing(b, orderReqs, lineReqs), TotalOf(b, orderReqs, lineReqs, refund), orderReqs, lineReqs, i);
  }

  /** Every order line becomes fulfilled by exactly what is asked of it. */
  lemma {:induction false} ReturnFulfills(b: Books, orderReqs: seq<OrderRequest>, lineReqs: seq<LineRequest>, refund: Option<RefundTerms>, ol: Id)
    requires Sound(b) && CleanOrder(b, orderReqs) && CleanLines(b, lineReqs) && ol in b.orderLines
    ensures var b' := ReturnCreated(b, orderReqs, lineReqs, refund);
            ol in b'.orderLines && b'.orderLines[ol].fulfilled == b.orderLines[ol].fulfilled + OrderAsked(orderReqs, ol)
  {
    ReturnInParts(b, orderReqs, lineReqs, refund);
    ReplacingEffects(b, orderReqs, lineReqs, 0, ol);
    BackHolds(b, AfterReplacing(b, orderReqs, lineReqs), TotalOf(b, orderReqs, lineReqs, refund), orderReqs, lineReqs, ol);
    OpenBoth(orderReqs, ol);
  }

  lemma {:induction false} DeletionKeepsHolds(b: Books, f: Id, total: Option<nat>, open: nat, unrefunded: nat, refunded: nat, ol: Id)
    requires ReturnHolds(b, f, total, open, unrefunded, refunded, ol)
    ensures ReturnHolds(EmptiesDeleted(b), f, total, open, unrefunded, refunded, ol)
  {
    SettledNotDeleted(b, f, ol);
    SettledNotDeleted(b, f + 1, ol);
  }

  lemma {:induction false} SettledNotDeleted(b: Books, f: Id, ol: Id)
    ensures UnitsIn(EmptiesDeleted(b), Pick(ol, None, {f})) == UnitsIn(b, Pick(ol, None, {f}))
    ensures f in b.fulfillments && !IsOpen(b.fulfillments[f].status) ==>
              f in EmptiesDeleted(b).fulfillments && EmptiesDeleted(b).fulfillments[f] == b.fulfillments[f]
  {
  }

  /** With a replacement, a REPLACED fulfillment holds exactly what was asked for with `replace`. */
  lemma {:induction false} ReplacedFills(b: Books, orderReqs: seq<OrderRequest>, lineReqs: seq<LineRequest>, refund: Option<RefundTerms>, ol: Id)
    requires Sound(b) && CleanOrder(b, orderReqs) && CleanLines(b, lineReqs) && ol in b.orderLines && Replaces(orderReqs, lineReqs)
    ensures var b', f := ReturnCreated(b, orderReqs, lineReqs, refund), b.nextFulfillment;
            && f in b'.fulfillments && b'.fulfillments[f] == Fulfillment(Replaced, None)
            && UnitsIn(b', Pick(ol, None, {f})) == AskedWith(b, orderReqs, lineReqs, ol, true)
  {
    var total := TotalOf(b, orderReqs, lineReqs, refund);
    ReturnInParts(b, orderReqs, lineReqs, refund);
    ReplacedHolds(b, orderReqs, lineReqs, ol);
    ReplacedStays(b, total, orderReqs, lineReqs, ol);
    SettledNotDeleted(BackOf(AfterReplacing(b, orderReqs, lineReqs), total, orderReqs, lineReqs), b.nextFulfillment, ol);
  }

  /**
   What is not replaced is in the next fulfillment, with the amount stored for a refund; without a refund, units that
   were refunded before are apart from it.
   */
  lemma {:induction false} ReturnedFills(b: Books, orderReqs: seq<OrderRequest>, lineReqs: seq<LineRequest>, refund: Option<RefundTerms>, ol: Id)
    requires Sound(b) && CleanOrder(b, orderReqs) && CleanLines(b, lineReqs) && ol in b.orderLines
    ensures ReturnHolds(ReturnCreated(b, orderReqs, lineReqs, refund),
                        if Replaces(orderReqs, lineReqs) then b.nextFulfillment + 1 else b.nextFulfillment,
                        TotalOf(b, orderReqs, lineReqs, refund),
                        OpenAsked(orderReqs, ol, false), AskedFrom(b, lineReqs, ol, false, false), AskedFrom(b, lineReqs, ol, false, true), ol)
  {
    var b1, total := AfterReplacing(b, orderReqs, lineReqs), TotalOf(b, orderReqs, lineReqs, refund);
    ReturnInParts(b, orderReqs, lineReqs, refund);
    ReplacingEffects(b, orderReqs, lineReqs, 0, ol);
    BackHolds(b, b1, total, orderReqs, lineReqs, ol);
    DeletionKeepsHolds(BackOf(b1, total, orderReqs, lineReqs), b1.nextFulfillment, total,
                       OpenAsked(orderReqs, ol, false), AskedFrom(b, lineReqs, ol, false, false), AskedFrom(b, lineReqs, ol, false, true), ol);
  }

  /**
   From `b` to `b'` every row lost exactly what was asked of it and every order line is fulfilled by what was asked of
   it. With a replacement, a REPLACED fulfillment holds what was asked for with `replace`; the next one holds the rest.
   */
  ghost predicate ReturnDone(b: Books, b': Books, orderReqs: seq<OrderRequest>, lineReqs: seq<LineRequest>, total: Option<nat>) {
    && (forall i | i in b.lines :: OnRow(b', i) == b.lines[i].quantity - AskedOf(lineReqs, i))
    && (forall ol | ol in b.orderLines ::
          && ol in b'.orderLines && b'.orderLines[ol].fulfilled == b.orderLines[ol].fulfilled + OrderAsked(orderReqs, ol))
    && (forall ol | ol in b.orderLines && Replaces(orderReqs, lineReqs) ::
          && b.nextFulfillment in b'.fulfillments && b'.fulfillments[b.nextFulfillment] == Fulfillment(Replaced, None)
          && UnitsIn(b', Pick(ol, None, {b.nextFulfillment})) == AskedWith(b, orderReqs, lineReqs, ol, true))
    && (forall ol | ol in b.orderLines ::
          ReturnHolds(b', if Replaces(orderReqs, lineReqs) then b.nextFulfillment + 1 else b.nextFulfillment, total,
                      OpenAsked(orderReqs, ol, false), AskedFrom(b, lineReqs, ol, false, false), AskedFrom(b, lineReqs, ol, false, true), ol))
  }

  lemma {:induction false} WholeReturn(b: Books, orderReqs: seq<OrderRequest>, lineReqs: seq<LineRequest>, refund: Option<RefundTerms>)
    requires Sound(b) && CleanOrder(b, orderReqs) && CleanLines(b, lineReqs)
    ensures ReturnDone(b, ReturnCreated(b, orderReqs, lineReqs, refund), orderReqs, lineReqs, TotalOf(b, orderReqs, lineReqs, refund))
  {
    var b', f, total := ReturnCreated(b, orderReqs, lineReqs, refund), b.nextFulfillment, TotalOf(b, orderReqs, lineReqs, refund);
    forall i | i in b.lines
      ensures OnRow(b', i) == b.lines[i].quantity - AskedOf(lineReqs, i)
    {
      ReturnTakesFromRow(b, orderReqs, lineReqs, refund, i);
    }
    forall ol | ol in b.orderLines
      ensures ol in b'.orderLines && b'.orderLines[ol].fulfilled == b.orderLines[ol].fulfilled + OrderAsked(orderReqs, ol)
    {
      ReturnFulfills(b, orderReqs, lineReqs, refund, ol);
    }
    forall ol | ol in b.orderLines && Replaces(orderReqs, lineReqs)
      ensures f in b'.fulfillments && b'.fulfillments[f] == Fulfillment(Replaced, None)
              && UnitsIn(b', Pick(ol, None, {f})) == AskedWith(b, orderReqs, lineReqs, ol, true)
    {
      ReplacedFills(b, orderReqs, lineReqs, refund, ol);
    }
    forall ol | ol in b.orderLines
      ensures ReturnHolds(b', if Replaces(orderReqs, lineReqs) then f + 1 else f, total,
                          OpenAsked(orderReqs, ol, false), AskedFrom(b, lineReqs, ol, false, false), AskedFrom(b, lineReqs, ol, false, true), ol)
    {
      ReturnedFills(b, orderReqs, lineReqs, refund, ol);
    }
  }

  /** The draft order has, per original line, exactly the units asked for with `replace`. */
  ghost predicate DraftDone(b: Books, draft: map<Id, nat>, orderReqs: seq<OrderRequest>, lineReqs: seq<LineRequest>) {
    forall ol | ol in b.orderLines :: Entry(draft, ol) == AskedWith(b, orderReqs, lineReqs, ol, true)
  }

  lemma {:induction false} WholeDraft(b: Books, orderReqs: seq<OrderRequest>, lineReqs: seq<LineRequest>)
    requires Sound(b) && CleanOrder(b, orderReqs) && CleanLines(b, lineReqs) && Replaces(orderReqs, lineReqs)
    ensures DraftDone(b, DraftMap(b, OrderSide(orderReqs, true), LineSide(lineReqs, true)), orderReqs, lineReqs)
  {
    forall ol | ol in b.orderLines
      ensures Entry(DraftMap(b, OrderSide(orderReqs, true), LineSide(lineReqs, true)), ol) == AskedWith(b, orderReqs, lineReqs, ol, true)
    {
      NoReplacedOrder(orderReqs);
      NoReplacedLines(lineReqs);
      DraftMatchesReturn(b, orderReqs, lineReqs, None, ol);
      ReplacedFills(b, orderReqs, lineReqs, None, ol);
    }
  }

  /** All that is known of a return before it runs. */
  lemma {:induction false} ReturnOutcome(b: Books, orderReqs: seq<OrderRequest>, lineReqs: seq<LineRequest>, refund: Option<RefundTerms>)
    requires Sound(b) && LiveRequests(b, lineReqs)
    ensures ReturnCreated(b, orderReqs, lineReqs, refund) ==
            EmptiesDeleted(BackOf(AfterReplacing(b, orderReqs, lineReqs), TotalOf(b, orderReqs, lineReqs, refund), orderReqs, lineReqs))
    ensures Sound(ReturnCreated(b, orderReqs, lineReqs, refund))
    ensures CleanOrder(b, orderReqs) && CleanLines(b, lineReqs) ==>
              && ReturnDone(b, ReturnCreated(b, orderReqs, lineReqs, refund), orderReqs, lineReqs, TotalOf(b, orderReqs, lineReqs, refund))
              && (Replaces(orderReqs, lineReqs) ==>
                    DraftDone(b, DraftMap(b, OrderSide(orderReqs, true), LineSide(lineReqs, true)), orderReqs, lineReqs))
  {
    ReturnInParts(b, orderReqs, lineReqs, refund);
    ReturnCreatedSound(b, orderReqs, lineReqs, refund);
    if CleanOrder(b, orderReqs) && CleanLines(b, lineReqs) {
      WholeReturn(b, orderReqs, lineReqs, refund);
      if Replaces(orderReqs, lineReqs) {
        WholeDraft(b, orderReqs, lineReqs);
      }
    }
  }
}
