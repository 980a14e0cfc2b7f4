/** What the actions of the ledger do, said of the rows and the requests themselves. */
module LedgerEffects {
  import opened Wrappers
  import opened LedgerBooks
  import opened LedgerTotals
  import opened LedgerCounts
  import opened LedgerSound
  import opened LedgerCreateCancel
  import opened LedgerRefunds
  import opened LedgerRuns
  import opened LedgerAmounts
  import opened LedgerLazy

  // ---- requests, counted by row, by order line and by what they are for

  /** Units on a row, none if it is gone. */
  function OnRow(b: Books, i: Id): int {
    if i in b.lines then b.lines[i].quantity else 0
  }

  /** Units asked of a row. */
  function AskedOf(reqs: seq<LineRequest>, i: Id): nat {
    if reqs == [] then 0 else (if reqs[0].line == i then reqs[0].quantity else 0) + AskedOf(reqs[1..], i)
  }

  predicate InRefunded(b: Books, i: Id) {
    i in b.lines && b.lines[i].fulfillment in b.fulfillments && b.fulfillments[b.lines[i].fulfillment].status == Refunded
  }

  /** Units of an order line asked for from its fulfillment lines, for replacement or not, refunded before or not. */
  function AskedFrom(b: Books, reqs: seq<LineRequest>, ol: Id, replace: bool, refunded: bool): nat {
    if reqs == [] then 0
    else
      (if reqs[0].line in b.lines && b.lines[reqs[0].line].orderLine == ol && reqs[0].replace == replace && InRefunded(b, reqs[0].line) == refunded
       then reqs[0].quantity else 0)
      + AskedFrom(b, reqs[1..], ol, replace, refunded)
  }

  /** Units of an order line asked for from its unfulfilled part, for replacement or not. */
  function OpenAsked(reqs: seq<OrderRequest>, ol: Id, replace: bool): nat {
    if reqs == [] then 0
    else (if reqs[0].line == ol && reqs[0].replace == replace then reqs[0].quantity else 0) + OpenAsked(reqs[1..], ol, replace)
  }

  // ---- splitting requests keeps each of them, once and in order

  lemma {:induction false} LineSidesKeepAll(reqs: seq<LineRequest>)
    ensures multiset(LineSide(reqs, true)) + multiset(LineSide(reqs, false)) == multiset(reqs)
    ensures forall replace, r | r in LineSide(reqs, replace) :: r.replace == replace
  {
    if reqs != [] {
      LineSidesKeepAll(reqs[1..]);
      assert reqs == [reqs[0]] + reqs[1..];
    }
  }

  lemma {:induction false} OrderSidesKeepAll(reqs: seq<OrderRequest>)
    ensures multiset(OrderSide(reqs, true)) + multiset(OrderSide(reqs, false)) == multiset(reqs)
    ensures forall replace, r | r in OrderSide(reqs, replace) :: r.replace == replace
  {
    if reqs != [] {
      OrderSidesKeepAll(reqs[1..]);
      assert reqs == [reqs[0]] + reqs[1..];
    }
  }

  lemma {:induction false} SideAskedOf(reqs: seq<LineRequest>, i: Id)
    ensures AskedOf(LineSide(reqs, true), i) + AskedOf(LineSide(reqs, false), i) == AskedOf(reqs, i)
  {
    if reqs != [] {
      SideAskedOf(reqs[1..], i);
      var t := LineSide(reqs[1..], reqs[0].replace);
      assert ([reqs[0]] + t)[1..] == t;
    }
  }

  lemma {:induction false} SplitAskedOf(b: Books, reqs: seq<LineRequest>, i: Id)
    ensures AskedOf(SplitRefunded(b, reqs, true), i) + AskedOf(SplitRefunded(b, reqs, false), i) == AskedOf(reqs, i)
  {
    if reqs != [] {
      SplitAskedOf(b, reqs[1..], i);
      var t := SplitRefunded(b, reqs[1..], FromRefunded(b, reqs[0]));
      assert ([reqs[0]] + t)[1..] == t;
    }
  }

  lemma {:induction false} SideAsked(b: Books, reqs: seq<LineRequest>, ol: Id, replace: bool, refunded: bool)
    ensures AskedFrom(b, LineSide(reqs, replace), ol, replace, refunded) == AskedFrom(b, reqs, ol, replace, refunded)
    ensures AskedFrom(b, LineSide(reqs, replace), ol, !replace, refunded) == 0
  {
    if reqs != [] {
      SideAsked(b, reqs[1..], ol, replace, refunded);
      var t := LineSide(reqs[1..], replace);
      assert ([reqs[0]] + t)[1..] == t;
    }
  }

  lemma {:induction false} OpenSideAsked(reqs: seq<OrderRequest>, ol: Id, replace: bool)
    ensures OrderAsked(OrderSide(reqs, replace), ol) == OpenAsked(reqs, ol, replace)
  {
    if reqs != [] {
      OpenSideAsked(reqs[1..], ol, replace);
      var t := OrderSide(reqs[1..], replace);
      assert ([reqs[0]] + t)[1..] == t;
    }
  }

  lemma {:induction false} AskedInAll(b: Books, reqs: seq<LineRequest>, ol: Id)
    ensures LinesAsked(b, reqs, ol) ==
            AskedFrom(b, reqs, ol, true, true) + AskedFrom(b, reqs, ol, true, false)
            + AskedFrom(b, reqs, ol, false, true) + AskedFrom(b, reqs, ol, false, false)
  {
    if reqs != [] {
      AskedInAll(b, reqs[1..], ol);
    }
  }

  lemma {:induction false} SplitAsked(b: Books, reqs: seq<LineRequest>, ol: Id, refunded: bool)
    ensures LinesAsked(b, SplitRefunded(b, reqs, refunded), ol) ==
            AskedFrom(b, reqs, ol, true, refunded) + AskedFrom(b, reqs, ol, false, refunded)
  {
    if reqs != [] {
      SplitAsked(b, reqs[1..], ol, refunded);
      var t := SplitRefunded(b, reqs[1..], refunded);
      assert ([reqs[0]] + t)[1..] == t;
    }
  }

  lemma {:induction false} AskedFromSame(b: Books, b': Books, reqs: seq<LineRequest>, ol: Id, replace: bool, refunded: bool)
    requires SameRows(b, b', reqs)
    ensures AskedFrom(b', reqs, ol, replace, refunded) == AskedFrom(b, reqs, ol, replace, refunded)
  {
    if reqs != [] {
      assert reqs[0].line in b.lines;
      assert forall i | 0 <= i < |reqs[1..]| :: reqs[1..][i] == reqs[i + 1];
      AskedFromSame(b, b', reqs[1..], ol, replace, refunded);
    }
  }

  lemma {:induction false} NotAsked(reqs: seq<LineRequest>, i: Id)
    requires forall k | 0 <= k < |reqs| :: reqs[k].line != i
    ensures AskedOf(reqs, i) == 0
  {
    if reqs != [] {
      assert forall k | 0 <= k < |reqs[1..]| :: reqs[1..][k] == reqs[k + 1];
      NotAsked(reqs[1..], i);
    }
  }

  // ---- moves, row by row

  /** The row that one request names loses what is asked, and is gone when nothing is left. */
  lemma {:induction false} MovedFromRow(b: Books, r: LineRequest, target: Id, inTarget: seq<Id>)
    requires WellFormed(b) && target in b.fulfillments && TargetRows(b, target, inTarget)
    requires r.line in b.lines && b.lines[r.line].fulfillment != target && r.quantity <= b.lines[r.line].quantity
    ensures OnRow(MoveLine(b, r, target, inTarget), r.line) == b.lines[r.line].quantity - r.quantity
    ensures r.line in MoveLine(b, r, target, inTarget).lines <==> r.quantity < b.lines[r.line].quantity
  {
    ReducedUnits(b, r, Pick(0, None, {}));
    ReducedMergeable(b, r, target, inTarget);
  }

  /** Over a move of checked requests, every row outside the target loses exactly what is asked of it. */
  lemma {:induction false} MovedFromEach(b: Books, reqs: seq<LineRequest>, target: Id, inTarget: seq<Id>, i: Id)
    requires WellFormed(b) && target in b.fulfillments && TargetRows(b, target, inTarget) && Sources(b, reqs, target) && CleanLines(b, reqs)
    requires i in b.lines && b.lines[i].fulfillment != target
    ensures OnRow(MoveLines(b, reqs, target, inTarget), i) == b.lines[i].quantity - AskedOf(reqs, i)
    decreases |reqs|
  {
    if reqs != [] {
      var b1 := MoveLine(b, reqs[0], target, inTarget);
      assert reqs[0] in reqs && reqs[0].line in b.lines;
      SourcesKept(b, reqs, target, inTarget);
      MoveLineShape(b, reqs[0], target, inTarget);
      CleanRest(b, reqs, target, inTarget);
      if reqs[0].line == i {
        MovedFromRow(b, reqs[0], target, inTarget);
        assert forall k | 0 <= k < |reqs[1..]| :: reqs[1..][k] == reqs[k + 1];
        NotAsked(reqs[1..], i);
        UnnamedStays(b1, reqs[1..], target, inTarget, i);
      } else {
        MovedFromEach(b1, reqs[1..], target, inTarget, i);
      }
    }
  }

  lemma {:induction false} UnnamedStays(b: Books, reqs: seq<LineRequest>, target: Id, inTarget: seq<Id>, i: Id)
    requires WellFormed(b) && target in b.fulfillments && TargetRows(b, target, inTarget) && Sources(b, reqs, target)
    requires i < b.nextLine && (i in b.lines ==> b.lines[i].fulfillment != target)
    requires forall k | 0 <= k < |reqs| :: reqs[k].line != i
    ensures OnRow(MoveLines(b, reqs, target, inTarget), i) == OnRow(b, i)
  {
    MoveLinesShape(b, reqs, target, inTarget);
    if i in b.lines {
      MoveLinesFrame(b, reqs, target, inTarget, i);
    }
  }

  // ---- merging

  /** Units asked for from rows of the given goods. */
  function GoodsAsked(b: Books, reqs: seq<LineRequest>, ol: Id, stock: Option<Id>): nat {
    if reqs == [] then 0
    else
      (if reqs[0].line in b.lines && b.lines[reqs[0].line].orderLine == ol && b.lines[reqs[0].line].stock == stock then reqs[0].quantity else 0)
      + GoodsAsked(b, reqs[1..], ol, stock)
  }

  lemma {:induction false} GoodsAskedSame(b: Books, b': Books, reqs: seq<LineRequest>, ol: Id, stock: Option<Id>)
    requires forall k | 0 <= k < |reqs| :: reqs[k].line in b.lines && reqs[k].line in b'.lines && b'.lines[reqs[k].line] == b.lines[reqs[k].line]
    ensures GoodsAsked(b', reqs, ol, stock) == GoodsAsked(b, reqs, ol, stock)
  {
    if reqs != [] {
      assert reqs[0].line in b.lines;
      assert forall k | 0 <= k < |reqs[1..]| :: reqs[1..][k] == reqs[k + 1];
      GoodsAskedSame(b, b', reqs[1..], ol, stock);
    }
  }

  lemma {:induction false} ListedKept(b: Books, r: LineRequest, target: Id, inTarget: seq<Id>, ol: Id, stock: Option<Id>)
    requires WellFormed(b) && target in b.fulfillments && TargetRows(b, target, inTarget) && Sources(b, [r], target)
    ensures FindLine(MoveLine(b, r, target, inTarget).lines, inTarget, ol, stock) == FindLine(b.lines, inTarget, ol, stock)
  {
    MoveLineShape(b, r, target, inTarget);
    var b1 := MoveLine(b, r, target, inTarget);
    forall t | t in inTarget
      ensures t in b.lines && t in b1.lines && b1.lines[t].orderLine == b.lines[t].orderLine && b1.lines[t].stock == b.lines[t].stock
    {
      MoveLineRowKeys(b, r, target, inTarget, t);
    }
    FindLineSame(b1.lines, b.lines, inTarget, ol, stock);
  }

  /** The first listed row for some goods takes all units of those goods that are asked for. */
  lemma {:induction false} MergedInto(b: Books, reqs: seq<LineRequest>, target: Id, inTarget: seq<Id>, ol: Id, stock: Option<Id>)
    requires WellFormed(b) && target in b.fulfillments && TargetRows(b, target, inTarget) && Sources(b, reqs, target) && CleanLines(b, reqs)
    requires FindLine(b.lines, inTarget, ol, stock).Some?
    ensures var t := FindLine(b.lines, inTarget, ol, stock).value;
            && t in b.lines
            && OnRow(MoveLines(b, reqs, target, inTarget), t) == b.lines[t].quantity + GoodsAsked(b, reqs, ol, stock)
    decreases |reqs|
  {
    var t := FindLine(b.lines, inTarget, ol, stock).value;
    if reqs != [] {
      var b1 := MoveLine(b, reqs[0], target, inTarget);
      assert reqs[0] in reqs && reqs[0].line in b.lines;
      SourcesKept(b, reqs, target, inTarget);
      MoveLineShape(b, reqs[0], target, inTarget);
      CleanRest(b, reqs, target, inTarget);
      ListedKept(b, reqs[0], target, inTarget, ol, stock);
      MergedOne(b, reqs[0], target, inTarget, t, ol, stock);
      MergedInto(b1, reqs[1..], target, inTarget, ol, stock);
      GoodsAskedSame(b, b1, reqs[1..], ol, stock);
    }
  }

  lemma {:induction false} MergedOne(b: Books, r: LineRequest, target: Id, inTarget: seq<Id>, t: Id, ol: Id, stock: Option<Id>)
    requires WellFormed(b) && TargetRows(b, target, inTarget) && FindLine(b.lines, inTarget, ol, stock) == Some(t)
    requires r.line in b.lines && b.lines[r.line].fulfillment != target && r.quantity <= b.lines[r.line].quantity
    ensures var b1 := MoveLine(b, r, target, inTarget);
            && t in b1.lines
            && b1.lines[t].quantity == b.lines[t].quantity
                                       + (if b.lines[r.line].orderLine == ol && b.lines[r.line].stock == stock then r.quantity else 0)
  {
  }

  /** Requests for something that no listed row takes up: each of them makes a new row. */
  function Unlisted(b: Books, reqs: seq<LineRequest>, inTarget: seq<Id>): nat {
    if reqs == [] then 0
    else
      (if reqs[0].line in b.lines && reqs[0].quantity > 0
          && FindLine(b.lines, inTarget, b.lines[reqs[0].line].orderLine, b.lines[reqs[0].line].stock).None? then 1 else 0)
      + Unlisted(b, reqs[1..], inTarget)
  }

  lemma {:induction false} UnlistedSame(b: Books, b': Books, reqs: seq<LineRequest>, inTarget: seq<Id>)
    requires forall k | 0 <= k < |reqs| :: reqs[k].line in b.lines && reqs[k].line in b'.lines && b'.lines[reqs[k].line] == b.lines[reqs[k].line]
    requires forall ol, stock :: FindLine(b'.lines, inTarget, ol, stock) == FindLine(b.lines, inTarget, ol, stock)
    ensures Unlisted(b', reqs, inTarget) == Unlisted(b, reqs, inTarget)
  {
    if reqs != [] {
      assert reqs[0].line in b.lines;
      assert forall k | 0 <= k < |reqs[1..]| :: reqs[1..][k] == reqs[k + 1];
      UnlistedSame(b, b', reqs[1..], inTarget);
    }
  }

  lemma {:induction false} RowsCreated(b: Books, reqs: seq<LineRequest>, target: Id, inTarget: seq<Id>)
    requires WellFormed(b) && target in b.fulfillments && TargetRows(b, target, inTarget) && Sources(b, reqs, target) && CleanLines(b, reqs)
    ensures MoveLines(b, reqs, target, inTarget).nextLine == b.nextLine + Unlisted(b, reqs, inTarget)
    decreases |reqs|
  {
    if reqs != [] {
      var b1 := MoveLine(b, reqs[0], target, inTarget);
      assert reqs[0] in reqs && reqs[0].line in b.lines;
      SourcesKept(b, reqs, target, inTarget);
      MoveLineShape(b, reqs[0], target, inTarget);
      CleanRest(b, reqs, target, inTarget);
      RowsCreated(b1, reqs[1..], target, inTarget);
      forall ol, stock
        ensures FindLine(b1.lines, inTarget, ol, stock) == FindLine(b.lines, inTarget, ol, stock)
      {
        ListedKept(b, reqs[0], target, inTarget, ol, stock);
      }
      UnlistedSame(b, b1, reqs[1..], inTarget);
    }
  }

  // ---- taking into a new fulfillment

  /** The new rows from order lines have no stock and hold at most what was open. */
  lemma {:induction false} TakenFromOpen(b: Books, r: OrderRequest, target: Id)
    requires r.line in b.orderLines && 0 <= Open(b, r.line)
    ensures var b' := AddOrderLine(b, r, target);
            var units := if r.quantity <= Open(b, r.line) then r.quantity else Open(b, r.line);
            && b'.orderLines == b.orderLines[r.line := b.orderLines[r.line].(fulfilled := b.orderLines[r.line].fulfilled + units)]
            && b'.lines == b.lines[b.nextLine := Line(target, r.line, None, units)]
            && b'.fulfillments == b.fulfillments && b'.nextLine == b.nextLine + 1
  {
  }

  /** A taking of checked requests: what the new fulfillment is, what every row and order line gives. */
  lemma {:induction false} TakeEffects(b: Books, st: Status, amount: Option<nat>, orderReqs: seq<OrderRequest>, lineReqs: seq<LineRequest>, i: Id, ol: Id)
    requires Sound(b) && st in LIVE && !IsOpen(st) && CleanOrder(b, orderReqs) && CleanLines(b, lineReqs) && ol in b.orderLines
    ensures var b' := TakeInto(b, st, amount, orderReqs, lineReqs);
            && b'.fulfillments == b.fulfillments[b.nextFulfillment := Fulfillment(st, amount)] && b'.nextFulfillment == b.nextFulfillment + 1
            && (i in b.lines ==> OnRow(b', i) == b.lines[i].quantity - AskedOf(lineReqs, i))
            && ol in b'.orderLines && b'.orderLines[ol].fulfilled == b.orderLines[ol].fulfilled + OrderAsked(orderReqs, ol)
  {
    var b1, target := Opened(b, st, amount, orderReqs), b.nextFulfillment;
    CleanIsLive(b, lineReqs);
    OpenedSound(b, st, amount, orderReqs, lineReqs);
    OpenedClean(b, st, amount, orderReqs, lineReqs, ol, {});
    MoveLinesShape(b1, lineReqs, target, Ids(b.nextLine, b1.nextLine));
    if i in b.lines {
      assert b1.lines[i] == b.lines[i];
      MovedFromEach(b1, lineReqs, target, Ids(b.nextLine, b1.nextLine), i);
    }
  }

  // ---- refunding

  /** A refund: one REFUNDED fulfillment with the amount stored, that takes exactly what was asked for. */
  lemma {:induction false} RefundEffects(b: Books, orderReqs: seq<OrderRequest>, lineReqs: seq<LineRequest>, terms: RefundTerms, i: Id, ol: Id)
    requires Sound(b) && CleanOrder(b, orderReqs) && CleanLines(b, lineReqs) && ol in b.orderLines
    ensures var b', f := RefundCreated(b, orderReqs, lineReqs, terms), b.nextFulfillment;
            && f in b'.fulfillments && b'.fulfillments[f] == Fulfillment(Refunded, Some(TotalRefund(b, terms, orderReqs, lineReqs)))
            && (i in b.lines ==> OnRow(b', i) == b.lines[i].quantity - AskedOf(lineReqs, i))
            && ol in b'.orderLines && b'.orderLines[ol].fulfilled == b.orderLines[ol].fulfilled + OrderAsked(orderReqs, ol)
            && UnitsIn(b', Pick(ol, None, {f})) == OrderAsked(orderReqs, ol) + LinesAsked(b, lineReqs, ol)
  {
    var total := Some(TotalRefund(b, terms, orderReqs, lineReqs));
    TakeEffects(b, Refunded, total, orderReqs, lineReqs, i, ol);
    TakenUnits(b, Refunded, total, orderReqs, lineReqs, ol);
  }

  /**
   From `b` to `b'` every row lost exactly what was asked of it and every order line is fulfilled by what was asked of
   it; the new REFUNDED fulfillment has the amount and exactly the units asked for.
   */
  ghost predicate RefundDone(b: Books, b': Books, orderReqs: seq<OrderRequest>, lineReqs: seq<LineRequest>, total: nat) {
    && (forall i | i in b.lines :: OnRow(b', i) == b.lines[i].quantity - AskedOf(lineReqs, i))
    && (forall ol | ol in b.orderLines ::
          && ol in b'.orderLines && b'.orderLines[ol].fulfilled == b.orderLines[ol].fulfilled + OrderAsked(orderReqs, ol)
          && UnitsIn(b', Pick(ol, None, {b.nextFulfillment})) == OrderAsked(orderReqs, ol) + LinesAsked(b, lineReqs, ol))
    && (b.orderLines != map[] ==>
          b.nextFulfillment in b'.fulfillments && b'.fulfillments[b.nextFulfillment] == Fulfillment(Refunded, Some(total)))
  }

  lemma {:induction false} WholeRefund(b: Books, orderReqs: seq<OrderRequest>, lineReqs: seq<LineRequest>, terms: RefundTerms)
    requires Sound(b) && CleanOrder(b, orderReqs) && CleanLines(b, lineReqs)
    ensures RefundDone(b, RefundCreated(b, orderReqs, lineReqs, terms), orderReqs, lineReqs, TotalRefund(b, terms, orderReqs, lineReqs))
  {
    forall ol | ol in b.orderLines
      ensures var b', f := RefundCreated(b, orderReqs, lineReqs, terms), b.nextFulfillment;
              && f in b'.fulfillments && b'.fulfillments[f] == Fulfillment(Refunded, Some(TotalRefund(b, terms, orderReqs, lineReqs)))
              && ol in b'.orderLines && b'.orderLines[ol].fulfilled == b.orderLines[ol].fulfilled + OrderAsked(orderReqs, ol)
              && UnitsIn(b', Pick(ol, None, {f})) == OrderAsked(orderReqs, ol) + LinesAsked(b, lineReqs, ol)
    {
      RefundEffects(b, orderReqs, lineReqs, terms, 0, ol);
    }
    forall i | i in b.lines
      ensures OnRow(RefundCreated(b, orderReqs, lineReqs, terms), i) == b.lines[i].quantity - AskedOf(lineReqs, i)
    {
      RefundEffects(b, orderReqs, lineReqs, terms, i, b.lines[i].orderLine);
    }
  }

  // ---- returning

  lemma {:induction false} OpenedUnits(b: Books, st: Status, amount: Option<nat>, orderReqs: seq<OrderRequest>, lineReqs: seq<LineRequest>, ol: Id)
    requires Sound(b) && st in LIVE && !IsOpen(st) && CleanOrder(b, orderReqs) && CleanLines(b, lineReqs) && ol in b.orderLines
    ensures UnitsIn(Opened(b, st, amount, orderReqs), Pick(ol, None, {b.nextFulfillment})) == OrderAsked(orderReqs, ol)
  {
    var f, b0 := b.nextFulfillment, NewFulfillment(b, st, amount);
    CleanIsLive(b, lineReqs);
    OpenedClean(b, st, amount, orderReqs, lineReqs, ol, {});
    NewFulfillmentSound(b, st, amount);
    NothingThere(b0.lines, ol, f, b0.nextLine);
    AddOrderLinesUnits(b0, orderReqs, f, ol, {f});
  }

  lemma {:induction false} MovedUnits(b: Books, reqs: seq<LineRequest>, target: Id, inTarget: seq<Id>, ol: Id)
    requires WellFormed(b) && target in b.fulfillments && TargetRows(b, target, inTarget) && Sources(b, reqs, target) && CleanLines(b, reqs)
    ensures UnitsIn(MoveLines(b, reqs, target, inTarget), Pick(ol, None, {target})) == UnitsIn(b, Pick(ol, None, {target})) + LinesAsked(b, reqs, ol)
  {
    MoveLinesUnits(b, reqs, target, inTarget, Pick(ol, None, {target}));
    CleanGains(b, reqs, target, inTarget, ol, {target});
    assert forall i | 0 <= i < |reqs| :: reqs[i] in reqs;
    FlowIntoNew(b, reqs, ol, target);
  }

  /** The state between the two batches of a return. */
  function FirstBatch(b: Books, st: Status, amount: Option<nat>, orderReqs: seq<OrderRequest>, lineReqs: seq<LineRequest>): Books {
    var b1 := Opened(b, st, amount, orderReqs);
    MoveLines(b1, SplitRefunded(b1, lineReqs, false), b.nextFulfillment, Ids(b.nextLine, b1.nextLine))
  }

  lemma {:induction false} FirstBatchEffects(b: Books, st: Status, amount: Option<nat>, orderReqs: seq<OrderRequest>, lineReqs: seq<LineRequest>, ol: Id)
    requires Sound(b) && st in {Returned, RefundedAndReturned} && CleanOrder(b, orderReqs) && CleanLines(b, lineReqs) && ol in b.orderLines
    ensures var b1, b2, f := Opened(b, st, amount, orderReqs), FirstBatch(b, st, amount, orderReqs, lineReqs), b.nextFulfillment;
            var again := SplitRefunded(b1, lineReqs, true);
            && WellFormed(b2) && b2.fulfillments == b.fulfillments[f := Fulfillment(st, amount)] && b2.nextFulfillment == f + 1
            && CleanLines(b2, again) && Sources(b2, again, f) && LiveRequests(b2, again) && b2.orderLines == b1.orderLines
            && UnitsIn(b2, Pick(ol, None, {f})) ==
               OrderAsked(orderReqs, ol) + AskedFrom(b, lineReqs, ol, true, false) + AskedFrom(b, lineReqs, ol, false, false)
            && LinesAsked(b2, again, ol) == AskedFrom(b, lineReqs, ol, true, true) + AskedFrom(b, lineReqs, ol, false, true)
  {
    var b1, f := Opened(b, st, amount, orderReqs), b.nextFulfillment;
    CleanIsLive(b, lineReqs);
    OpenedSound(b, st, amount, orderReqs, lineReqs);
    OpenedClean(b, st, amount, orderReqs, lineReqs, ol, {});
    OpenedUnits(b, st, amount, orderReqs, lineReqs, ol);
    var inTarget := Ids(b.nextLine, b1.nextLine);
    SecondBatchReady(b1, lineReqs, f, inTarget);
    BatchUnits(b, b1, lineReqs, f, inTarget, ol);
    OnceShape(b1, lineReqs, f, inTarget);
  }

  lemma {:induction false} OnceShape(b1: Books, lineReqs: seq<LineRequest>, f: Id, inTarget: seq<Id>)
    requires WellFormed(b1) && f in b1.fulfillments && TargetRows(b1, f, inTarget) && Sources(b1, lineReqs, f)
    ensures var b2 := MoveLines(b1, SplitRefunded(b1, lineReqs, false), f, inTarget);
            && WellFormed(b2) && b2.orderLines == b1.orderLines && b2.fulfillments == b1.fulfillments
            && b2.nextFulfillment == b1.nextFulfillment && b1.nextLine <= b2.nextLine
  {
    SplitRefundedFrom(b1, lineReqs, false);
    MoveLinesShape(b1, SplitRefunded(b1, lineReqs, false), f, inTarget);
  }

  lemma {:induction false} FirstBatchRow(b: Books, st: Status, amount: Option<nat>, orderReqs: seq<OrderRequest>, lineReqs: seq<LineRequest>, i: Id)
    requires Sound(b) && st in {Returned, RefundedAndReturned} && CleanOrder(b, orderReqs) && CleanLines(b, lineReqs) && i in b.lines
    ensures var b1, b2 := Opened(b, st, amount, orderReqs), FirstBatch(b, st, amount, orderReqs, lineReqs);
            && i < b2.nextLine && OnRow(b2, i) == b.lines[i].quantity - AskedOf(SplitRefunded(b1, lineReqs, false), i)
            && (i in b2.lines ==> b2.lines[i].fulfillment == b.lines[i].fulfillment)
  {
    var b1, f := Opened(b, st, amount, orderReqs), b.nextFulfillment;
    CleanIsLive(b, lineReqs);
    OpenedSound(b, st, amount, orderReqs, lineReqs);
    var once, inTarget := SplitRefunded(b1, lineReqs, false), Ids(b.nextLine, b1.nextLine);
    OnceShape(b1, lineReqs, f, inTarget);
    SplitRefundedFrom(b1, lineReqs, false);
    assert SameRows(b, b1, lineReqs);
    CountedSame(b, b1, lineReqs, 0);
    SplitClean(b1, lineReqs, false);
    assert b1.lines[i] == b.lines[i];
    MovedFromEach(b1, once, f, inTarget, i);
    RowKeysKept(b1, once, f, inTarget, i);
  }

  lemma {:induction false} RowKeysKept(b: Books, reqs: seq<LineRequest>, target: Id, inTarget: seq<Id>, i: Id)
    requires WellFormed(b) && target in b.fulfillments && TargetRows(b, target, inTarget) && Sources(b, reqs, target) && i < b.nextLine
    ensures var b' := MoveLines(b, reqs, target, inTarget);
            b.nextLine <= b'.nextLine && (i in b'.lines ==> i in b.lines && b'.lines[i].fulfillment == b.lines[i].fulfillment)
    decreases |reqs|
  {
    if reqs != [] {
      SourcesKept(b, reqs, target, inTarget);
      MoveLineShape(b, reqs[0], target, inTarget);
      MoveLineRowKeys(b, reqs[0], target, inTarget, i);
      RowKeysKept(MoveLine(b, reqs[0], target, inTarget), reqs[1..], target, inTarget, i);
    }
  }

  /** Both batches ask for what the requests ask for, by whether the goods were refunded before. */
  lemma {:induction false} BatchUnits(b: Books, b1: Books, lineReqs: seq<LineRequest>, f: Id, inTarget: seq<Id>, ol: Id)
    requires WellFormed(b1) && f in b1.fulfillments && TargetRows(b1, f, inTarget) && SameRows(b, b1, lineReqs)
    requires Sources(b1, lineReqs, f) && LiveRequests(b1, lineReqs) && CleanLines(b1, lineReqs)
    ensures var once, again := SplitRefunded(b1, lineReqs, false), SplitRefunded(b1, lineReqs, true);
            var b2 := MoveLines(b1, once, f, inTarget);
            && UnitsIn(b2, Pick(ol, None, {f})) ==
               UnitsIn(b1, Pick(ol, None, {f})) + AskedFrom(b, lineReqs, ol, true, false) + AskedFrom(b, lineReqs, ol, false, false)
            && LinesAsked(b2, again, ol) == AskedFrom(b, lineReqs, ol, true, true) + AskedFrom(b, lineReqs, ol, false, true)
  {
    var once, again := SplitRefunded(b1, lineReqs, false), SplitRefunded(b1, lineReqs, true);
    SplitRefundedFrom(b1, lineReqs, true);
    SplitRefundedFrom(b1, lineReqs, false);
    SplitClean(b1, lineReqs, false);
    SplitClean(b1, lineReqs, true);
    MovedUnits(b1, once, f, inTarget, ol);
    SplitApart(b1, lineReqs);
    MovedSameRows(b1, once, f, inTarget, again);
    LinesAskedSame(b1, MoveLines(b1, once, f, inTarget), again, ol);
    SplitAsked(b1, lineReqs, ol, false);
    SplitAsked(b1, lineReqs, ol, true);
    AskedFromSame(b, b1, lineReqs, ol, true, false);
    AskedFromSame(b, b1, lineReqs, ol, false, false);
    AskedFromSame(b, b1, lineReqs, ol, true, true);
    AskedFromSame(b, b1, lineReqs, ol, false, true);
  }

  lemma {:induction false} AskedThere(reqs: seq<LineRequest>, b: Books, i: Id)
    requires CleanLines(b, reqs) && i !in b.lines
    ensures AskedOf(reqs, i) == 0
  {
    NotAsked(reqs, i);
  }

  /** The second batch of a return. */
  function SecondTaken(b2: Books, again: seq<LineRequest>, f: Id, st: Status): Books {
    if again == [] then b2
    else if st.RefundedAndReturned? then MoveLines(b2, again, f, [])
    else MoveLines(NewFulfillment(b2, RefundedAndReturned, None), again, b2.nextFulfillment, [])
  }

  lemma {:induction false} SecondEffects(b2: Books, again: seq<LineRequest>, f: Id, st: Status, i: Id, ol: Id)
    requires WellFormed(b2) && CleanLines(b2, again) && LiveRequests(b2, again) && Sources(b2, again, f)
    requires f in b2.fulfillments && b2.nextFulfillment == f + 1
    ensures var b', units := SecondTaken(b2, again, f, st), LinesAsked(b2, again, ol);
            && f in b'.fulfillments && b'.fulfillments[f] == b2.fulfillments[f] && b'.orderLines == b2.orderLines
            && UnitsIn(b', Pick(ol, None, {f})) == UnitsIn(b2, Pick(ol, None, {f})) + (if st.RefundedAndReturned? then units else 0)
            && (!st.RefundedAndReturned? && units > 0 ==>
                  f + 1 in b'.fulfillments && b'.fulfillments[f + 1] == Fulfillment(RefundedAndReturned, None)
                  && UnitsIn(b', Pick(ol, None, {f + 1})) == units)
            && (i in b2.lines && b2.lines[i].fulfillment != f ==> OnRow(b', i) == b2.lines[i].quantity - AskedOf(again, i))
            && (i !in b2.lines && i < b2.nextLine ==> OnRow(b', i) == 0)
  {
    if again != [] {
      if st.RefundedAndReturned? {
        SecondIntoSame(b2, again, f, i, ol);
      } else {
        SecondIntoOther(b2, again, f, i, ol);
      }
    }
  }

  /** A return of checked requests takes from every row exactly what is asked of it. */
  lemma {:induction false} ReturnEffectsOnRow(b: Books, st: Status, amount: Option<nat>, orderReqs: seq<OrderRequest>, lineReqs: seq<LineRequest>, i: Id)
    requires Sound(b) && st in {Returned, RefundedAndReturned} && CleanOrder(b, orderReqs) && CleanLines(b, lineReqs)
    requires i in b.lines && b.lines[i].orderLine in b.orderLines
    ensures OnRow(ReturnMoved(b, st, amount, orderReqs, lineReqs), i) == b.lines[i].quantity - AskedOf(lineReqs, i)
  {
    var b1, b2, f := Opened(b, st, amount, orderReqs), FirstBatch(b, st, amount, orderReqs, lineReqs), b.nextFulfillment;
    var again := SplitRefunded(b1, lineReqs, true);
    FirstBatchEffects(b, st, amount, orderReqs, lineReqs, b.lines[i].orderLine);
    FirstBatchRow(b, st, amount, orderReqs, lineReqs, i);
    SplitAskedOf(b1, lineReqs, i);
    if i !in b2.lines {
      AskedThere(again, b2, i);
    }
    SecondEffects(b2, again, f, st, i, b.lines[i].orderLine);
  }

  /**
   A return of checked requests: the fulfillment of returned goods and the one of goods refunded before, with what
   each of them takes.
   */
  lemma {:induction false} ReturnEffects(b: Books, st: Status, amount: Option<nat>, orderReqs: seq<OrderRequest>, lineReqs: seq<LineRequest>, ol: Id)
    requires Sound(b) && st in {Returned, RefundedAndReturned} && CleanOrder(b, orderReqs) && CleanLines(b, lineReqs) && ol in b.orderLines
    ensures var b', f := ReturnMoved(b, st, amount, orderReqs, lineReqs), b.nextFulfillment;
            var unrefunded := AskedFrom(b, lineReqs, ol, true, false) + AskedFrom(b, lineReqs, ol, false, false);
            var refunded := AskedFrom(b, lineReqs, ol, true, true) + AskedFrom(b, lineReqs, ol, false, true);
            && f in b'.fulfillments && b'.fulfillments[f] == Fulfillment(st, amount)
            && ol in b'.orderLines && b'.orderLines[ol].fulfilled == b.orderLines[ol].fulfilled + OrderAsked(orderReqs, ol)
            && UnitsIn(b', Pick(ol, None, {f})) == OrderAsked(orderReqs, ol) + unrefunded + (if st == RefundedAndReturned then refunded else 0)
            && (st == Returned && refunded > 0 ==>
                  f + 1 in b'.fulfillments && b'.fulfillments[f + 1] == Fulfillment(RefundedAndReturned, None)
                  && UnitsIn(b', Pick(ol, None, {f + 1})) == refunded)
  {
    var b1, b2, f := Opened(b, st, amount, orderReqs), FirstBatch(b, st, amount, orderReqs, lineReqs), b.nextFulfillment;
    FirstBatchEffects(b, st, amount, orderReqs, lineReqs, ol);
    OpenedClean(b, st, amount, orderReqs, lineReqs, ol, {});
    SecondEffects(b2, SplitRefunded(b1, lineReqs, true), f, st, 0, ol);
  }

  lemma {:induction false} SecondIntoSame(b2: Books, again: seq<LineRequest>, f: Id, i: Id, ol: Id)
    requires WellFormed(b2) && CleanLines(b2, again) && Sources(b2, again, f) && f in b2.fulfillments
    ensures var b' := MoveLines(b2, again, f, []);
            && b'.fulfillments == b2.fulfillments && b'.orderLines == b2.orderLines
            && UnitsIn(b', Pick(ol, None, {f})) == UnitsIn(b2, Pick(ol, None, {f})) + LinesAsked(b2, again, ol)
            && (i in b2.lines && b2.lines[i].fulfillment != f ==> OnRow(b', i) == b2.lines[i].quantity - AskedOf(again, i))
            && (i !in b2.lines && i < b2.nextLine ==> OnRow(b', i) == 0)
  {
    MovedUnits(b2, again, f, [], ol);
    MoveLinesShape(b2, again, f, []);
    if i in b2.lines && b2.lines[i].fulfillment != f {
      MovedFromEach(b2, again, f, [], i);
    }
  }

  /** The second batch leaves the first target as it is and takes exactly what is asked for. */
  lemma {:induction false} SecondIntoOther(b2: Books, again: seq<LineRequest>, f: Id, i: Id, ol: Id)
    requires WellFormed(b2) && CleanLines(b2, again) && LiveRequests(b2, again) && Sources(b2, again, f)
    requires f in b2.fulfillments && b2.nextFulfillment == f + 1
    ensures var b' := MoveLines(NewFulfillment(b2, RefundedAndReturned, None), again, f + 1, []);
            && b'.fulfillments == b2.fulfillments[f + 1 := Fulfillment(RefundedAndReturned, None)] && b'.orderLines == b2.orderLines
            && UnitsIn(b', Pick(ol, None, {f + 1})) == LinesAsked(b2, again, ol)
            && UnitsIn(b', Pick(ol, None, {f})) == UnitsIn(b2, Pick(ol, None, {f}))
            && (i in b2.lines && b2.lines[i].fulfillment != f ==> OnRow(b', i) == b2.lines[i].quantity - AskedOf(again, i))
            && (i !in b2.lines && i < b2.nextLine ==> OnRow(b', i) == 0)
  {
    var b3, g := NewFulfillment(b2, RefundedAndReturned, None), f + 1;
    SecondBatch(b2, again);
    assert WellFormed(b3) && CleanLines(b3, again);
    LinesAskedSame(b2, b3, again, ol);
    NothingThere(b3.lines, ol, g, b3.nextLine);
    TotalSame(b3.lines, Pick(ol, None, {f}), b2.lines, Pick(ol, None, {f}), b2.nextLine);
    MovedUnits(b3, again, g, [], ol);
    MoveLeavesKept(b3, again, g, [], f, ol);
    MoveLinesShape(b3, again, g, []);
    if i in b2.lines && b2.lines[i].fulfillment != f {
      MovedFromEach(b3, again, g, [], i);
    }
  }
}
