/** The aggregated line maps of a refund and of a replacement order, and what they amount to. */
module LedgerAmounts {
  import opened Wrappers
  import opened LedgerBooks
  import opened LedgerTotals
  import opened LedgerCounts
  import opened LedgerSound
  import opened LedgerRefunds

  /** The dictionary after the order-line requests: a later request for the same line takes the place of an earlier one. */
  function OrderMap(m: map<Id, nat>, reqs: seq<OrderRequest>): map<Id, nat>
    decreases |reqs|
  {
    if reqs == [] then m else OrderMap(m[reqs[0].line := reqs[0].quantity], reqs[1..])
  }

  function Plus(m: map<Id, nat>, ol: Id, q: nat): map<Id, nat> {
    m[ol := (if ol in m then m[ol] else 0) + q]
  }

  /** The dictionary after the fulfillment-line requests, which add up; refunded lines may be left out. */
  function LineMap(b: Books, m: map<Id, nat>, reqs: seq<LineRequest>, skipRefunded: bool): map<Id, nat>
    decreases |reqs|
  {
    if reqs == [] then m
    else if reqs[0].line !in b.lines || (skipRefunded && FromRefunded(b, reqs[0])) then LineMap(b, m, reqs[1..], skipRefunded)
    else LineMap(b, Plus(m, b.lines[reqs[0].line].orderLine, reqs[0].quantity), reqs[1..], skipRefunded)
  }

  /** What a refund reports per order line. */
  function RefundMap(b: Books, orderReqs: seq<OrderRequest>, lineReqs: seq<LineRequest>): map<Id, nat> {
    LineMap(b, OrderMap(map[], orderReqs), lineReqs, true)
  }

  /** The quantities of the draft order that replaces goods, by original order line. */
  function DraftMap(b: Books, orderReqs: seq<OrderRequest>, lineReqs: seq<LineRequest>): map<Id, nat> {
    LineMap(b, OrderMap(map[], orderReqs), lineReqs, false)
  }

  function Entry(m: map<Id, nat>, ol: Id): nat {
    if ol in m then m[ol] else 0
  }

  function LinesAsked(b: Books, reqs: seq<LineRequest>, ol: Id): nat {
    if reqs == [] then 0
    else (if reqs[0].line in b.lines && b.lines[reqs[0].line].orderLine == ol then reqs[0].quantity else 0) + LinesAsked(b, reqs[1..], ol)
  }

  lemma {:induction false} OrderMapKeeps(m: map<Id, nat>, reqs: seq<OrderRequest>, ol: Id)
    requires forall i | 0 <= i < |reqs| :: reqs[i].line != ol
    ensures Entry(OrderMap(m, reqs), ol) == Entry(m, ol)
    decreases |reqs|
  {
    if reqs != [] {
      OrderMapKeeps(m[reqs[0].line := reqs[0].quantity], reqs[1..], ol);
    }
  }

  lemma {:induction false} OrderMapEntry(m: map<Id, nat>, reqs: seq<OrderRequest>, ol: Id)
    requires forall i, j | 0 <= i < j < |reqs| :: reqs[i].line != reqs[j].line
    requires ol !in m
    ensures Entry(OrderMap(m, reqs), ol) == OrderAsked(reqs, ol)
    decreases |reqs|
  {
    if reqs != [] {
      assert forall i | 0 <= i < |reqs[1..]| :: reqs[1..][i] == reqs[i + 1];
      var m1 := m[reqs[0].line := reqs[0].quantity];
      if reqs[0].line == ol {
        OrderMapKeeps(m1, reqs[1..], ol);
        OrderAskedAbsent(reqs[1..], ol);
      } else {
        OrderMapEntry(m1, reqs[1..], ol);
      }
    }
  }

  lemma {:induction false} LineMapEntry(b: Books, m: map<Id, nat>, reqs: seq<LineRequest>, skip: bool, ol: Id)
    ensures Entry(LineMap(b, m, reqs, skip), ol) == Entry(m, ol) + (if skip then LinesCounted(b, reqs, ol) else LinesAsked(b, reqs, ol))
    decreases |reqs|
  {
    if reqs != [] {
      if reqs[0].line !in b.lines || (skip && FromRefunded(b, reqs[0])) {
        LineMapEntry(b, m, reqs[1..], skip, ol);
      } else {
        LineMapEntry(b, Plus(m, b.lines[reqs[0].line].orderLine, reqs[0].quantity), reqs[1..], skip, ol);
      }
    }
  }

  /** Per order line, the refund map holds exactly the counted units. */
  lemma {:induction false} RefundMapIsCounted(b: Books, orderReqs: seq<OrderRequest>, lineReqs: seq<LineRequest>, ol: Id)
    requires CleanOrder(b, orderReqs)
    ensures Entry(RefundMap(b, orderReqs, lineReqs), ol) == Counted(b, orderReqs, lineReqs, ol)
  {
    OrderMapEntry(map[], orderReqs, ol);
    LineMapEntry(b, OrderMap(map[], orderReqs), lineReqs, true, ol);
  }

  // ---- price of a map

  function PriceOf(b: Books, ol: Id): nat {
    if ol in b.orderLines then b.orderLines[ol].price else 0
  }

  /** Price of the entries with ids below `n`. */
  function Priced(b: Books, m: map<Id, nat>, n: nat): nat {
    if n == 0 then 0 else Priced(b, m, n - 1) + Entry(m, n - 1) * PriceOf(b, n - 1)
  }

  lemma {:induction false} PricedSet(b: Books, m: map<Id, nat>, ol: Id, q: nat, n: nat)
    requires ol < n
    ensures Priced(b, m[ol := q], n) == Priced(b, m, n) - Entry(m, ol) * PriceOf(b, ol) + q * PriceOf(b, ol)
  {
    if ol == n - 1 {
      PricedElsewhere(b, m, ol, q, n - 1);
    } else {
      PricedSet(b, m, ol, q, n - 1);
    }
  }

  lemma {:induction false} PricedElsewhere(b: Books, m: map<Id, nat>, ol: Id, q: nat, n: nat)
    requires n <= ol
    ensures Priced(b, m[ol := q], n) == Priced(b, m, n)
  {
    if n > 0 {
      PricedElsewhere(b, m, ol, q, n - 1);
    }
  }

  /** Value that a repeated order-line request drops from the map although the amount includes it. */
  function Overwritten(b: Books, m: map<Id, nat>, reqs: seq<OrderRequest>): nat
    decreases |reqs|
  {
    if reqs == [] then 0
    else Entry(m, reqs[0].line) * PriceOf(b, reqs[0].line) + Overwritten(b, m[reqs[0].line := reqs[0].quantity], reqs[1..])
  }

  lemma {:induction false} OrderMapPriced(b: Books, m: map<Id, nat>, reqs: seq<OrderRequest>, n: nat)
    requires forall i | 0 <= i < |reqs| :: reqs[i].line < n
    ensures Priced(b, m, n) + RefundOfOrder(b, reqs) == Priced(b, OrderMap(m, reqs), n) + Overwritten(b, m, reqs)
    decreases |reqs|
  {
    if reqs != [] {
      PricedSet(b, m, reqs[0].line, reqs[0].quantity, n);
      OrderMapPriced(b, m[reqs[0].line := reqs[0].quantity], reqs[1..], n);
    }
  }

  lemma {:induction false} Distribute(a: nat, c: nat, p: nat)
    ensures (a + c) * p == a * p + c * p
  {
  }

  lemma {:induction false} LineMapPriced(b: Books, m: map<Id, nat>, reqs: seq<LineRequest>, n: nat)
    requires WellFormed(b) && forall ol | ol in b.orderLines :: ol < n
    ensures Priced(b, m, n) + RefundOfLines(b, reqs) == Priced(b, LineMap(b, m, reqs, true), n)
    decreases |reqs|
  {
    if reqs != [] {
      if reqs[0].line !in b.lines || FromRefunded(b, reqs[0]) {
        LineMapPriced(b, m, reqs[1..], n);
      } else {
        var ol, q := b.lines[reqs[0].line].orderLine, reqs[0].quantity;
        Distribute(Entry(m, ol), q, PriceOf(b, ol));
        PricedSet(b, m, ol, Entry(m, ol) + q, n);
        LineMapPriced(b, Plus(m, ol, q), reqs[1..], n);
      }
    }
  }

  /** The computed refund is the price of the reported lines, plus what repeated order-line requests dropped from the report. */
  lemma {:induction false} RefundPriced(b: Books, orderReqs: seq<OrderRequest>, lineReqs: seq<LineRequest>, n: nat)
    requires WellFormed(b) && (forall ol | ol in b.orderLines :: ol < n) && forall i | 0 <= i < |orderReqs| :: orderReqs[i].line < n
    ensures ProductRefund(b, orderReqs, lineReqs) == Priced(b, RefundMap(b, orderReqs, lineReqs), n) + Overwritten(b, map[], orderReqs)
  {
    OrderMapPriced(b, map[], orderReqs, n);
    LineMapPriced(b, OrderMap(map[], orderReqs), lineReqs, n);
    PricedEmpty(b, n);
  }

  lemma {:induction false} PricedEmpty(b: Books, n: nat)
    ensures Priced(b, map[], n) == 0
  {
    if n > 0 {
      PricedEmpty(b, n - 1);
    }
  }

  /** Units without value: none at all, or units that cost nothing. */
  predicate Free(b: Books, ol: Id, q: nat) {
    q == 0 || PriceOf(b, ol) == 0
  }

  lemma {:induction false} FreeIsZero(b: Books, ol: Id, q: nat)
    ensures Free(b, ol, q) <==> q * PriceOf(b, ol) == 0
  {
  }

  lemma {:induction false} OverwrittenExactly(b: Books, m: map<Id, nat>, reqs: seq<OrderRequest>)
    ensures Overwritten(b, m, reqs) == 0 <==>
            FirstsWorthless(b, m, reqs) && NoValueRepeated(b, reqs)
    decreases |reqs|
  {
    if reqs != [] {
      var r, t := reqs[0], reqs[1..];
      var m1 := m[r.line := r.quantity];
      OverwrittenExactly(b, m1, t);
      FreeIsZero(b, r.line, Entry(m, r.line));
      if Overwritten(b, m, reqs) == 0 {
        WorthlessWhole(b, m, reqs);
        RepeatsWhole(b, m, reqs);
      }
      if FirstsWorthless(b, m, reqs) && NoValueRepeated(b, reqs) {
        WorthlessTail(b, m, reqs);
        assert forall i | 0 <= i < |t| :: t[i] == reqs[i + 1];
      }
    }
  }

  /** No request that a later one for the same line replaces asked for units with a price. */
  ghost predicate NoValueRepeated(b: Books, reqs: seq<OrderRequest>) {
    forall i, j | 0 <= i < j < |reqs| && reqs[i].line == reqs[j].line :: Free(b, reqs[i].line, reqs[i].quantity)
  }

  ghost predicate FirstsWorthless(b: Books, m: map<Id, nat>, reqs: seq<OrderRequest>) {
    forall j | 0 <= j < |reqs| && (forall k | 0 <= k < j :: reqs[k].line != reqs[j].line) :: Free(b, reqs[j].line, Entry(m, reqs[j].line))
  }

  lemma {:induction false} WorthlessTail(b: Books, m: map<Id, nat>, reqs: seq<OrderRequest>)
    requires reqs != [] && FirstsWorthless(b, m, reqs) && NoValueRepeated(b, reqs)
    ensures FirstsWorthless(b, m[reqs[0].line := reqs[0].quantity], reqs[1..])
  {
    var r, t := reqs[0], reqs[1..];
    var m1 := m[r.line := r.quantity];
    forall j | 0 <= j < |t| && (forall k | 0 <= k < j :: t[k].line != t[j].line)
      ensures Free(b, t[j].line, Entry(m1, t[j].line))
    {
      assert t[j] == reqs[j + 1];
      if t[j].line != r.line {
        forall k | 0 <= k < j + 1
          ensures reqs[k].line != reqs[j + 1].line
        {
          assert k == 0 || reqs[k] == t[k - 1];
        }
      }
    }
  }

  lemma {:induction false} WorthlessWhole(b: Books, m: map<Id, nat>, reqs: seq<OrderRequest>)
    requires reqs != [] && Free(b, reqs[0].line, Entry(m, reqs[0].line))
    requires FirstsWorthless(b, m[reqs[0].line := reqs[0].quantity], reqs[1..])
    ensures FirstsWorthless(b, m, reqs)
  {
    var r, t := reqs[0], reqs[1..];
    forall j | 0 <= j < |reqs| && (forall k | 0 <= k < j :: reqs[k].line != reqs[j].line)
      ensures Free(b, reqs[j].line, Entry(m, reqs[j].line))
    {
      if j > 0 {
        assert reqs[j] == t[j - 1] && reqs[0].line != reqs[j].line;
        assert forall k | 0 <= k < j - 1 :: t[k] == reqs[k + 1];
        assert forall k | 0 <= k < j - 1 :: t[k].line != t[j - 1].line;
      }
    }
  }

  lemma {:induction false} RepeatsWhole(b: Books, m: map<Id, nat>, reqs: seq<OrderRequest>)
    requires reqs != [] && FirstsWorthless(b, m[reqs[0].line := reqs[0].quantity], reqs[1..]) && NoValueRepeated(b, reqs[1..])
    ensures NoValueRepeated(b, reqs)
  {
    var r, t := reqs[0], reqs[1..];
    forall i, j | 0 <= i < j < |reqs| && reqs[i].line == reqs[j].line
      ensures Free(b, reqs[i].line, reqs[i].quantity)
    {
      assert reqs[j] == t[j - 1];
      if i > 0 {
        assert reqs[i] == t[i - 1];
      } else {
        FirstIsFree(b, m, r, t, j - 1);
      }
    }
  }

  /** A request that is repeated was worthless, since its entry is there when the repetition comes. */
  lemma {:induction false} FirstIsFree(b: Books, m: map<Id, nat>, r: OrderRequest, t: seq<OrderRequest>, j: nat)
    requires FirstsWorthless(b, m[r.line := r.quantity], t) && j < |t| && t[j].line == r.line
    ensures Free(b, r.line, r.quantity)
  {
    FirstRepeat(t, r.line, j);
    var k :| 0 <= k < |t| && t[k].line == r.line && forall h | 0 <= h < k :: t[h].line != r.line;
    assert forall h | 0 <= h < k :: t[h].line != t[k].line;
    assert Free(b, t[k].line, Entry(m[r.line := r.quantity], t[k].line));
  }

  lemma {:induction false} FirstRepeat(t: seq<OrderRequest>, ol: Id, j: nat)
    requires j < |t| && t[j].line == ol
    ensures exists k :: 0 <= k < |t| && t[k].line == ol && forall h | 0 <= h < k :: t[h].line != ol
    decreases j
  {
    if exists h :: 0 <= h < j && t[h].line == ol {
      var h :| 0 <= h < j && t[h].line == ol;
      FirstRepeat(t, ol, h);
    }
  }

  /**
   The computed refund equals the price of the reported lines if and only if no order line with a price is asked for
   twice with something in the earlier request; requests that passed the checks never are.
   */
  lemma {:induction false} RefundAgreesExactly(b: Books, orderReqs: seq<OrderRequest>, lineReqs: seq<LineRequest>, n: nat)
    requires WellFormed(b) && (forall ol | ol in b.orderLines :: ol < n) && forall i | 0 <= i < |orderReqs| :: orderReqs[i].line < n
    ensures ProductRefund(b, orderReqs, lineReqs) == Priced(b, RefundMap(b, orderReqs, lineReqs), n) <==> NoValueRepeated(b, orderReqs)
    ensures CleanOrder(b, orderReqs) ==> NoValueRepeated(b, orderReqs)
  {
    RefundPriced(b, orderReqs, lineReqs, n);
    OverwrittenExactly(b, map[], orderReqs);
  }

  /**
   What is paid for checked requests without a given amount: the price of the reported lines and the shipping, or what
   was captured if that is less.
   */
  lemma {:induction false} RefundPaid(b: Books, orderReqs: seq<OrderRequest>, lineReqs: seq<LineRequest>, terms: RefundTerms, n: nat)
    requires WellFormed(b) && (forall ol | ol in b.orderLines :: ol < n) && CleanOrder(b, orderReqs) && terms.amount.None?
    ensures var due := Priced(b, RefundMap(b, orderReqs, lineReqs), n) + (if terms.shipping.Some? then terms.shipping.value else 0);
            TotalRefund(b, terms, orderReqs, lineReqs) == if terms.captured.Some? then Min(terms.captured.value, due) else due
  {
    RefundAgreesExactly(b, orderReqs, lineReqs, n);
  }

  // ---- the replacement order

  lemma {:induction false} FlowIntoNew(b: Books, reqs: seq<LineRequest>, ol: Id, target: Id)
    requires forall i | 0 <= i < |reqs| :: reqs[i].line in b.lines && b.lines[reqs[i].line].fulfillment != target
    ensures LineFlow(b, reqs, ol, true, {target}) == LinesAsked(b, reqs, ol)
  {
    if reqs != [] {
      assert reqs[0].line in b.lines;
      assert forall i | 0 <= i < |reqs[1..]| :: reqs[1..][i] == reqs[i + 1];
      FlowIntoNew(b, reqs[1..], ol, target);
    }
  }

  lemma {:induction false} LinesAskedSame(b: Books, b': Books, reqs: seq<LineRequest>, ol: Id)
    requires SameRows(b, b', reqs)
    ensures LinesAsked(b', reqs, ol) == LinesAsked(b, reqs, ol)
  {
    if reqs != [] {
      assert reqs[0].line in b.lines;
      assert forall i | 0 <= i < |reqs[1..]| :: reqs[1..][i] == reqs[i + 1];
      LinesAskedSame(b, b', reqs[1..], ol);
    }
  }

  /** A new fulfillment that takes checked requests holds exactly the units they ask for. */
  lemma {:induction false} TakenUnits(b: Books, st: Status, amount: Option<nat>, orderReqs: seq<OrderRequest>, lineReqs: seq<LineRequest>, ol: Id)
    requires Sound(b) && st in LIVE && !IsOpen(st) && CleanOrder(b, orderReqs) && CleanLines(b, lineReqs) && ol in b.orderLines
    ensures UnitsIn(TakeInto(b, st, amount, orderReqs, lineReqs), Pick(ol, None, {b.nextFulfillment})) ==
            OrderAsked(orderReqs, ol) + LinesAsked(b, lineReqs, ol)
  {
    var f, b0, b1 := b.nextFulfillment, NewFulfillment(b, st, amount), Opened(b, st, amount, orderReqs);
    CleanIsLive(b, lineReqs);
    OpenedSound(b, st, amount, orderReqs, lineReqs);
    OpenedClean(b, st, amount, orderReqs, lineReqs, ol, {});
    NewFulfillmentSound(b, st, amount);
    NothingThere(b0.lines, ol, f, b0.nextLine);
    AddOrderLinesUnits(b0, orderReqs, f, ol, {f});
    MoveLinesUnits(b1, lineReqs, f, Ids(b.nextLine, b1.nextLine), Pick(ol, None, {f}));
    CleanGains(b1, lineReqs, f, Ids(b.nextLine, b1.nextLine), ol, {f});
    assert forall i | 0 <= i < |lineReqs| :: lineReqs[i] in lineReqs;
    FlowIntoNew(b1, lineReqs, ol, f);
    LinesAskedSame(b, b1, lineReqs, ol);
  }

  /** The draft order of a replacement has, per original line, exactly the units moved to the replaced fulfillment. */
  lemma {:induction false} DraftMatchesReplaced(b: Books, orderReqs: seq<OrderRequest>, lineReqs: seq<LineRequest>, ol: Id)
    requires Sound(b) && CleanOrder(b, orderReqs) && CleanLines(b, lineReqs) && ol in b.orderLines
    ensures var b' := TakeInto(b, Replaced, None, orderReqs, lineReqs);
            Entry(DraftMap(b, orderReqs, lineReqs), ol) == UnitsIn(b', Pick(ol, None, {b.nextFulfillment}))
  {
    TakenUnits(b, Replaced, None, orderReqs, lineReqs, ol);
    OrderMapEntry(map[], orderReqs, ol);
    LineMapEntry(b, OrderMap(map[], orderReqs), lineReqs, false, ol);
  }

  /** No request takes from the fulfillment `kept`. */
  ghost predicate Spares(b: Books, reqs: seq<LineRequest>, kept: Id) {
    forall r | r in reqs && r.line in b.lines :: b.lines[r.line].fulfillment != kept
  }

  lemma {:induction false} MoveSpares(b: Books, reqs: seq<LineRequest>, target: Id, inTarget: seq<Id>, others: seq<LineRequest>, kept: Id)
    requires WellFormed(b) && target in b.fulfillments && TargetRows(b, target, inTarget) && Sources(b, reqs, target)
    requires Spares(b, others, kept) && forall r | r in others :: r.line < b.nextLine
    ensures Spares(MoveLines(b, reqs, target, inTarget), others, kept)
    decreases |reqs|
  {
    if reqs != [] {
      SourcesKept(b, reqs, target, inTarget);
      MoveLineShape(b, reqs[0], target, inTarget);
      var b1 := MoveLine(b, reqs[0], target, inTarget);
      forall r | r in others && r.line in b1.lines
        ensures b1.lines[r.line].fulfillment != kept
      {
        MoveLineRowKeys(b, reqs[0], target, inTarget, r.line);
      }
      MoveSpares(b1, reqs[1..], target, inTarget, others, kept);
    }
  }

  lemma {:induction false} MoveLeavesKept(b: Books, reqs: seq<LineRequest>, target: Id, inTarget: seq<Id>, kept: Id, ol: Id)
    requires WellFormed(b) && target in b.fulfillments && TargetRows(b, target, inTarget) && Sources(b, reqs, target)
    requires Spares(b, reqs, kept) && target != kept
    ensures UnitsIn(MoveLines(b, reqs, target, inTarget), Pick(ol, None, {kept})) == UnitsIn(b, Pick(ol, None, {kept}))
  {
    MoveLinesUnits(b, reqs, target, inTarget, Pick(ol, None, {kept}));
    GainsWithin(b, reqs, target, inTarget, Pick(ol, None, {kept}));
  }

  /** A return does not touch a fulfillment that none of its requests takes from. */
  lemma {:induction false} ReturnLeavesKept(b: Books, st: Status, amount: Option<nat>, orderReqs: seq<OrderRequest>, lineReqs: seq<LineRequest>, kept: Id, ol: Id)
    requires Sound(b) && st in {Returned, RefundedAndReturned} && LiveRequests(b, lineReqs) && Spares(b, lineReqs, kept) && kept < b.nextFulfillment
    requires ol in b.orderLines
    ensures UnitsIn(ReturnMoved(b, st, amount, orderReqs, lineReqs), Pick(ol, None, {kept})) == UnitsIn(b, Pick(ol, None, {kept}))
  {
    var target, b0, b1 := b.nextFulfillment, NewFulfillment(b, st, amount), Opened(b, st, amount, orderReqs);
    var p := Pick(ol, None, {kept});
    OpenedSound(b, st, amount, orderReqs, lineReqs);
    NewFulfillmentSound(b, st, amount);
    AddOrderLinesUnits(b0, orderReqs, target, ol, {kept});
    var once, again, inTarget := SplitRefunded(b1, lineReqs, false), SplitRefunded(b1, lineReqs, true), Ids(b.nextLine, b1.nextLine);
    SplitRefundedFrom(b1, lineReqs, true);
    SplitRefundedFrom(b1, lineReqs, false);
    MoveLeavesKept(b1, once, target, inTarget, kept, ol);
    MoveLinesShape(b1, once, target, inTarget);
    MovedKeepsRequests(b1, once, target, inTarget, again);
    MoveSpares(b1, once, target, inTarget, again, kept);
    var b2 := MoveLines(b1, once, target, inTarget);
    if again != [] {
      if st.RefundedAndReturned? {
        MoveLeavesKept(b2, again, target, [], kept, ol);
      } else {
        SecondBatch(b2, again);
        MoveLeavesKept(NewFulfillment(b2, RefundedAndReturned, None), again, b2.nextFulfillment, [], kept, ol);
      }
    }
  }

  /**
   Over a whole return with replacements, the draft order has, per original line, exactly the units that end in the
   replaced fulfillment.
   */
  lemma {:induction false} DraftMatchesReturn(b: Books, orderReqs: seq<OrderRequest>, lineReqs: seq<LineRequest>, refund: Option<RefundTerms>, ol: Id)
    requires Sound(b) && CleanOrder(b, orderReqs) && CleanLines(b, lineReqs) && ol in b.orderLines
    requires OrderSide(orderReqs, true) != [] || LineSide(lineReqs, true) != []
    ensures Entry(DraftMap(b, OrderSide(orderReqs, true), LineSide(lineReqs, true)), ol) ==
            UnitsIn(ReturnCreated(b, orderReqs, lineReqs, refund), Pick(ol, None, {b.nextFulfillment}))
  {
    var backOrder, backLines := OrderSide(orderReqs, false), LineSide(lineReqs, false);
    var newOrder, newLines := OrderSide(orderReqs, true), LineSide(lineReqs, true);
    OrderSideClean(b, orderReqs, false);
    OrderSideClean(b, orderReqs, true);
    LineSideClean(b, lineReqs, false);
    LineSideClean(b, lineReqs, true);
    SidesApart(b, orderReqs, lineReqs);
    CleanIsLive(b, newLines);
    DraftMatchesReplaced(b, newOrder, newLines, ol);
    TakeIntoSound(b, Replaced, None, newOrder, newLines);
    ReplaceKeepsReturns(b, newOrder, newLines, backOrder, backLines, ol);
    var b1 := TakeInto(b, Replaced, None, newOrder, newLines);
    CleanIsLive(b1, backLines);
    var total := match refund case None => None case Some(terms) => Some(TotalRefund(b, terms, backOrder, backLines));
    ReturnLeavesKept(b1, if total.None? then Returned else RefundedAndReturned, total, backOrder, backLines, b.nextFulfillment, ol);
  }
}
