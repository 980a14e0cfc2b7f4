/** Creating and approving fulfillments keeps the ledger balanced; what cancelling does to the balance, exactly. */
module LedgerCreateCancel {
  import opened Wrappers
  import opened LedgerBooks
  import opened LedgerTotals
  import opened LedgerCounts
  import opened LedgerSound

  // ---- creating

  /** Nothing that is still wanted exceeds what is unfulfilled. */
  ghost predicate Fits(b: Books, ws: seq<Wanted>) {
    forall ol | ol in b.orderLines :: RequestedOf(ws, ol) <= b.orderLines[ol].quantity - b.orderLines[ol].fulfilled
  }

  lemma {:induction false} FulfillOneFits(b: Books, w: Wanted, rest: seq<Wanted>, target: Id)
    requires Fits(b, [w] + rest)
    ensures Fits(FulfillOne(b, w, target), rest)
    ensures w.orderLine in b.orderLines ==> w.quantity <= b.orderLines[w.orderLine].quantity - b.orderLines[w.orderLine].fulfilled
  {
    assert ([w] + rest)[1..] == rest;
    assert forall ol :: RequestedOf([w] + rest, ol) == (if w.orderLine == ol then w.quantity else 0) + RequestedOf(rest, ol);
  }

  lemma {:induction false} FulfillOneSlack(b: Books, w: Wanted, target: Id, ol: Id)
    requires WellFormed(b) && target in Among(b, LIVE) && ol in b.orderLines
    ensures var b' := FulfillOne(b, w, target); ol in b'.orderLines && Slack(b', ol) == Slack(b, ol)
  {
    if w.quantity != 0 && w.orderLine in b.orderLines {
      var row := b.orderLines[w.orderLine];
      var mid := b.(orderLines := b.orderLines[w.orderLine := row.(fulfilled := row.fulfilled + w.quantity)]);
      NewLineUnits(mid, Line(target, w.orderLine, w.stock, w.quantity), Pick(ol, None, Among(b, LIVE)));
      assert Among(FulfillOne(b, w, target), LIVE) == Among(b, LIVE);
    }
  }

  lemma {:induction false} FulfillOneSound(b: Books, w: Wanted, rest: seq<Wanted>, target: Id)
    requires Sound(b) && target in Among(b, LIVE) && Fits(b, [w] + rest)
    ensures var b' := FulfillOne(b, w, target);
            && Sound(b') && Fits(b', rest) && SameSlack(b, b')
            && b'.fulfillments == b.fulfillments && b'.nextFulfillment == b.nextFulfillment
  {
    var b' := FulfillOne(b, w, target);
    FulfillOneFits(b, w, rest, target);
    forall ol | ol in b.orderLines
      ensures ol in b'.orderLines && Slack(b', ol) == Slack(b, ol)
    {
      FulfillOneSlack(b, w, target, ol);
    }
    SlackKept(b, b');
  }

  lemma {:induction false} FulfillAllSound(b: Books, ws: seq<Wanted>, rest: seq<Wanted>, target: Id)
    requires Sound(b) && target in Among(b, LIVE) && Fits(b, ws + rest)
    ensures var b' := FulfillAll(b, ws, target);
            && Sound(b') && Fits(b', rest) && SameSlack(b, b')
            && b'.fulfillments == b.fulfillments && b'.nextFulfillment == b.nextFulfillment
    decreases |ws|
  {
    if ws == [] {
      assert ws + rest == rest;
    } else {
      assert ws + rest == [ws[0]] + (ws[1..] + rest);
      FulfillOneSound(b, ws[0], ws[1..] + rest, target);
      var b1 := FulfillOne(b, ws[0], target);
      FulfillAllSound(b1, ws[1..], rest, target);
      SlackChain(b, b1, FulfillAll(b1, ws[1..], target));
    }
  }

  lemma {:induction false} FulfillParcelsSound(b: Books, parcels: seq<seq<Wanted>>, st: Status)
    requires Sound(b) && IsOpen(st) && Fits(b, Flat(parcels))
    ensures Sound(FulfillParcels(b, parcels, st)) && SameSlack(b, FulfillParcels(b, parcels, st))
    decreases |parcels|
  {
    if parcels != [] {
      var b0 := NewFulfillment(b, st, None);
      NewFulfillmentSound(b, st, None);
      FulfillAllSound(b0, parcels[0], Flat(parcels[1..]), b.nextFulfillment);
      var b1 := FulfillAll(b0, parcels[0], b.nextFulfillment);
      SlackChain(b, b0, b1);
      FulfillParcelsSound(b1, parcels[1..], st);
      SlackChain(b, b1, FulfillParcels(b1, parcels[1..], st));
    }
  }

  lemma {:induction false} CreatedSound(b: Books, parcels: seq<seq<Wanted>>, autoApproved: bool, allowExceeded: bool, holds: Holds)
    requires Sound(b)
    ensures var b' := Created(b, parcels, autoApproved, allowExceeded, holds); Sound(b') && SameSlack(b, b')
  {
    if QuantitiesFit(b, parcels) {
      FulfillParcelsSound(b, parcels, if autoApproved then Fulfilled else WaitingForApproval);
    }
  }

  // ---- approving

  lemma {:induction false} ApprovedSound(b: Books, f: Id, allowExceeded: bool, holds: bool)
    requires Sound(b) && f in b.fulfillments && b.fulfillments[f].status.WaitingForApproval?
    ensures Sound(Approved(b, f, allowExceeded, holds)) && SameSlack(b, Approved(b, f, allowExceeded, holds))
  {
    var b' := Approved(b, f, allowExceeded, holds);
    forall ol | ol in b.orderLines
      ensures Slack(b', ol) == Slack(b, ol)
    {
      CountByRows(b, b', ol, LIVE);
    }
    SlackKept(b, b');
  }

  // ---- cancelling

  function SubtractedOf(lines: map<Id, Line>, rows: seq<Id>, ol: Id): int {
    if ol in Subtracted(lines, rows) then Subtracted(lines, rows)[ol] else 0
  }

  predicate RowOf(lines: map<Id, Line>, i: Id, ol: Id) {
    i in lines && lines[i].orderLine == ol
  }

  /** Units of an order line on the listed lines. */
  function Listed(lines: map<Id, Line>, rows: seq<Id>, ol: Id): int {
    if rows == [] then 0 else (if RowOf(lines, rows[0], ol) then lines[rows[0]].quantity else 0) + Listed(lines, rows[1..], ol)
  }

  lemma {:induction false} ListedSame(l1: map<Id, Line>, l2: map<Id, Line>, rows: seq<Id>, ol: Id)
    requires forall i | i in rows :: i in l1 && i in l2 && l1[i] == l2[i]
    ensures Listed(l1, rows, ol) == Listed(l2, rows, ol)
  {
    if rows != [] {
      assert rows[0] in rows;
      ListedSame(l1, l2, rows[1..], ol);
    }
  }

  lemma {:induction false} ListsRest(lines: map<Id, Line>, f: Id, rows: seq<Id>)
    requires Lists(lines, f, rows) && rows != []
    ensures rows[0] in lines && lines[rows[0]].fulfillment == f && Lists(lines - {rows[0]}, f, rows[1..])
    ensures forall i | i in rows[1..] :: i in lines && i != rows[0]
  {
    assert rows[0] in rows;
    forall i
      ensures i in rows[1..] <==> i in lines - {rows[0]} && lines[i].fulfillment == f
    {
      assert i in rows <==> i == rows[0] || i in rows[1..];
      if i in rows[1..] {
        var k :| 0 <= k < |rows[1..]| && rows[1..][k] == i;
        assert rows[k + 1] == i;
      }
    }
  }

  /** However the lines of a fulfillment are listed, they hold its units. */
  lemma {:induction false} ListedIsTotal(lines: map<Id, Line>, f: Id, rows: seq<Id>, ol: Id, n: nat)
    requires Lists(lines, f, rows) && forall i | i in lines :: i < n
    ensures Listed(lines, rows, ol) == Total(lines, Pick(ol, None, {f}), n)
    decreases |rows|
  {
    if rows == [] {
      assert forall i :: i in rows <==> i in lines && lines[i].fulfillment == f;
      NothingThere(lines, ol, f, n);
    } else {
      var k, rest := rows[0], lines - {rows[0]};
      ListsRest(lines, f, rows);
      ListedIsTotal(rest, f, rows[1..], ol, n);
      ListedSame(lines, rest, rows[1..], ol);
      TotalOneRow(rest, lines, Pick(ol, None, {f}), k, n);
    }
  }

  /** Past the first listed line of the order line, the listed lines hold none of its units. */
  ghost predicate AllOnFirst(lines: map<Id, Line>, rows: seq<Id>, ol: Id) {
    forall i, j | 0 <= i < j < |rows| && RowOf(lines, rows[i], ol) && RowOf(lines, rows[j], ol) :: lines[rows[j]].quantity == 0
  }

  ghost predicate NoneOn(lines: map<Id, Line>, rows: seq<Id>, ol: Id) {
    forall i | 0 <= i < |rows| && RowOf(lines, rows[i], ol) :: lines[rows[i]].quantity == 0
  }

  lemma {:induction false} ListedNone(lines: map<Id, Line>, rows: seq<Id>, ol: Id)
    requires forall i | i in lines :: lines[i].quantity >= 0
    ensures Listed(lines, rows, ol) >= 0
    ensures Listed(lines, rows, ol) == 0 <==> NoneOn(lines, rows, ol)
  {
    if rows != [] {
      ListedNone(lines, rows[1..], ol);
      NoneOnStep(lines, rows, ol);
    }
  }

  lemma {:induction false} NoneOnStep(lines: map<Id, Line>, rows: seq<Id>, ol: Id)
    requires rows != []
    ensures NoneOn(lines, rows, ol) <==> (RowOf(lines, rows[0], ol) ==> lines[rows[0]].quantity == 0) && NoneOn(lines, rows[1..], ol)
  {
    assert forall i | 0 <= i < |rows[1..]| :: rows[1..][i] == rows[i + 1];
    forall i | 0 < i < |rows|
      ensures rows[i] == rows[1..][i - 1]
    {
    }
  }

  lemma {:induction false} AllOnFirstStep(lines: map<Id, Line>, rows: seq<Id>, ol: Id)
    requires rows != []
    ensures AllOnFirst(lines, rows, ol) <==>
            if RowOf(lines, rows[0], ol) then NoneOn(lines, rows[1..], ol) && AllOnFirst(lines, rows[1..], ol) else AllOnFirst(lines, rows[1..], ol)
  {
    var t := rows[1..];
    assert forall i | 0 <= i < |t| :: t[i] == rows[i + 1];
    if AllOnFirst(lines, rows, ol) {
      forall i, j | 0 <= i < j < |t| && RowOf(lines, t[i], ol) && RowOf(lines, t[j], ol)
        ensures lines[t[j]].quantity == 0
      {
        assert t[i] == rows[i + 1] && t[j] == rows[j + 1];
      }
    } else {
      var i, j :| 0 <= i < j < |rows| && RowOf(lines, rows[i], ol) && RowOf(lines, rows[j], ol) && lines[rows[j]].quantity != 0;
      assert rows[j] == t[j - 1];
      if i > 0 {
        assert rows[i] == t[i - 1];
      }
    }
  }

  /** The bulk update subtracts at most the units listed, and all of them exactly if the first line holds them all. */
  lemma {:induction false} SubtractedExactly(lines: map<Id, Line>, rows: seq<Id>, ol: Id)
    requires forall i | i in lines :: lines[i].quantity >= 0
    ensures 0 <= SubtractedOf(lines, rows, ol) <= Listed(lines, rows, ol)
    ensures SubtractedOf(lines, rows, ol) == Listed(lines, rows, ol) <==> AllOnFirst(lines, rows, ol)
  {
    if rows != [] {
      SubtractedExactly(lines, rows[1..], ol);
      ListedNone(lines, rows[1..], ol);
      AllOnFirstStep(lines, rows, ol);
      if NoneOn(lines, rows[1..], ol) {
        NoneIsOnFirst(lines, rows[1..], ol);
      }
    }
  }

  lemma {:induction false} NoneIsOnFirst(lines: map<Id, Line>, rows: seq<Id>, ol: Id)
    requires NoneOn(lines, rows, ol)
    ensures AllOnFirst(lines, rows, ol)
  {
  }

  /** Units of an order line that cancelling the fulfillment leaves counted as fulfilled, with the lines listed in this order. */
  ghost function Stranded(b: Books, f: Id, rows: seq<Id>, ol: Id): int {
    UnitsIn(b, Pick(ol, None, {f})) - SubtractedOf(b.lines, rows, ol)
  }

  lemma {:induction false} StrandedExactly(b: Books, f: Id, rows: seq<Id>, ol: Id)
    requires WellFormed(b) && Lists(b.lines, f, rows)
    ensures 0 <= Stranded(b, f, rows, ol) <= UnitsIn(b, Pick(ol, None, {f}))
    ensures Stranded(b, f, rows, ol) == 0 <==> AllOnFirst(b.lines, rows, ol)
  {
    ListedIsTotal(b.lines, f, rows, ol, b.nextLine);
    SubtractedExactly(b.lines, rows, ol);
  }

  lemma {:induction false} TotalSplit(lines: map<Id, Line>, ol: Id, among: set<Id>, f: Id, n: nat)
    requires f in among
    ensures Total(lines, Pick(ol, None, among), n) ==
            Total(lines, Pick(ol, None, among - {f}), n) + Total(lines, Pick(ol, None, {f}), n)
  {
    if n > 0 {
      TotalSplit(lines, ol, among, f, n - 1);
    }
  }

  /** Without the lines of a live fulfillment, the live count is less by its units. */
  lemma {:induction false} CountWithout(b: Books, b': Books, f: Id, ol: Id)
    requires WellFormed(b) && f in Among(b, LIVE) && b'.nextLine == b.nextLine
    requires Among(b', LIVE) == Among(b, LIVE) - {f}
    requires forall i | i in b.lines && b.lines[i].fulfillment != f :: i in b'.lines && b'.lines[i] == b.lines[i]
    requires forall i | i in b'.lines :: i in b.lines && b'.lines[i] == b.lines[i]
    ensures Count(b', ol, LIVE) == Count(b, ol, LIVE) - UnitsIn(b, Pick(ol, None, {f}))
    ensures 0 <= Count(b', ol, LIVE)
  {
    TotalSplit(b.lines, ol, Among(b, LIVE), f, b.nextLine);
    TotalSame(b.lines, Pick(ol, None, Among(b, LIVE) - {f}), b'.lines, Pick(ol, None, Among(b', LIVE)), b.nextLine);
    TotalBounds(b'.lines, Pick(ol, None, Among(b', LIVE)), b'.nextLine);
  }

  lemma {:induction false} FulfilledAfter(b: Books, rows: seq<Id>, ol: Id)
    requires ol in b.orderLines
    ensures ol in Unfulfilled(b, rows)
    ensures Unfulfilled(b, rows)[ol] == b.orderLines[ol].(fulfilled := b.orderLines[ol].fulfilled - SubtractedOf(b.lines, rows, ol))
  {
  }

  /** What both cancellations do to one order line. */
  lemma {:induction false} CancelEffect(b: Books, b': Books, f: Id, rows: seq<Id>, ol: Id)
    requires Sound(b) && f in Among(b, LIVE) && Lists(b.lines, f, rows) && ol in b.orderLines
    requires b'.orderLines == Unfulfilled(b, rows)
    requires Count(b', ol, LIVE) == Count(b, ol, LIVE) - UnitsIn(b, Pick(ol, None, {f})) && 0 <= Count(b', ol, LIVE)
    ensures Slack(b', ol) == Slack(b, ol) + Stranded(b, f, rows, ol)
    ensures 0 <= b'.orderLines[ol].fulfilled <= b'.orderLines[ol].quantity && Slack(b', ol) >= 0
  {
    FulfilledAfter(b, rows, ol);
    StrandedExactly(b, f, rows, ol);
    ListedIsTotal(b.lines, f, rows, ol, b.nextLine);
    SubtractedExactly(b.lines, rows, ol);
  }

  /** Cancelling a waiting fulfillment, however its lines are listed, keeps the bounds; the slack grows by what is stranded. */
  lemma {:induction false} WaitingCanceledSound(b: Books, f: Id, rows: seq<Id>)
    requires Sound(b) && f in b.fulfillments && b.fulfillments[f].status.WaitingForApproval? && Lists(b.lines, f, rows)
    ensures var b' := WaitingCanceled(b, f, rows);
            && Sound(b') && b'.orderLines.Keys == b.orderLines.Keys
            && (forall ol | ol in b.orderLines :: Slack(b', ol) == Slack(b, ol) + Stranded(b, f, rows, ol))
  {
    var b' := WaitingCanceled(b, f, rows);
    assert WellFormed(b');
    forall ol | ol in b.orderLines
      ensures Slack(b', ol) == Slack(b, ol) + Stranded(b, f, rows, ol)
      ensures 0 <= b'.orderLines[ol].fulfilled <= b'.orderLines[ol].quantity && Slack(b', ol) >= 0
    {
      CountWithout(b, b', f, ol);
      CancelEffect(b, b', f, rows, ol);
    }
  }

  lemma {:induction false} CanceledCount(b: Books, f: Id, rows: seq<Id>, restock: bool, ol: Id)
    requires Sound(b) && f in Among(b, LIVE) && ol in b.orderLines
    ensures var b' := FulfillmentCanceled(b, f, rows, restock);
            Count(b', ol, LIVE) == Count(b, ol, LIVE) - UnitsIn(b, Pick(ol, None, {f})) && 0 <= Count(b', ol, LIVE)
  {
    CountWithout(b, FulfillmentCanceled(b, f, rows, restock), f, ol);
  }

  /** The same for every other cancellation that the mutation accepts. */
  lemma {:induction false} FulfillmentCanceledSound(b: Books, f: Id, rows: seq<Id>)
    requires Sound(b) && f in Among(b, LIVE) && Lists(b.lines, f, rows)
    ensures var b' := FulfillmentCanceled(b, f, rows, true);
            && Sound(b') && b'.orderLines.Keys == b.orderLines.Keys
            && (forall ol | ol in b.orderLines :: Slack(b', ol) == Slack(b, ol) + Stranded(b, f, rows, ol))
  {
    var b' := FulfillmentCanceled(b, f, rows, true);
    forall ol | ol in b.orderLines
      ensures Slack(b', ol) == Slack(b, ol) + Stranded(b, f, rows, ol)
      ensures 0 <= b'.orderLines[ol].fulfilled <= b'.orderLines[ol].quantity && Slack(b', ol) >= 0
    {
      CanceledCount(b, f, rows, true, ol);
      CancelEffect(b, b', f, rows, ol);
    }
  }

  /**
   With the lines listed in a given order, cancelling with restocking keeps the balance of an order line if and only
   if all its units in the fulfillment are on the first listed of its lines: the bulk update writes one subtraction
   only, and the other units stay counted as fulfilled.
   */
  lemma {:induction false} CancelBalancedExactly(b: Books, f: Id, rows: seq<Id>, ol: Id)
    requires Sound(b) && f in Among(b, LIVE) && Lists(b.lines, f, rows) && ol in b.orderLines
    ensures Slack(FulfillmentCanceled(b, f, rows, true), ol) == Slack(b, ol) <==> AllOnFirst(b.lines, rows, ol)
  {
    FulfillmentCanceledSound(b, f, rows);
    StrandedExactly(b, f, rows, ol);
  }

  /** The fulfillment has at most one line of the order line. */
  ghost predicate OneLine(lines: map<Id, Line>, f: Id, ol: Id) {
    forall i, j | RowOf(lines, i, ol) && RowOf(lines, j, ol) && lines[i].fulfillment == f && lines[j].fulfillment == f :: i == j
  }

  /** Every set of lines can be listed. */
  lemma {:induction false} ListingBelow(lines: map<Id, Line>, f: Id, n: nat) returns (rows: seq<Id>)
    requires forall i | i in lines :: i < n
    ensures Lists(lines, f, rows)
  {
    if n == 0 {
      rows := [];
    } else {
      var front := ListingBelow(lines - {n - 1}, f, n - 1);
      if n - 1 in lines && lines[n - 1].fulfillment == f {
        rows := front + [n - 1];
        assert forall i :: i in rows <==> i in front || i == n - 1;
      } else {
        rows := front;
      }
    }
  }

  /** Any of the lines can be listed first. */
  lemma {:induction false} ListingWithFirst(lines: map<Id, Line>, f: Id, first: Id, n: nat) returns (rows: seq<Id>)
    requires (forall i | i in lines :: i < n) && first in lines && lines[first].fulfillment == f
    ensures Lists(lines, f, rows) && rows != [] && rows[0] == first
  {
    var rest := ListingBelow(lines - {first}, f, n);
    rows := [first] + rest;
    assert forall i :: i in rows <==> i == first || i in rest;
  }

  /** Of two lines, one can be listed before a line that holds units. */
  lemma {:induction false} SplitStrands(b: Books, f: Id, ol: Id) returns (rows: seq<Id>)
    requires WellFormed(b) && !OneLine(b.lines, f, ol) && UnitsIn(b, Pick(ol, None, {f})) != 0
    ensures Lists(b.lines, f, rows) && !AllOnFirst(b.lines, rows, ol)
  {
    var any := ListingBelow(b.lines, f, b.nextLine);
    ListedIsTotal(b.lines, f, any, ol, b.nextLine);
    ListedNone(b.lines, any, ol);
    var k :| 0 <= k < |any| && RowOf(b.lines, any[k], ol) && b.lines[any[k]].quantity != 0;
    assert any[k] in any;
    var i, j :| RowOf(b.lines, i, ol) && RowOf(b.lines, j, ol) && b.lines[i].fulfillment == f && b.lines[j].fulfillment == f && i != j;
    var first := if i == any[k] then j else i;
    rows := ListingWithFirst(b.lines, f, first, b.nextLine);
    assert any[k] in rows;
    var m :| 0 <= m < |rows| && rows[m] == any[k];
    assert 0 < m;
  }

  /**
   The database promises no order. Cancelling keeps the balance of an order line in every order of the lines if and
   only if the fulfillment has at most one line of it, or none of its units.
   */
  lemma {:induction false} CancelBalancedInEveryOrder(b: Books, f: Id, ol: Id)
    requires Sound(b) && f in Among(b, LIVE) && ol in b.orderLines
    ensures (forall rows | Lists(b.lines, f, rows) :: Slack(FulfillmentCanceled(b, f, rows, true), ol) == Slack(b, ol))
            <==> OneLine(b.lines, f, ol) || UnitsIn(b, Pick(ol, None, {f})) == 0
  {
    if OneLine(b.lines, f, ol) || UnitsIn(b, Pick(ol, None, {f})) == 0 {
      forall rows | Lists(b.lines, f, rows)
        ensures Slack(FulfillmentCanceled(b, f, rows, true), ol) == Slack(b, ol)
      {
        CancelBalancedExactly(b, f, rows, ol);
        StrandedExactly(b, f, rows, ol);
        if OneLine(b.lines, f, ol) {
          OneLineOnFirst(b.lines, f, rows, ol);
        }
      }
    } else {
      var rows := SplitStrands(b, f, ol);
      CancelBalancedExactly(b, f, rows, ol);
    }
  }

  lemma {:induction false} OneLineOnFirst(lines: map<Id, Line>, f: Id, rows: seq<Id>, ol: Id)
    requires Lists(lines, f, rows) && OneLine(lines, f, ol)
    ensures AllOnFirst(lines, rows, ol)
  {
    assert forall i | 0 <= i < |rows| :: rows[i] in rows;
  }

  /** Cancelling without a warehouse keeps it balanced if and only if the fulfillment holds none of its units. */
  lemma {:induction false} CancelWithoutRestock(b: Books, f: Id, rows: seq<Id>, ol: Id)
    requires Sound(b) && f in Among(b, LIVE) && ol in b.orderLines
    ensures Slack(FulfillmentCanceled(b, f, rows, false), ol) == Slack(b, ol) <==> UnitsIn(b, Pick(ol, None, {f})) == 0
  {
    CanceledCount(b, f, rows, false, ol);
  }
}
