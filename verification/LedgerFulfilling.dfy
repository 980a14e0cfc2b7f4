/** What fulfilling an order creates, parcel by parcel. */
module LedgerFulfilling {
  import opened Wrappers
  import opened LedgerBooks
  import opened LedgerTotals
  import opened LedgerLazy

  /** Units of the given goods in a parcel. */
  function WantedFrom(ws: seq<Wanted>, ol: Id, stock: Option<Id>): nat {
    if ws == [] then 0
    else (if ws[0].orderLine == ol && ws[0].stock == stock then ws[0].quantity else 0) + WantedFrom(ws[1..], ol, stock)
  }

  /** Units of an order line in all parcels. */
  function WantedInAll(parcels: seq<seq<Wanted>>, ol: Id): nat {
    if parcels == [] then 0 else RequestedOf(parcels[0], ol) + WantedInAll(parcels[1..], ol)
  }

  ghost predicate AllKnown(orderLines: map<Id, OrderLine>, parcels: seq<seq<Wanted>>) {
    forall k | 0 <= k < |parcels| :: Known(orderLines, parcels[k])
  }

  ghost predicate Numbered(b: Books) {
    (forall i | i in b.lines :: i < b.nextLine) && forall f | f in b.fulfillments :: f < b.nextFulfillment
  }

  lemma {:induction false} RequestedConcat(p: seq<Wanted>, q: seq<Wanted>, ol: Id)
    ensures RequestedOf(p + q, ol) == RequestedOf(p, ol) + RequestedOf(q, ol)
  {
    if p == [] {
      assert p + q == q;
    } else {
      RequestedConcat(p[1..], q, ol);
      assert (p + q)[1..] == p[1..] + q;
    }
  }

  lemma {:induction false} FlatAsksAll(parcels: seq<seq<Wanted>>, ol: Id)
    ensures RequestedOf(Flat(parcels), ol) == WantedInAll(parcels, ol)
  {
    if parcels != [] {
      RequestedConcat(parcels[0], Flat(parcels[1..]), ol);
      FlatAsksAll(parcels[1..], ol);
    }
  }

  // ---- one parcel

  /** The goods of a parcel go to new rows of its fulfillment, each with some units; rows from before stay. */
  lemma {:induction false} ParcelRows(b: Books, ws: seq<Wanted>, target: Id)
    requires Known(b.orderLines, ws) && Numbered(b)
    ensures var b' := FulfillAll(b, ws, target);
            && b'.fulfillments == b.fulfillments && b'.nextFulfillment == b.nextFulfillment && b.nextLine <= b'.nextLine && Numbered(b')
            && b'.orderLines.Keys == b.orderLines.Keys
            && (forall i | i in b.lines :: i in b'.lines && b'.lines[i] == b.lines[i])
            && (forall i | i in b'.lines && i !in b.lines :: b'.lines[i].fulfillment == target && b'.lines[i].quantity > 0)
    decreases |ws|
  {
    if ws != [] {
      assert forall k | 0 <= k < |ws[1..]| :: ws[1..][k] == ws[k + 1];
      ParcelRows(FulfillOne(b, ws[0], target), ws[1..], target);
    }
  }

  lemma {:induction false} ParcelUnits(b: Books, ws: seq<Wanted>, target: Id, ol: Id, stock: Option<Id>, f: Id)
    requires Known(b.orderLines, ws) && Numbered(b)
    ensures UnitsIn(FulfillAll(b, ws, target), Pick(ol, Some(stock), {f})) ==
            UnitsIn(b, Pick(ol, Some(stock), {f})) + (if f == target then WantedFrom(ws, ol, stock) else 0)
    decreases |ws|
  {
    if ws != [] {
      var w, p := ws[0], Pick(ol, Some(stock), {f});
      assert forall k | 0 <= k < |ws[1..]| :: ws[1..][k] == ws[k + 1];
      ParcelUnits(FulfillOne(b, w, target), ws[1..], target, ol, stock, f);
      if w.quantity > 0 {
        assert w.orderLine in b.orderLines;
        var row := b.orderLines[w.orderLine];
        NewLineUnits(b.(orderLines := b.orderLines[w.orderLine := row.(fulfilled := row.fulfilled + w.quantity)]),
                     Line(target, w.orderLine, w.stock, w.quantity), p);
      }
    }
  }

  lemma {:induction false} ParcelFulfills(b: Books, ws: seq<Wanted>, target: Id, ol: Id)
    requires ol in b.orderLines
    ensures var b' := FulfillAll(b, ws, target);
            ol in b'.orderLines && b'.orderLines[ol] == b.orderLines[ol].(fulfilled := b.orderLines[ol].fulfilled + RequestedOf(ws, ol))
    decreases |ws|
  {
    if ws != [] {
      ParcelFulfills(FulfillOne(b, ws[0], target), ws[1..], target, ol);
    }
  }

  // ---- all parcels

  lemma {:induction false} ParcelsFulfill(b: Books, parcels: seq<seq<Wanted>>, st: Status, ol: Id)
    requires ol in b.orderLines
    ensures var b' := FulfillParcels(b, parcels, st);
            ol in b'.orderLines && b'.orderLines[ol] == b.orderLines[ol].(fulfilled := b.orderLines[ol].fulfilled + WantedInAll(parcels, ol))
    decreases |parcels|
  {
    if parcels != [] {
      var b1 := NewFulfillment(b, st, None);
      ParcelFulfills(b1, parcels[0], b.nextFulfillment, ol);
      ParcelsFulfill(FulfillAll(b1, parcels[0], b.nextFulfillment), parcels[1..], st, ol);
    }
  }

  /** The books after the first parcel. */
  function First(b: Books, parcels: seq<seq<Wanted>>, st: Status): Books
    requires parcels != []
  {
    FulfillAll(NewFulfillment(b, st, None), parcels[0], b.nextFulfillment)
  }

  lemma {:induction false} FirstRows(b: Books, parcels: seq<seq<Wanted>>, st: Status)
    requires parcels != [] && AllKnown(b.orderLines, parcels) && Numbered(b)
    ensures var b1 := First(b, parcels, st);
            && b1.fulfillments == b.fulfillments[b.nextFulfillment := Fulfillment(st, None)] && b1.nextFulfillment == b.nextFulfillment + 1
            && Numbered(b1) && AllKnown(b1.orderLines, parcels[1..])
            && (forall i | i in b.lines :: i in b1.lines && b1.lines[i] == b.lines[i])
            && (forall i | i in b1.lines && i !in b.lines :: b1.lines[i].fulfillment == b.nextFulfillment && b1.lines[i].quantity > 0)
  {
    var b0 := NewFulfillment(b, st, None);
    assert Known(b0.orderLines, parcels[0]);
    ParcelRows(b0, parcels[0], b.nextFulfillment);
    forall k | 0 <= k < |parcels[1..]|
      ensures Known(First(b, parcels, st).orderLines, parcels[1..][k])
    {
      assert Known(b.orderLines, parcels[k + 1]);
    }
  }

  /** One new fulfillment for each parcel, with the given status; new rows hold some units; nothing from before changes. */
  lemma {:induction false} ParcelsCreate(b: Books, parcels: seq<seq<Wanted>>, st: Status)
    requires AllKnown(b.orderLines, parcels) && Numbered(b)
    ensures var b' := FulfillParcels(b, parcels, st);
            && b'.nextFulfillment == b.nextFulfillment + |parcels|
            && (forall f :: f in b'.fulfillments <==> f in b.fulfillments || b.nextFulfillment <= f < b.nextFulfillment + |parcels|)
            && (forall f | f in b.fulfillments :: b'.fulfillments[f] == b.fulfillments[f])
            && (forall f | b.nextFulfillment <= f < b.nextFulfillment + |parcels| :: b'.fulfillments[f] == Fulfillment(st, None))
    decreases |parcels|
  {
    if parcels != [] {
      FirstRows(b, parcels, st);
      ParcelsCreate(First(b, parcels, st), parcels[1..], st);
    }
  }

  lemma {:induction false} ParcelsKeepRows(b: Books, parcels: seq<seq<Wanted>>, st: Status)
    requires AllKnown(b.orderLines, parcels) && Numbered(b)
    ensures var b' := FulfillParcels(b, parcels, st);
            && (forall i | i in b.lines :: i in b'.lines && b'.lines[i] == b.lines[i])
            && (forall i | i in b'.lines && i !in b.lines :: b'.lines[i].fulfillment >= b.nextFulfillment && b'.lines[i].quantity > 0)
    decreases |parcels|
  {
    if parcels != [] {
      FirstRows(b, parcels, st);
      ParcelsKeepRows(First(b, parcels, st), parcels[1..], st);
    }
  }

  /** Later parcels leave the fulfillments of the earlier ones as they are. */
  lemma {:induction false} ParcelsLeave(b: Books, parcels: seq<seq<Wanted>>, st: Status, ol: Id, stock: Option<Id>, f: Id)
    requires AllKnown(b.orderLines, parcels) && Numbered(b) && f < b.nextFulfillment
    ensures UnitsIn(FulfillParcels(b, parcels, st), Pick(ol, Some(stock), {f})) == UnitsIn(b, Pick(ol, Some(stock), {f}))
    decreases |parcels|
  {
    if parcels != [] {
      var b0 := NewFulfillment(b, st, None);
      FirstRows(b, parcels, st);
      assert Known(b0.orderLines, parcels[0]);
      ParcelUnits(b0, parcels[0], b.nextFulfillment, ol, stock, f);
      ParcelsLeave(First(b, parcels, st), parcels[1..], st, ol, stock, f);
    }
  }

  /** The fulfillment of the k-th parcel holds exactly the goods of that parcel. */
  lemma {:induction false} ParcelHolds(b: Books, parcels: seq<seq<Wanted>>, st: Status, k: nat, ol: Id, stock: Option<Id>)
    requires AllKnown(b.orderLines, parcels) && Numbered(b) && k < |parcels|
    requires forall i | i in b.lines :: b.lines[i].fulfillment < b.nextFulfillment
    ensures UnitsIn(FulfillParcels(b, parcels, st), Pick(ol, Some(stock), {b.nextFulfillment + k})) == WantedFrom(parcels[k], ol, stock)
    decreases |parcels|
  {
    var b0, b1 := NewFulfillment(b, st, None), First(b, parcels, st);
    FirstRows(b, parcels, st);
    if k == 0 {
      assert Known(b0.orderLines, parcels[0]);
      ParcelUnits(b0, parcels[0], b.nextFulfillment, ol, stock, b.nextFulfillment);
      NothingYet(b0, ol, stock, b.nextFulfillment, b0.nextLine);
      ParcelsLeave(b1, parcels[1..], st, ol, stock, b.nextFulfillment);
    } else {
      ParcelHolds(b1, parcels[1..], st, k - 1, ol, stock);
    }
  }

  lemma {:induction false} NothingYet(b: Books, ol: Id, stock: Option<Id>, f: Id, n: nat)
    requires forall i | i in b.lines :: b.lines[i].fulfillment != f
    ensures Total(b.lines, Pick(ol, Some(stock), {f}), n) == 0
  {
    if n > 0 {
      NothingYet(b, ol, stock, f, n - 1);
    }
  }

  // ---- when it goes through

  /** Nothing is asked for beyond what is unfulfilled; goods have a stock, and stocks that are decreased hold them. */
  ghost predicate GoesThrough(b: Books, parcels: seq<seq<Wanted>>, autoApproved: bool, allowExceeded: bool, holds: Holds) {
    && (forall ol | ol in b.orderLines :: b.orderLines[ol].fulfilled + WantedInAll(parcels, ol) <= b.orderLines[ol].quantity)
    && (!allowExceeded ==> forall k, j | 0 <= k < |parcels| && 0 <= j < |parcels[k]| && parcels[k][j].quantity > 0 :: parcels[k][j].stock.Some?)
    && (autoApproved && !allowExceeded ==>
          forall k | 0 <= k < |parcels| :: holds(parcels[k]) || forall j | 0 <= j < |parcels[k]| :: parcels[k][j].quantity == 0)
  }

  lemma {:induction false} StocksKnownInAll(parcels: seq<seq<Wanted>>)
    ensures StocksKnown(Flat(parcels), false) <==>
            forall k, j | 0 <= k < |parcels| && 0 <= j < |parcels[k]| && parcels[k][j].quantity > 0 :: parcels[k][j].stock.Some?
  {
    if parcels != [] {
      StocksKnownConcat(parcels[0], Flat(parcels[1..]), false);
      StocksKnownInAll(parcels[1..]);
      assert forall k | 0 <= k < |parcels[1..]| :: parcels[1..][k] == parcels[k + 1];
      assert forall k | 0 < k < |parcels| :: parcels[k] == parcels[1..][k - 1];
    }
  }

  lemma {:induction false} StocksHoldInAll(parcels: seq<seq<Wanted>>, allowExceeded: bool, holds: Holds)
    ensures StocksHold(parcels, allowExceeded, holds) <==>
            allowExceeded
            || forall k | 0 <= k < |parcels| :: holds(parcels[k]) || forall j | 0 <= j < |parcels[k]| :: parcels[k][j].quantity == 0
  {
    if parcels != [] {
      StocksHoldInAll(parcels[1..], allowExceeded, holds);
      assert forall k | 0 <= k < |parcels[1..]| :: parcels[1..][k] == parcels[k + 1];
      assert forall k | 0 < k < |parcels| :: parcels[k] == parcels[1..][k - 1];
    }
  }

  lemma {:induction false} QuantitiesFitInAll(b: Books, parcels: seq<seq<Wanted>>)
    ensures QuantitiesFit(b, parcels) <==>
            forall ol | ol in b.orderLines :: b.orderLines[ol].fulfilled + WantedInAll(parcels, ol) <= b.orderLines[ol].quantity
  {
    forall ol | ol in b.orderLines
      ensures RequestedOf(Flat(parcels), ol) == WantedInAll(parcels, ol)
    {
      FlatAsksAll(parcels, ol);
    }
  }

  lemma {:induction false} CreatedWhen(b: Books, parcels: seq<seq<Wanted>>, autoApproved: bool, allowExceeded: bool, holds: Holds)
    ensures var st := if autoApproved then Fulfilled else WaitingForApproval;
            Created(b, parcels, autoApproved, allowExceeded, holds) ==
            if GoesThrough(b, parcels, autoApproved, allowExceeded, holds) then FulfillParcels(b, parcels, st) else b
  {
    QuantitiesFitInAll(b, parcels);
    StocksKnownInAll(parcels);
    StocksHoldInAll(parcels, allowExceeded, holds);
  }

  /**
   Fulfilling an order. When a quantity does not fit or a stock is missing, nothing changes. Otherwise every parcel has
   a fulfillment of its own, FULFILLED or WAITING_FOR_APPROVAL, nothing from before changes, and each order line is
   fulfilled by what all parcels ask of it.
   */
  lemma {:induction false} CreatedExactly(b: Books, parcels: seq<seq<Wanted>>, autoApproved: bool, allowExceeded: bool, holds: Holds)
    requires AllKnown(b.orderLines, parcels) && WellFormed(b)
    ensures var b', n := Created(b, parcels, autoApproved, allowExceeded, holds), b.nextFulfillment;
            if !GoesThrough(b, parcels, autoApproved, allowExceeded, holds) then b' == b
            else
              && (forall f :: f in b'.fulfillments <==> f in b.fulfillments || n <= f < n + |parcels|)
              && (forall f | f in b.fulfillments :: b'.fulfillments[f] == b.fulfillments[f])
              && (forall f | n <= f < n + |parcels| ::
                    b'.fulfillments[f] == Fulfillment(if autoApproved then Fulfilled else WaitingForApproval, None))
              && (forall i | i in b.lines :: i in b'.lines && b'.lines[i] == b.lines[i])
              && (forall i | i in b'.lines && i !in b.lines :: b'.lines[i].fulfillment >= n && b'.lines[i].quantity > 0)
  {
    var st := if autoApproved then Fulfilled else WaitingForApproval;
    CreatedWhen(b, parcels, autoApproved, allowExceeded, holds);
    ParcelsCreate(b, parcels, st);
    ParcelsKeepRows(b, parcels, st);
  }

  /** The k-th new fulfillment holds exactly the goods of the k-th parcel, by order line and stock. */
  lemma {:induction false} CreatedHolds(b: Books, parcels: seq<seq<Wanted>>, autoApproved: bool, allowExceeded: bool, holds: Holds, k: nat, ol: Id, stock: Option<Id>)
    requires AllKnown(b.orderLines, parcels) && WellFormed(b) && GoesThrough(b, parcels, autoApproved, allowExceeded, holds)
    requires k < |parcels| && ol in b.orderLines
    ensures var b' := Created(b, parcels, autoApproved, allowExceeded, holds);
            && UnitsIn(b', Pick(ol, Some(stock), {b.nextFulfillment + k})) == WantedFrom(parcels[k], ol, stock)
            && ol in b'.orderLines
            && b'.orderLines[ol] == b.orderLines[ol].(fulfilled := b.orderLines[ol].fulfilled + WantedInAll(parcels, ol))
  {
    var st := if autoApproved then Fulfilled else WaitingForApproval;
    CreatedWhen(b, parcels, autoApproved, allowExceeded, holds);
    assert forall i | i in b.lines :: b.lines[i].fulfillment < b.nextFulfillment;
    ParcelHolds(b, parcels, st, k, ol, stock);
    ParcelsFulfill(b, parcels, st, ol);
  }
}
