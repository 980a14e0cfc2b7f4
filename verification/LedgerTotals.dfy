/** Units in the ledger: sums over the fulfillment-line table. */
module LedgerTotals {
  import opened Wrappers
  import opened LedgerBooks

  /** The lines of one order line, of one stock or any, in the given fulfillments. */
  datatype Pick = Pick(orderLine: Id, stock: Option<Option<Id>>, among: set<Id>)

  predicate Goods(row: Line, p: Pick) {
    row.orderLine == p.orderLine && (p.stock.Some? ==> row.stock == p.stock.value)
  }

  function Units(row: Line, p: Pick): int {
    if Goods(row, p) && row.fulfillment in p.among then row.quantity else 0
  }

  function UnitsAt(lines: map<Id, Line>, i: Id, p: Pick): int {
    if i in lines then Units(lines[i], p) else 0
  }

  /** Units picked from the lines with ids below `n`. */
  function Total(lines: map<Id, Line>, p: Pick, n: nat): int {
    if n == 0 then 0 else Total(lines, p, n - 1) + UnitsAt(lines, n - 1, p)
  }

  function UnitsIn(b: Books, p: Pick): int {
    Total(b.lines, p, b.nextLine)
  }

  lemma {:induction false} TotalSame(l1: map<Id, Line>, p1: Pick, l2: map<Id, Line>, p2: Pick, n: nat)
    requires forall i: Id | i < n :: UnitsAt(l1, i, p1) == UnitsAt(l2, i, p2)
    ensures Total(l1, p1, n) == Total(l2, p2, n)
  {
    if n > 0 {
      TotalSame(l1, p1, l2, p2, n - 1);
    }
  }

  /** Changing one row changes the total by the difference of that row. */
  lemma {:induction false} TotalOneRow(l1: map<Id, Line>, l2: map<Id, Line>, p: Pick, k: Id, n: nat)
    requires k < n
    requires forall i: Id | i < n && i != k :: UnitsAt(l1, i, p) == UnitsAt(l2, i, p)
    ensures Total(l2, p, n) == Total(l1, p, n) - UnitsAt(l1, k, p) + UnitsAt(l2, k, p)
  {
    if k == n - 1 {
      TotalSame(l1, p, l2, p, n - 1);
    } else {
      TotalOneRow(l1, l2, p, k, n - 1);
    }
  }

  lemma {:induction false} TotalBounds(lines: map<Id, Line>, p: Pick, n: nat)
    requires forall i | i in lines :: lines[i].quantity >= 0
    ensures 0 <= Total(lines, p, n)
    ensures forall i: Id | i < n :: UnitsAt(lines, i, p) <= Total(lines, p, n)
  {
    if n > 0 {
      TotalBounds(lines, p, n - 1);
    }
  }

  lemma {:induction false} TotalMonotone(lines: map<Id, Line>, p: Pick, q: Pick, n: nat)
    requires forall i | i in lines :: lines[i].quantity >= 0
    requires p.orderLine == q.orderLine && p.stock == q.stock && p.among <= q.among
    ensures Total(lines, p, n) <= Total(lines, q, n)
  {
    if n > 0 {
      TotalMonotone(lines, p, q, n - 1);
    }
  }

  lemma {:induction false} NothingThere(lines: map<Id, Line>, ol: Id, f: Id, n: nat)
    requires forall i | i in lines :: lines[i].fulfillment != f
    ensures Total(lines, Pick(ol, None, {f}), n) == 0
  {
    if n > 0 {
      NothingThere(lines, ol, f, n - 1);
    }
  }

  // ---- shape of the tables

  /** Ids are below the counters, lines point at existing rows, quantities are not negative. */
  ghost predicate WellFormed(b: Books) {
    && (forall f | f in b.fulfillments :: f < b.nextFulfillment)
    && (forall i | i in b.lines ::
          i < b.nextLine && b.lines[i].quantity >= 0
          && b.lines[i].fulfillment in b.fulfillments && b.lines[i].orderLine in b.orderLines)
  }

  lemma {:induction false} NewLineUnits(b: Books, row: Line, p: Pick)
    requires forall i | i in b.lines :: i < b.nextLine
    ensures UnitsIn(NewLine(b, row), p) == UnitsIn(b, p) + Units(row, p)
  {
    TotalSame(b.lines, p, NewLine(b, row).lines, p, b.nextLine);
  }

  // ---- moving fulfillment lines

  /** The listed rows are live rows of the target. */
  ghost predicate TargetRows(b: Books, target: Id, inTarget: seq<Id>) {
    forall t | t in inTarget :: t in b.lines && b.lines[t].fulfillment == target
  }

  /** Requests name rows that existed before, none of them in the target. */
  ghost predicate Sources(b: Books, reqs: seq<LineRequest>, target: Id) {
    forall r | r in reqs :: r.line < b.nextLine && (r.line in b.lines ==> b.lines[r.line].fulfillment != target)
  }

  function In(f: Id, among: set<Id>): int {
    if f in among then 1 else 0
  }

  /** Units one request really moves. */
  function MovedBy(b: Books, r: LineRequest): int {
    if r.line in b.lines then Min(b.lines[r.line].quantity, r.quantity) else 0
  }

  function Gain(b: Books, r: LineRequest, target: Id, p: Pick): int {
    if r.line in b.lines && Goods(b.lines[r.line], p)
    then MovedBy(b, r) * (In(target, p.among) - In(b.lines[r.line].fulfillment, p.among))
    else 0
  }

  lemma {:induction false} ReducedUnits(b: Books, r: LineRequest, p: Pick)
    requires WellFormed(b) && r.line in b.lines
    ensures var moved := MovedBy(b, r);
            var left := Reduced(b.lines, r.line, moved);
            && Total(left, p, b.nextLine) == UnitsIn(b, p) - (if Goods(b.lines[r.line], p) then moved * In(b.lines[r.line].fulfillment, p.among) else 0)
            && (forall i | i in left :: i in b.lines && left[i].quantity >= 0 && left[i] == b.lines[i].(quantity := left[i].quantity))
            && (forall i | i in b.lines && i != r.line :: i in left && left[i] == b.lines[i])
            && (r.line in left <==> moved < b.lines[r.line].quantity)
            && (r.line in left ==> left[r.line].quantity == b.lines[r.line].quantity - moved)
  {
    var moved := MovedBy(b, r);
    var left := Reduced(b.lines, r.line, moved);
    TotalOneRow(b.lines, left, p, r.line, b.nextLine);
  }

  /** The row that arriving units merge with, if any, is a row of their fulfillment for the same goods. */
  ghost predicate Mergeable(b: Books, at: Option<Id>, row: Line) {
    at.Some? ==> at.value in b.lines && b.lines[at.value] == row.(quantity := b.lines[at.value].quantity)
  }

  lemma {:induction false} DepositedUnits(b: Books, at: Option<Id>, row: Line, p: Pick)
    requires (forall i | i in b.lines :: i < b.nextLine) && Mergeable(b, at, row) && row.quantity >= 0
    ensures UnitsIn(Deposited(b, at, row), p) == UnitsIn(b, p) + Units(row, p)
  {
    if at.Some? {
      TotalOneRow(b.lines, Deposited(b, at, row).lines, p, at.value, b.nextLine);
    } else {
      NewLineUnits(b, row, p);
    }
  }

  /** After the source row has been reduced, its units can be deposited. */
  lemma {:induction false} ReducedMergeable(b: Books, r: LineRequest, target: Id, inTarget: seq<Id>)
    requires WellFormed(b) && TargetRows(b, target, inTarget) && r.line in b.lines && b.lines[r.line].fulfillment != target
    ensures var src := b.lines[r.line];
            Mergeable(b.(lines := Reduced(b.lines, r.line, MovedBy(b, r))),
                      FindLine(b.lines, inTarget, src.orderLine, src.stock),
                      Line(target, src.orderLine, src.stock, MovedBy(b, r)))
  {
  }

  /** One move shifts exactly the moved units. */
  lemma {:induction false} MoveLineUnits(b: Books, r: LineRequest, target: Id, inTarget: seq<Id>, p: Pick)
    requires WellFormed(b) && target in b.fulfillments && TargetRows(b, target, inTarget) && Sources(b, [r], target)
    ensures UnitsIn(MoveLine(b, r, target, inTarget), p) == UnitsIn(b, p) + Gain(b, r, target, p)
  {
    assert r in [r];
    if r.line in b.lines {
      var src, moved := b.lines[r.line], MovedBy(b, r);
      ReducedUnits(b, r, p);
      ReducedMergeable(b, r, target, inTarget);
      DepositedUnits(b.(lines := Reduced(b.lines, r.line, moved)), FindLine(b.lines, inTarget, src.orderLine, src.stock),
                     Line(target, src.orderLine, src.stock, moved), p);
    }
  }

  /** Depositing touches only rows of the target and gives new rows fresh ids. */
  lemma {:induction false} DepositedShape(b: Books, at: Option<Id>, row: Line)
    requires WellFormed(b) && Mergeable(b, at, row) && row.quantity >= 0
    requires row.fulfillment in b.fulfillments && row.orderLine in b.orderLines
    ensures var b' := Deposited(b, at, row);
            && WellFormed(b')
            && b'.orderLines == b.orderLines && b'.fulfillments == b.fulfillments && b'.nextFulfillment == b.nextFulfillment
            && b.nextLine <= b'.nextLine
            && (forall i | i in b'.lines && b'.lines[i].fulfillment != row.fulfillment :: i in b.lines && b'.lines[i] == b.lines[i])
            && (forall i | i in b.lines ::
                  i in b'.lines && b'.lines[i] == b.lines[i].(quantity := b'.lines[i].quantity)
                  && (b.lines[i].fulfillment != row.fulfillment ==> b'.lines[i] == b.lines[i]))
            && (forall i | i in b'.lines && i < b.nextLine :: i in b.lines)
  {
  }

  /** One move keeps the shape and every row it does not name. */
  lemma {:induction false} MoveLineShape(b: Books, r: LineRequest, target: Id, inTarget: seq<Id>)
    requires WellFormed(b) && target in b.fulfillments && TargetRows(b, target, inTarget) && Sources(b, [r], target)
    ensures var b' := MoveLine(b, r, target, inTarget);
            && WellFormed(b') && TargetRows(b', target, inTarget)
            && b'.orderLines == b.orderLines && b'.fulfillments == b.fulfillments && b'.nextFulfillment == b.nextFulfillment
            && b.nextLine <= b'.nextLine
            && (forall i | i in b'.lines && b'.lines[i].fulfillment != target ::
                  i in b.lines && b'.lines[i] == b.lines[i].(quantity := b'.lines[i].quantity))
            && (forall i | i in b.lines && i != r.line && b.lines[i].fulfillment != target :: i in b'.lines && b'.lines[i] == b.lines[i])
            && (forall i | i in b'.lines && i < b.nextLine :: i in b.lines)
  {
    assert r in [r];
    if r.line in b.lines {
      var src, moved := b.lines[r.line], MovedBy(b, r);
      ReducedUnits(b, r, Pick(0, None, {}));
      ReducedMergeable(b, r, target, inTarget);
      DepositedShape(b.(lines := Reduced(b.lines, r.line, moved)), FindLine(b.lines, inTarget, src.orderLine, src.stock),
                     Line(target, src.orderLine, src.stock, moved));
    }
  }

  lemma {:induction false} SourcesKept(b: Books, reqs: seq<LineRequest>, target: Id, inTarget: seq<Id>)
    requires reqs != [] && WellFormed(b) && target in b.fulfillments && TargetRows(b, target, inTarget) && Sources(b, reqs, target)
    ensures Sources(b, [reqs[0]], target) && Sources(MoveLine(b, reqs[0], target, inTarget), reqs[1..], target)
  {
    assert reqs[0] in reqs;
    MoveLineShape(b, reqs[0], target, inTarget);
    var b' := MoveLine(b, reqs[0], target, inTarget);
    forall r | r in reqs[1..]
      ensures r.line < b'.nextLine && (r.line in b'.lines ==> b'.lines[r.line].fulfillment != target)
    {
      assert r in reqs;
      MoveLineRowKeys(b, reqs[0], target, inTarget, r.line);
    }
  }

  lemma {:induction false} MoveLineRowKeys(b: Books, r: LineRequest, target: Id, inTarget: seq<Id>, i: Id)
    requires WellFormed(b) && TargetRows(b, target, inTarget) && i < b.nextLine
    ensures var b' := MoveLine(b, r, target, inTarget);
            i in b'.lines ==> i in b.lines && b'.lines[i].fulfillment == b.lines[i].fulfillment
                              && b'.lines[i].orderLine == b.lines[i].orderLine && b'.lines[i].stock == b.lines[i].stock
  {
  }

  /** Sum of the gains of the requests, each taken where its turn comes. */
  function Gains(b: Books, reqs: seq<LineRequest>, target: Id, inTarget: seq<Id>, p: Pick): int
    decreases |reqs|
  {
    if reqs == [] then 0
    else Gain(b, reqs[0], target, p) + Gains(MoveLine(b, reqs[0], target, inTarget), reqs[1..], target, inTarget, p)
  }

  lemma {:induction false} MoveLinesUnits(b: Books, reqs: seq<LineRequest>, target: Id, inTarget: seq<Id>, p: Pick)
    requires WellFormed(b) && target in b.fulfillments && TargetRows(b, target, inTarget) && Sources(b, reqs, target)
    ensures UnitsIn(MoveLines(b, reqs, target, inTarget), p) == UnitsIn(b, p) + Gains(b, reqs, target, inTarget, p)
    decreases |reqs|
  {
    if reqs != [] {
      SourcesKept(b, reqs, target, inTarget);
      MoveLineShape(b, reqs[0], target, inTarget);
      MoveLineUnits(b, reqs[0], target, inTarget, p);
      MoveLinesUnits(MoveLine(b, reqs[0], target, inTarget), reqs[1..], target, inTarget, p);
    }
  }

  lemma {:induction false} MoveLinesShape(b: Books, reqs: seq<LineRequest>, target: Id, inTarget: seq<Id>)
    requires WellFormed(b) && target in b.fulfillments && TargetRows(b, target, inTarget) && Sources(b, reqs, target)
    ensures var b' := MoveLines(b, reqs, target, inTarget);
            && WellFormed(b') && TargetRows(b', target, inTarget)
            && b'.orderLines == b.orderLines && b'.fulfillments == b.fulfillments && b'.nextFulfillment == b.nextFulfillment
            && b.nextLine <= b'.nextLine
            && (forall i | i in b'.lines && b'.lines[i].fulfillment != target ::
                  i in b.lines && b'.lines[i] == b.lines[i].(quantity := b'.lines[i].quantity))
            && (forall i | i in b'.lines && i < b.nextLine :: i in b.lines)
    decreases |reqs|
  {
    if reqs != [] {
      SourcesKept(b, reqs, target, inTarget);
      MoveLineShape(b, reqs[0], target, inTarget);
      MoveLinesShape(MoveLine(b, reqs[0], target, inTarget), reqs[1..], target, inTarget);
    }
  }

  /** Requests on other rows leave a row as it is. */
  lemma {:induction false} MoveLinesFrame(b: Books, reqs: seq<LineRequest>, target: Id, inTarget: seq<Id>, i: Id)
    requires WellFormed(b) && target in b.fulfillments && TargetRows(b, target, inTarget) && Sources(b, reqs, target)
    requires i in b.lines && b.lines[i].fulfillment != target && forall r | r in reqs :: r.line != i
    ensures var b' := MoveLines(b, reqs, target, inTarget); i in b'.lines && b'.lines[i] == b.lines[i]
    decreases |reqs|
  {
    if reqs != [] {
      assert reqs[0] in reqs;
      SourcesKept(b, reqs, target, inTarget);
      MoveLineShape(b, reqs[0], target, inTarget);
      assert forall r | r in reqs[1..] :: r in reqs;
      MoveLinesFrame(MoveLine(b, reqs[0], target, inTarget), reqs[1..], target, inTarget, i);
    }
  }

  /** Within one set of fulfillments, or wholly outside it, moving changes no total. */
  lemma {:induction false} GainsWithin(b: Books, reqs: seq<LineRequest>, target: Id, inTarget: seq<Id>, p: Pick)
    requires WellFormed(b) && target in b.fulfillments && TargetRows(b, target, inTarget) && Sources(b, reqs, target)
    requires forall r | r in reqs && r.line in b.lines :: (b.lines[r.line].fulfillment in p.among <==> target in p.among)
    ensures Gains(b, reqs, target, inTarget, p) == 0
    decreases |reqs|
  {
    if reqs != [] {
      assert reqs[0] in reqs;
      SourcesKept(b, reqs, target, inTarget);
      MoveLineShape(b, reqs[0], target, inTarget);
      var b' := MoveLine(b, reqs[0], target, inTarget);
      forall r | r in reqs[1..] && r.line in b'.lines
        ensures b'.lines[r.line].fulfillment in p.among <==> target in p.among
      {
        assert r in reqs;
        MoveLineRowKeys(b, reqs[0], target, inTarget, r.line);
      }
      GainsWithin(b', reqs[1..], target, inTarget, p);
    }
  }

  /**
   Conservation of a move: for every order line and stock, whatever merges, splits, repeats or deletions happen,
   the units over all fulfillments stay the same.
   */
  lemma {:induction false} MoveConserves(b: Books, reqs: seq<LineRequest>, target: Id, inTarget: seq<Id>, orderLine: Id, stock: Option<Id>)
    requires WellFormed(b) && target in b.fulfillments && TargetRows(b, target, inTarget) && Sources(b, reqs, target)
    ensures var p := Pick(orderLine, Some(stock), b.fulfillments.Keys);
            UnitsIn(MoveLines(b, reqs, target, inTarget), p) == UnitsIn(b, p)
  {
    var p := Pick(orderLine, Some(stock), b.fulfillments.Keys);
    MoveLinesUnits(b, reqs, target, inTarget, p);
    GainsWithin(b, reqs, target, inTarget, p);
  }
}
