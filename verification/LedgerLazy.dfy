/** Deferred writes: rows are created and deleted in bulk at the end, and the result is as if each write were immediate. */
module LedgerLazy {
  import opened Wrappers
  import opened LedgerBooks
  import opened LedgerTotals

  /** The tables after creating the given rows in order. */
  function WithNew(b: Books, rows: seq<Line>): Books
    decreases |rows|
  {
    if rows == [] then b else WithNew(NewLine(b, rows[0]), rows[1..])
  }

  lemma {:induction false} WithNewSnoc(b: Books, rows: seq<Line>, row: Line)
    ensures WithNew(b, rows + [row]) == NewLine(WithNew(b, rows), row)
    decreases |rows|
  {
    if rows == [] {
      assert rows + [row] == [row];
      assert [row][1..] == [];
    } else {
      WithNewSnoc(NewLine(b, rows[0]), rows[1..], row);
      assert (rows + [row])[1..] == rows[1..] + [row];
      assert (rows + [row])[0] == rows[0];
    }
  }

  lemma {:induction false} WithNewConcat(b: Books, p: seq<Line>, q: seq<Line>)
    ensures WithNew(b, p + q) == WithNew(WithNew(b, p), q)
    decreases |p|
  {
    if p == [] {
      assert p + q == q;
    } else {
      WithNewConcat(NewLine(b, p[0]), p[1..], q);
      assert (p + q)[1..] == p[1..] + q;
    }
  }

  lemma {:induction false} WithNewOrder(b: Books, rows: seq<Line>, orderLines: map<Id, OrderLine>)
    ensures WithNew(b.(orderLines := orderLines), rows) == WithNew(b, rows).(orderLines := orderLines)
    ensures WithNew(b, rows).orderLines == b.orderLines && WithNew(b, rows).fulfillments == b.fulfillments
    ensures WithNew(b, rows).nextFulfillment == b.nextFulfillment && WithNew(b, rows).nextLine == b.nextLine + |rows|
    decreases |rows|
  {
    if rows != [] {
      WithNewOrder(NewLine(b, rows[0]), rows[1..], orderLines);
      assert NewLine(b.(orderLines := orderLines), rows[0]) == NewLine(b, rows[0]).(orderLines := orderLines);
    }
  }

  lemma {:induction false} WithNewFulfillments(b: Books, rows: seq<Line>, fs: map<Id, Fulfillment>, n: nat)
    ensures WithNew(b.(fulfillments := fs, nextFulfillment := n), rows) == WithNew(b, rows).(fulfillments := fs, nextFulfillment := n)
    decreases |rows|
  {
    if rows != [] {
      WithNewFulfillments(NewLine(b, rows[0]), rows[1..], fs, n);
      assert NewLine(b.(fulfillments := fs, nextFulfillment := n), rows[0]) == NewLine(b, rows[0]).(fulfillments := fs, nextFulfillment := n);
    }
  }

  lemma {:induction false} WithNewRow(b: Books, rows: seq<Line>, k: Id, row: Line)
    requires k < b.nextLine
    ensures WithNew(b.(lines := b.lines[k := row]), rows) == WithNew(b, rows).(lines := WithNew(b, rows).lines[k := row])
    ensures k in WithNew(b, rows).lines <==> k in b.lines
    ensures k in b.lines ==> WithNew(b, rows).lines[k] == b.lines[k]
    decreases |rows|
  {
    if rows != [] {
      var b1 := NewLine(b, rows[0]);
      WithNewRow(b1, rows[1..], k, row);
      assert NewLine(b.(lines := b.lines[k := row]), rows[0]) == b1.(lines := b1.lines[k := row]);
    }
  }

  lemma {:induction false} FindLineSame(l1: map<Id, Line>, l2: map<Id, Line>, ids: seq<Id>, ol: Id, stock: Option<Id>)
    requires forall t | t in ids :: t in l1 && t in l2 && l1[t].orderLine == l2[t].orderLine && l1[t].stock == l2[t].stock
    ensures FindLine(l1, ids, ol, stock) == FindLine(l2, ids, ol, stock)
  {
    if ids != [] {
      FindLineSame(l1, l2, ids[1..], ol, stock);
    }
  }

  predicate IsFor(lines: map<Id, Line>, i: Id, orderLine: Id, stock: Option<Id>) {
    i in lines && lines[i].orderLine == orderLine && lines[i].stock == stock
  }

  ghost predicate FirstHolding(lines: map<Id, Line>, ids: seq<Id>, orderLine: Id, stock: Option<Id>, k: nat) {
    k < |ids| && IsFor(lines, ids[k], orderLine, stock) && forall j | 0 <= j < k :: !IsFor(lines, ids[j], orderLine, stock)
  }

  /** The look-up finds the first listed line for the goods, and finds none only if there is none. */
  lemma {:induction false} FindLineIsFirst(lines: map<Id, Line>, ids: seq<Id>, orderLine: Id, stock: Option<Id>)
    ensures var r := FindLine(lines, ids, orderLine, stock);
            && (r.None? <==> forall i | i in ids :: !IsFor(lines, i, orderLine, stock))
            && (r.Some? ==> exists k | 0 <= k < |ids| :: ids[k] == r.value && FirstHolding(lines, ids, orderLine, stock, k))
  {
    if ids != [] {
      var t := ids[1..];
      assert ids[0] in ids;
      if IsFor(lines, ids[0], orderLine, stock) {
        assert FirstHolding(lines, ids, orderLine, stock, 0);
      } else {
        FindLineIsFirst(lines, t, orderLine, stock);
        var r := FindLine(lines, t, orderLine, stock);
        if r.Some? {
          var k :| 0 <= k < |t| && t[k] == r.value && FirstHolding(lines, t, orderLine, stock, k);
          FirstHoldingNext(lines, ids, orderLine, stock, k);
        }
      }
    }
  }

  lemma {:induction false} FirstHoldingNext(lines: map<Id, Line>, ids: seq<Id>, orderLine: Id, stock: Option<Id>, k: nat)
    requires ids != [] && !IsFor(lines, ids[0], orderLine, stock) && FirstHolding(lines, ids[1..], orderLine, stock, k)
    ensures FirstHolding(lines, ids, orderLine, stock, k + 1) && ids[k + 1] == ids[1..][k]
  {
    forall j | 0 <= j < k + 1
      ensures !IsFor(lines, ids[j], orderLine, stock)
    {
      assert j > 0 ==> ids[j] == ids[1..][j - 1];
    }
  }

  function Without(b: Books, gone: set<Id>): Books {
    b.(lines := b.lines - gone)
  }

  /** One move that leaves an emptied row in place, to be deleted later. */
  function LazyMove(w: Books, r: LineRequest, target: Id, inTarget: seq<Id>): Books
    requires r.line in w.lines
  {
    var src := w.lines[r.line];
    var moved := Min(src.quantity, r.quantity);
    Deposited(w.(lines := w.lines[r.line := src.(quantity := src.quantity - moved)]),
              FindLine(w.lines, inTarget, src.orderLine, src.stock), Line(target, src.orderLine, src.stock, moved))
  }

  function LazyGone(w: Books, r: LineRequest, gone: set<Id>): set<Id>
    requires r.line in w.lines
  {
    if w.lines[r.line].quantity == Min(w.lines[r.line].quantity, r.quantity) then gone + {r.line} else gone
  }

  /** What the deferred form keeps: rows to delete are empty, are not rows of the target, and new rows have later ids. */
  ghost predicate LazyState(w: Books, gone: set<Id>, target: Id, inTarget: seq<Id>, n: nat) {
    && (forall i | i in w.lines :: i < w.nextLine && w.lines[i].quantity >= 0)
    && (forall i | i in gone :: i in w.lines && i < n && w.lines[i].quantity == 0)
    && (forall t | t in inTarget :: t in w.lines && t !in gone && t < n && w.lines[t].fulfillment == target)
    && n <= w.nextLine
  }

  /** The deferred move is the immediate one up to the rows still to be deleted. */
  lemma {:induction false} LazyMoveIsMove(w: Books, r: LineRequest, target: Id, inTarget: seq<Id>, gone: set<Id>, n: nat)
    requires LazyState(w, gone, target, inTarget, n) && r.line in w.lines && r.line !in inTarget && r.line !in gone
    ensures MoveLine(Without(w, gone), r, target, inTarget) == Without(LazyMove(w, r, target, inTarget), LazyGone(w, r, gone))
  {
    var src := w.lines[r.line];
    FindLineSame(w.lines, Without(w, gone).lines, inTarget, src.orderLine, src.stock);
    FoundAmong(w.lines, inTarget, src.orderLine, src.stock);
    var moved := Min(src.quantity, r.quantity);
    LazyDeposit(w, r.line, moved, FindLine(w.lines, inTarget, src.orderLine, src.stock), Line(target, src.orderLine, src.stock, moved), gone);
  }

  /** Reducing a row and depositing its units, with the emptied row gone or still to be deleted. */
  lemma {:induction false} LazyDeposit(w: Books, i: Id, moved: int, at: Option<Id>, row: Line, gone: set<Id>)
    requires i in w.lines && i !in gone && i < w.nextLine && w.nextLine !in gone
    requires at.Some? ==> at.value in w.lines && at.value !in gone && at.value != i
    ensures var gone' := if w.lines[i].quantity == moved then gone + {i} else gone;
            Deposited(Without(w, gone).(lines := Reduced(w.lines - gone, i, moved)), at, row) ==
            Without(Deposited(w.(lines := w.lines[i := w.lines[i].(quantity := w.lines[i].quantity - moved)]), at, row), gone')
  {
    var gone' := if w.lines[i].quantity == moved then gone + {i} else gone;
    var w1 := w.(lines := w.lines[i := w.lines[i].(quantity := w.lines[i].quantity - moved)]);
    ReducedWithout(w.lines, i, moved, gone);
    DepositedWithout(w1, at, row, gone');
  }

  lemma {:induction false} FoundAmong(lines: map<Id, Line>, ids: seq<Id>, orderLine: Id, stock: Option<Id>)
    ensures FindLine(lines, ids, orderLine, stock).Some? ==> FindLine(lines, ids, orderLine, stock).value in ids
  {
  }

  lemma {:induction false} ReducedWithout(lines: map<Id, Line>, i: Id, moved: int, gone: set<Id>)
    requires i in lines && i !in gone
    ensures Reduced(lines - gone, i, moved) ==
            lines[i := lines[i].(quantity := lines[i].quantity - moved)] - (if lines[i].quantity == moved then gone + {i} else gone)
  {
  }

  lemma {:induction false} DepositedWithout(w: Books, at: Option<Id>, row: Line, gone: set<Id>)
    requires at.Some? ==> at.value in w.lines && at.value !in gone
    requires w.nextLine !in gone
    ensures Deposited(Without(w, gone), at, row) == Without(Deposited(w, at, row), gone)
  {
    if at.Some? {
      var t := at.value;
      assert (w.lines - gone)[t := w.lines[t].(quantity := w.lines[t].quantity + row.quantity)]
          == w.lines[t := w.lines[t].(quantity := w.lines[t].quantity + row.quantity)] - gone;
    } else {
      assert (w.lines - gone)[w.nextLine := row] == w.lines[w.nextLine := row] - gone;
    }
  }

  /** A row that was emptied before moves nothing more. */
  lemma {:induction false} LazyMoveOfEmpty(w: Books, r: LineRequest, target: Id, inTarget: seq<Id>, gone: set<Id>, n: nat)
    requires LazyState(w, gone, target, inTarget, n) && r.line in gone
    ensures LazyMove(w, r, target, inTarget) == w && LazyGone(w, r, gone) == gone
    ensures MoveLine(Without(w, gone), r, target, inTarget) == Without(w, gone)
  {
    var src := w.lines[r.line];
    assert w.lines[r.line := src.(quantity := src.quantity - 0)] == w.lines;
    match FindLine(w.lines, inTarget, src.orderLine, src.stock)
    case Some(t) => assert w.lines[t := w.lines[t].(quantity := w.lines[t].quantity + 0)] == w.lines;
    case None =>
  }

  lemma {:induction false} LazyStateKept(w: Books, r: LineRequest, target: Id, inTarget: seq<Id>, gone: set<Id>, n: nat)
    requires LazyState(w, gone, target, inTarget, n) && r.line < n && r.line in w.lines && r.line !in inTarget
    ensures LazyState(LazyMove(w, r, target, inTarget), LazyGone(w, r, gone), target, inTarget, n)
  {
  }

  /** One turn of the deferred loop, seen from the immediate one. */
  lemma {:induction false} LazyTurn(w: Books, reqs: seq<LineRequest>, target: Id, inTarget: seq<Id>, gone: set<Id>, n: nat)
    requires reqs != [] && LazyState(w, gone, target, inTarget, n) && reqs[0].line < n && reqs[0].line !in inTarget
    ensures reqs[0].line !in w.lines ==>
              MoveLines(Without(w, gone), reqs[1..], target, inTarget) == MoveLines(Without(w, gone), reqs, target, inTarget)
    ensures reqs[0].line in w.lines ==>
              var w', gone' := LazyMove(w, reqs[0], target, inTarget), LazyGone(w, reqs[0], gone);
              && LazyState(w', gone', target, inTarget, n)
              && MoveLines(Without(w', gone'), reqs[1..], target, inTarget) == MoveLines(Without(w, gone), reqs, target, inTarget)
  {
    var r := reqs[0];
    if r.line in w.lines {
      LazyStateKept(w, r, target, inTarget, gone, n);
      if r.line in gone {
        LazyMoveOfEmpty(w, r, target, inTarget, gone, n);
      } else {
        LazyMoveIsMove(w, r, target, inTarget, gone, n);
      }
    }
  }

  /** The tables are well formed and the requests name old rows outside the target: nothing is deferred yet. */
  lemma {:induction false} LazyStart(b: Books, reqs: seq<LineRequest>, target: Id, inTarget: seq<Id>)
    requires WellFormed(b) && TargetRows(b, target, inTarget) && Sources(b, reqs, target)
    ensures LazyState(b, {}, target, inTarget, b.nextLine) && Without(b, {}) == b
    ensures forall r | r in reqs :: r.line < b.nextLine && r.line !in inTarget
  {
    assert b.lines - {} == b.lines;
  }

  // ---- creating fulfillment lines: rows first, then the order lines

  function RowsOf(ws: seq<Wanted>, target: Id): seq<Line> {
    if ws == [] then []
    else (if ws[0].quantity > 0 then [Line(target, ws[0].orderLine, ws[0].stock, ws[0].quantity)] else []) + RowsOf(ws[1..], target)
  }

  function Increased(orderLines: map<Id, OrderLine>, ws: seq<Wanted>): map<Id, OrderLine>
    decreases |ws|
  {
    if ws == [] then orderLines
    else
      Increased(if ws[0].quantity > 0 && ws[0].orderLine in orderLines
                then orderLines[ws[0].orderLine := orderLines[ws[0].orderLine].(fulfilled := orderLines[ws[0].orderLine].fulfilled + ws[0].quantity)]
                else orderLines, ws[1..])
  }

  ghost predicate Known(orderLines: map<Id, OrderLine>, ws: seq<Wanted>) {
    forall i | 0 <= i < |ws| :: ws[i].orderLine in orderLines
  }

  /** Every order line is raised by all that is requested for it, in however many requests. */
  lemma {:induction false} IncreasedByRequests(orderLines: map<Id, OrderLine>, ws: seq<Wanted>)
    ensures Increased(orderLines, ws).Keys == orderLines.Keys
    ensures forall ol | ol in orderLines ::
              Increased(orderLines, ws)[ol] == orderLines[ol].(fulfilled := orderLines[ol].fulfilled + RequestedOf(ws, ol))
    decreases |ws|
  {
    if ws != [] {
      var w := ws[0];
      var next := if w.quantity > 0 && w.orderLine in orderLines
                  then orderLines[w.orderLine := orderLines[w.orderLine].(fulfilled := orderLines[w.orderLine].fulfilled + w.quantity)]
                  else orderLines;
      IncreasedByRequests(next, ws[1..]);
    }
  }

  /** Collecting the rows and then raising the order lines comes to the same as doing both line by line. */
  lemma {:induction false} FulfillAllInTwoPasses(b: Books, ws: seq<Wanted>, target: Id)
    requires Known(b.orderLines, ws)
    ensures FulfillAll(b, ws, target) == WithNew(b, RowsOf(ws, target)).(orderLines := Increased(b.orderLines, ws))
    ensures Increased(b.orderLines, ws).Keys == b.orderLines.Keys
    decreases |ws|
  {
    if ws != [] {
      var w, b1 := ws[0], FulfillOne(b, ws[0], target);
      assert w.orderLine in b.orderLines;
      assert b1.orderLines.Keys == b.orderLines.Keys;
      assert forall i | 0 <= i < |ws[1..]| :: ws[1..][i] == ws[i + 1];
      FulfillAllInTwoPasses(b1, ws[1..], target);
      var rest := RowsOf(ws[1..], target);
      WithNewOrder(b1, rest, Increased(b.orderLines, ws));
      if w.quantity > 0 {
        var row := Line(target, w.orderLine, w.stock, w.quantity);
        assert ([row] + rest)[1..] == rest;
        assert b1 == NewLine(b, row).(orderLines := b1.orderLines);
        WithNewOrder(NewLine(b, row), rest, b1.orderLines);
      } else {
        assert [] + rest == rest;
      }
    }
  }

  lemma {:induction false} StocksKnownConcat(p: seq<Wanted>, q: seq<Wanted>, allowExceeded: bool)
    ensures StocksKnown(p + q, allowExceeded) <==> StocksKnown(p, allowExceeded) && StocksKnown(q, allowExceeded)
  {
    var s := p + q;
    assert forall i | 0 <= i < |p| :: s[i] == p[i];
    assert forall i | |p| <= i < |s| :: s[i] == q[i - |p|];
    if StocksKnown(s, allowExceeded) && !allowExceeded {
      forall i | 0 <= i < |q|
        ensures q[i].quantity > 0 ==> q[i].stock.Some?
      {
        assert s[|p| + i] == q[i];
      }
    }
  }

  lemma {:induction false} StocksKnownSnoc(ws: seq<Wanted>, i: nat, allowExceeded: bool)
    requires i < |ws|
    ensures StocksKnown(ws[..i + 1], allowExceeded) <==>
            StocksKnown(ws[..i], allowExceeded) && (allowExceeded || (ws[i].quantity > 0 ==> ws[i].stock.Some?))
  {
    var s := ws[..i + 1];
    assert s[i] == ws[i] && forall j | 0 <= j < i :: s[j] == ws[..i][j];
  }
}
