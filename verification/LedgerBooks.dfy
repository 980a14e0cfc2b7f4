/**
 saleor/order/actions.py: the rows of one order's fulfillment ledger and what each action does to them.
 Rows live in tables keyed by id; ids are handed out in increasing order.
 */
module LedgerBooks {
  import opened Wrappers

  type Id = nat

  datatype Status =
    | Fulfilled
    | Refunded
    | Returned
    | RefundedAndReturned
    | Replaced
    | Canceled
    | WaitingForApproval

  datatype OrderLine = OrderLine(quantity: int, fulfilled: int, price: nat)

  datatype Fulfillment = Fulfillment(status: Status, totalRefund: Option<nat>)

  datatype Line = Line(fulfillment: Id, orderLine: Id, stock: Option<Id>, quantity: int)

  datatype Books = Books(
    orderLines: map<Id, OrderLine>,
    fulfillments: map<Id, Fulfillment>,
    lines: map<Id, Line>,
    nextFulfillment: nat,
    nextLine: nat)

  /** Units asked for straight from an order line, or from a fulfillment line. */
  datatype OrderRequest = OrderRequest(line: Id, quantity: nat, replace: bool)
  datatype LineRequest = LineRequest(line: Id, quantity: nat, replace: bool)

  function NewFulfillment(b: Books, status: Status, totalRefund: Option<nat>): Books {
    b.(fulfillments := b.fulfillments[b.nextFulfillment := Fulfillment(status, totalRefund)],
       nextFulfillment := b.nextFulfillment + 1)
  }

  function NewLine(b: Books, row: Line): Books {
    b.(lines := b.lines[b.nextLine := row], nextLine := b.nextLine + 1)
  }

  // ---- moving units

  /** Units of an order line that are not fulfilled yet go to a new line of the target fulfillment. */
  function AddOrderLine(b: Books, r: OrderRequest, target: Id): Books {
    if r.line !in b.orderLines then b
    else
      var row := b.orderLines[r.line];
      var moved := Min(row.quantity - row.fulfilled, r.quantity);
      NewLine(b.(orderLines := b.orderLines[r.line := row.(fulfilled := row.fulfilled + moved)]),
              Line(target, r.line, None, moved))
  }

  function AddOrderLines(b: Books, reqs: seq<OrderRequest>, target: Id): Books
    decreases |reqs|
  {
    if reqs == [] then b else AddOrderLines(AddOrderLine(b, reqs[0], target), reqs[1..], target)
  }

  /** The first of the listed lines for the given order line and stock. */
  function FindLine(lines: map<Id, Line>, ids: seq<Id>, orderLine: Id, stock: Option<Id>): (r: Option<Id>)
    ensures r.Some? ==> r.value in ids && r.value in lines && lines[r.value].orderLine == orderLine && lines[r.value].stock == stock
  {
    if ids == [] then None
    else if ids[0] in lines && lines[ids[0]].orderLine == orderLine && lines[ids[0]].stock == stock then Some(ids[0])
    else FindLine(lines, ids[1..], orderLine, stock)
  }

  /** The row left behind after `moved` units went: an emptied row is gone. */
  function Reduced(lines: map<Id, Line>, id: Id, moved: int): map<Id, Line>
    requires id in lines
  {
    if lines[id].quantity == moved then lines - {id}
    else lines[id := lines[id].(quantity := lines[id].quantity - moved)]
  }

  /** Units arrive in the target: on the row they merge with, or on a new row unless there are none. */
  function Deposited(b: Books, at: Option<Id>, row: Line): Books {
    match at
    case Some(t) =>
      if t in b.lines then b.(lines := b.lines[t := b.lines[t].(quantity := b.lines[t].quantity + row.quantity)]) else b
    case None =>
      if row.quantity > 0 then NewLine(b, row) else b
  }

  /** At most the requested units of one fulfillment line go to the target, merging with a listed line for the same goods. */
  function MoveLine(b: Books, r: LineRequest, target: Id, inTarget: seq<Id>): Books {
    if r.line !in b.lines then b
    else
      var src := b.lines[r.line];
      var moved := Min(src.quantity, r.quantity);
      Deposited(b.(lines := Reduced(b.lines, r.line, moved)),
                FindLine(b.lines, inTarget, src.orderLine, src.stock),
                Line(target, src.orderLine, src.stock, moved))
  }

  function MoveLines(b: Books, reqs: seq<LineRequest>, target: Id, inTarget: seq<Id>): Books
    decreases |reqs|
  {
    if reqs == [] then b else MoveLines(MoveLine(b, reqs[0], target, inTarget), reqs[1..], target, inTarget)
  }

  /** The ids in [from, to). */
  function Ids(from: nat, to: nat): (s: seq<Id>)
    ensures forall i: Id :: (i in s <==> from <= i < to)
    decreases if from < to then to - from else 0
  {
    if from >= to then [] else [from] + Ids(from + 1, to)
  }

  /** A new fulfillment of the given status that takes the requested units. */
  function TakeInto(b: Books, status: Status, totalRefund: Option<nat>, orderReqs: seq<OrderRequest>, lineReqs: seq<LineRequest>): Books {
    var target := b.nextFulfillment;
    var b1 := AddOrderLines(NewFulfillment(b, status, totalRefund), orderReqs, target);
    MoveLines(b1, lineReqs, target, Ids(b.nextLine, b1.nextLine))
  }

  // ---- fulfilling

  datatype Wanted = Wanted(orderLine: Id, quantity: nat, stock: Option<Id>)

  function RequestedOf(ws: seq<Wanted>, orderLine: Id): nat {
    if ws == [] then 0
    else (if ws[0].orderLine == orderLine then ws[0].quantity else 0) + RequestedOf(ws[1..], orderLine)
  }

  function Flat(parcels: seq<seq<Wanted>>): seq<Wanted> {
    if parcels == [] then [] else parcels[0] + Flat(parcels[1..])
  }

  /** No order line is asked for more units than it has unfulfilled. */
  predicate QuantitiesFit(b: Books, parcels: seq<seq<Wanted>>) {
    forall ol | ol in b.orderLines :: RequestedOf(Flat(parcels), ol) <= b.orderLines[ol].quantity - b.orderLines[ol].fulfilled
  }

  predicate StocksKnown(ws: seq<Wanted>, allowExceeded: bool) {
    allowExceeded || forall i | 0 <= i < |ws| :: ws[i].quantity > 0 ==> ws[i].stock.Some?
  }

  predicate NothingTaken(ws: seq<Wanted>) {
    forall i | 0 <= i < |ws| :: ws[i].quantity == 0
  }

  /** Whether the stocks of a warehouse hold what is taken from them, as the decrease of stocks finds. */
  type Holds = seq<Wanted> -> bool

  /** The decrease goes through for the goods of every warehouse. */
  predicate StocksHold(parcels: seq<seq<Wanted>>, allowExceeded: bool, holds: Holds) {
    parcels == [] || ((allowExceeded || NothingTaken(parcels[0]) || holds(parcels[0])) && StocksHold(parcels[1..], allowExceeded, holds))
  }

  function FulfillOne(b: Books, w: Wanted, target: Id): Books {
    if w.quantity == 0 || w.orderLine !in b.orderLines then b
    else
      var row := b.orderLines[w.orderLine];
      NewLine(b.(orderLines := b.orderLines[w.orderLine := row.(fulfilled := row.fulfilled + w.quantity)]),
              Line(target, w.orderLine, w.stock, w.quantity))
  }

  function FulfillAll(b: Books, ws: seq<Wanted>, target: Id): Books
    decreases |ws|
  {
    if ws == [] then b else FulfillAll(FulfillOne(b, ws[0], target), ws[1..], target)
  }

  /** One fulfillment for the goods from each warehouse. */
  function FulfillParcels(b: Books, parcels: seq<seq<Wanted>>, status: Status): Books
    decreases |parcels|
  {
    if parcels == [] then b
    else FulfillParcels(FulfillAll(NewFulfillment(b, status, None), parcels[0], b.nextFulfillment), parcels[1..], status)
  }

  /** Stocks are decreased at once only for fulfillments that need no approval. */
  function Created(b: Books, parcels: seq<seq<Wanted>>, autoApproved: bool, allowExceeded: bool, holds: Holds): Books {
    if QuantitiesFit(b, parcels) && StocksKnown(Flat(parcels), allowExceeded) && (autoApproved ==> StocksHold(parcels, allowExceeded, holds))
    then FulfillParcels(b, parcels, if autoApproved then Fulfilled else WaitingForApproval)
    else b
  }

  /** A line without stock, or a stock that holds too little. */
  predicate StockMissing(b: Books, f: Id, holds: bool) {
    (exists i | i in b.lines :: b.lines[i].fulfillment == f && b.lines[i].stock.None?) || (HasLines(b, f) && !holds)
  }

  /** Approval goes through when no stock is missing or exceeding the stock is allowed; else it is rolled back. */
  function Approved(b: Books, f: Id, allowExceeded: bool, holds: bool): Books {
    if f !in b.fulfillments then b
    else if !allowExceeded && StockMissing(b, f, holds) then b
    else b.(fulfillments := b.fulfillments[f := b.fulfillments[f].(status := Fulfilled)])
  }

  // ---- cancelling

  /** The lines of a fulfillment in the order in which the database happens to return them. */
  ghost predicate Lists(lines: map<Id, Line>, f: Id, rows: seq<Id>) {
    && (forall i :: i in rows <==> i in lines && lines[i].fulfillment == f)
    && (forall i, j | 0 <= i < j < |rows| :: rows[i] != rows[j])
  }

  /**
   What the bulk update subtracts per order line: each listed line reads its own copy of the order line, and of
   several copies of one order line the first is written.
   */
  function Subtracted(lines: map<Id, Line>, rows: seq<Id>): map<Id, int> {
    if rows == [] then map[]
    else if rows[0] in lines then Subtracted(lines, rows[1..])[lines[rows[0]].orderLine := lines[rows[0]].quantity]
    else Subtracted(lines, rows[1..])
  }

  function Unfulfilled(b: Books, rows: seq<Id>): map<Id, OrderLine> {
    var u := Subtracted(b.lines, rows);
    map ol | ol in b.orderLines ::
      if ol in u then b.orderLines[ol].(fulfilled := b.orderLines[ol].fulfilled - u[ol]) else b.orderLines[ol]
  }

  /** A waiting fulfillment is deleted together with its lines. */
  function WaitingCanceled(b: Books, f: Id, rows: seq<Id>): Books {
    b.(orderLines := Unfulfilled(b, rows),
       fulfillments := b.fulfillments - {f},
       lines := map i | i in b.lines && b.lines[i].fulfillment != f :: b.lines[i])
  }

  /** Any other fulfillment keeps its lines and becomes canceled; units go back only with a warehouse to restock. */
  function FulfillmentCanceled(b: Books, f: Id, rows: seq<Id>, restock: bool): Books {
    if f !in b.fulfillments then b
    else
      b.(orderLines := if restock then Unfulfilled(b, rows) else b.orderLines,
         fulfillments := b.fulfillments[f := b.fulfillments[f].(status := Canceled)])
  }

  // ---- refunding, returning, replacing

  predicate IsOpen(s: Status) {
    s.Fulfilled? || s.WaitingForApproval?
  }

  predicate HasLines(b: Books, f: Id) {
    exists i | i in b.lines :: b.lines[i].fulfillment == f
  }

  /** Open fulfillments that have lost all their lines are deleted. */
  function EmptiesDeleted(b: Books): Books {
    b.(fulfillments := map f | f in b.fulfillments && !(IsOpen(b.fulfillments[f].status) && !HasLines(b, f)) :: b.fulfillments[f])
  }

  predicate FromRefunded(b: Books, r: LineRequest) {
    && r.line in b.lines
    && b.lines[r.line].fulfillment in b.fulfillments
    && b.fulfillments[b.lines[r.line].fulfillment].status.Refunded?
  }

  /** The requests whose lines are (or are not) in a refunded fulfillment, in order. */
  function SplitRefunded(b: Books, reqs: seq<LineRequest>, refunded: bool): seq<LineRequest> {
    if reqs == [] then []
    else if FromRefunded(b, reqs[0]) == refunded then [reqs[0]] + SplitRefunded(b, reqs[1..], refunded)
    else SplitRefunded(b, reqs[1..], refunded)
  }

  /** Price of the units to refund: order lines in full, fulfillment lines unless they were refunded before. */
  function RefundOfOrder(b: Books, reqs: seq<OrderRequest>): nat {
    if reqs == [] then 0
    else (if reqs[0].line in b.orderLines then reqs[0].quantity * b.orderLines[reqs[0].line].price else 0) + RefundOfOrder(b, reqs[1..])
  }

  function RefundOfLine(b: Books, r: LineRequest): nat {
    if r.line in b.lines && !FromRefunded(b, r) && b.lines[r.line].orderLine in b.orderLines
    then r.quantity * b.orderLines[b.lines[r.line].orderLine].price else 0
  }

  function RefundOfLines(b: Books, reqs: seq<LineRequest>): nat {
    if reqs == [] then 0 else RefundOfLine(b, reqs[0]) + RefundOfLines(b, reqs[1..])
  }

  function ProductRefund(b: Books, orderReqs: seq<OrderRequest>, lineReqs: seq<LineRequest>): nat {
    RefundOfOrder(b, orderReqs) + RefundOfLines(b, lineReqs)
  }

  /** How a refund is paid: a given amount or a computed one, shipping on top of the computed one, at most what was captured. */
  datatype RefundTerms = RefundTerms(amount: Option<nat>, shipping: Option<nat>, captured: Option<nat>)

  function TotalRefund(b: Books, terms: RefundTerms, orderReqs: seq<OrderRequest>, lineReqs: seq<LineRequest>): nat {
    var asked := match terms.amount
      case Some(a) => a
      case None => ProductRefund(b, orderReqs, lineReqs) + (if terms.shipping.Some? then terms.shipping.value else 0);
    if asked != 0 && terms.captured.Some? then (if terms.captured.value < asked then terms.captured.value else asked) else asked
  }

  function RefundCreated(b: Books, orderReqs: seq<OrderRequest>, lineReqs: seq<LineRequest>, terms: RefundTerms): Books {
    EmptiesDeleted(TakeInto(b, Refunded, Some(TotalRefund(b, terms, orderReqs, lineReqs)), orderReqs, lineReqs))
  }

  function OrderSide(reqs: seq<OrderRequest>, replace: bool): seq<OrderRequest> {
    if reqs == [] then []
    else if reqs[0].replace == replace then [reqs[0]] + OrderSide(reqs[1..], replace)
    else OrderSide(reqs[1..], replace)
  }

  function LineSide(reqs: seq<LineRequest>, replace: bool): seq<LineRequest> {
    if reqs == [] then []
    else if reqs[0].replace == replace then [reqs[0]] + LineSide(reqs[1..], replace)
    else LineSide(reqs[1..], replace)
  }

  /** Lines not refunded before go to the return fulfillment; the others to a refunded-and-returned one. */
  function ReturnMoved(b: Books, status: Status, totalRefund: Option<nat>, orderReqs: seq<OrderRequest>, lineReqs: seq<LineRequest>): Books {
    var target := b.nextFulfillment;
    var b1 := AddOrderLines(NewFulfillment(b, status, totalRefund), orderReqs, target);
    var again := SplitRefunded(b1, lineReqs, true);
    var b2 := MoveLines(b1, SplitRefunded(b1, lineReqs, false), target, Ids(b.nextLine, b1.nextLine));
    if again == [] then b2
    else if status.RefundedAndReturned? then MoveLines(b2, again, target, [])
    else MoveLines(NewFulfillment(b2, RefundedAndReturned, None), again, b2.nextFulfillment, [])
  }

  /** Replaced goods leave first, then the returned ones; a refund is computed before anything moves. */
  function ReturnCreated(b: Books, orderReqs: seq<OrderRequest>, lineReqs: seq<LineRequest>, refund: Option<RefundTerms>): Books {
    var backOrder, backLines := OrderSide(orderReqs, false), LineSide(lineReqs, false);
    var newOrder, newLines := OrderSide(orderReqs, true), LineSide(lineReqs, true);
    var total := match refund case None => None case Some(terms) => Some(TotalRefund(b, terms, backOrder, backLines));
    var b1 := if newOrder == [] && newLines == [] then b else TakeInto(b, Replaced, None, newOrder, newLines);
    EmptiesDeleted(ReturnMoved(b1, if total.None? then Returned else RefundedAndReturned, total, backOrder, backLines))
  }
}
