/**
 saleor/checkout/complete_checkout.py: the database transactions of checkout completion. Every transaction holds the
 lock of the checkout row, so each one is a single step on the tables.
 */
module CheckoutStore {
  import opened Wrappers

  type Token = nat

  /** A checkout row: whether it carries the voucher code, and the flag that its usage has been counted. */
  datatype Row = Row(voucher: bool, usageIncreased: bool)

  datatype Order = Order(token: Token, voucher: bool)

  /** The live checkouts, the placed orders, and the usage counter of the voucher code. */
  datatype Tables = Tables(checkouts: map<Token, Row>, orders: seq<Order>, used: int)

  /** Position of the first order for a checkout token. */
  function OrderFor(orders: seq<Order>, token: Token): (r: Option<nat>)
    ensures r.Some? ==> r.value < |orders| && orders[r.value].token == token
    ensures r.None? ==> forall i | 0 <= i < |orders| :: orders[i].token != token
  {
    if orders == [] then None
    else if orders[0].token == token then Some(0)
    else
      var r := OrderFor(orders[1..], token);
      assert forall i | 1 <= i < |orders| :: orders[i] == orders[1..][i - 1];
      match r case None => None case Some(k) => Some(k + 1)
  }

  /** The voucher usage is counted once per checkout: the flag guards the counter. */
  function UsageIncreased(db: Tables, token: Token): Tables
    requires token in db.checkouts
  {
    var row := db.checkouts[token];
    if !row.voucher || row.usageIncreased then db
    else db.(checkouts := db.checkouts[token := row.(usageIncreased := true)], used := db.used + 1)
  }

  /** Releasing clears the flag and, when a code is passed on, takes the usage back. */
  function UsageReleased(db: Tables, token: Token, withCode: bool): Tables
    requires token in db.checkouts
  {
    var row := db.checkouts[token];
    if !row.usageIncreased then db
    else db.(checkouts := db.checkouts[token := row.(usageIncreased := false)], used := if withCode then db.used - 1 else db.used)
  }

  /** An order replaces its checkout; an order that is there already is kept. */
  function OrderPlaced(db: Tables, token: Token, voucher: bool, lookFirst: bool): Tables {
    if lookFirst && OrderFor(db.orders, token).Some? then db.(checkouts := db.checkouts - {token})
    else db.(orders := db.orders + [Order(token, voucher)], checkouts := db.checkouts - {token})
  }

  // ---- outcomes that other systems decide

  datatype PreOutcome =
    | Rejected                 // validation fails before the voucher is touched
    | TaxFailed                // taxes fail after the voucher usage was counted
    | Ready(payment: bool)     // order data are prepared

  datatype PayOutcome =
    | Declined
    | Inactive                 // the payment was deactivated meanwhile
    | Accepted(actionRequired: bool)

  datatype PostOutcome =
    | RefundOngoing
    | OutOfStock               // also: a gift card no longer applies
    | Placed

  function PrePayment(db: Tables, token: Token, outcome: PreOutcome): Tables {
    if token !in db.checkouts then db
    else
      match outcome
      case Rejected => db
      case TaxFailed =>
        UsageReleased(UsageIncreased(db, token), token, db.checkouts[token].voucher)
      case Ready(_) => UsageIncreased(db, token)
  }

  /** An inactive payment clears the flag from the thread's own copy of the row and passes no code on. */
  function Payment(db: Tables, token: Token, voucher: bool, outcome: PayOutcome): Tables {
    if token !in db.checkouts then db
    else if outcome.Inactive? && voucher
    then db.(checkouts := db.checkouts[token := db.checkouts[token].(usageIncreased := false)])
    else db
  }

  function PostPayment(db: Tables, token: Token, voucher: bool, actionRequired: bool, outcome: PostOutcome): Tables {
    if token !in db.checkouts then db
    else if actionRequired then UsageReleased(db, token, voucher)
    else
      match outcome
      case RefundOngoing => db
      case OutOfStock => if voucher then UsageReleased(db, token, true) else db
      case Placed => OrderPlaced(db, token, voucher, true)
  }

  /** The transaction flow counts the usage on a copy of the row that was read before, without a lock. */
  function CountBeforeOrder(db: Tables, token: Token, flagSeen: bool): Tables {
    if flagSeen || token !in db.checkouts then db
    else db.(checkouts := db.checkouts[token := db.checkouts[token].(usageIncreased := true)], used := db.used + 1)
  }

  function CreateFromCheckout(db: Tables, token: Token, code: bool, succeeds: bool): Tables {
    if token !in db.checkouts || !succeeds then db else OrderPlaced(db, token, code, false)
  }

  // ---- the transactions as they run

  class Store {
    var checkouts: map<Token, Row>
    var orders: seq<Order>
    var used: int

    ghost function Snapshot(): Tables
      reads this
    {
      Tables(checkouts, orders, used)
    }

    method GetByCheckoutToken(token: Token) returns (r: Option<nat>)
      ensures r == OrderFor(orders, token)
    {
      assert orders[0..] == orders;
      for i := 0 to |orders|
        invariant OrderFor(orders, token) == match OrderFor(orders[i..], token) case None => None case Some(k) => Some(k + i)
      {
        if orders[i].token == token {
          return Some(i);
        }
        assert orders[i..][1..] == orders[i + 1..];
      }
      return None;
    }

    method IncreaseVoucherUsage(token: Token)
      requires token in checkouts && checkouts[token].voucher
      modifies this
      ensures Snapshot() == UsageIncreased(old(Snapshot()), token)
      ensures checkouts == old(checkouts)[token := Row(true, true)] && orders == old(orders)
      ensures used == old(used) + (if old(checkouts)[token].usageIncreased then 0 else 1)
    {
      if checkouts[token].usageIncreased {
        assert checkouts[token] == Row(true, true);
        return;
      }
      used := used + 1;
      checkouts := checkouts[token := checkouts[token].(usageIncreased := true)];
    }

    method ReleaseVoucherUsage(token: Token, withCode: bool)
      requires token in checkouts
      modifies this
      ensures Snapshot() == UsageReleased(old(Snapshot()), token, withCode)
      ensures checkouts == old(checkouts)[token := Row(old(checkouts)[token].voucher, false)] && orders == old(orders)
      ensures used == old(used) - (if old(checkouts)[token].usageIncreased && withCode then 1 else 0)
    {
      if !checkouts[token].usageIncreased {
        return;
      }
      checkouts := checkouts[token := checkouts[token].(usageIncreased := false)];
      if withCode {
        used := used - 1;
      }
    }

    /** First transaction: prepare the order data and count the voucher. */
    method PrePaymentTransaction(token: Token, outcome: PreOutcome) returns (found: bool, existing: Option<nat>)
      modifies this
      ensures found == (token in old(checkouts)) && (!found ==> existing == OrderFor(old(orders), token))
      ensures Snapshot() == PrePayment(old(Snapshot()), token, outcome)
      ensures orders == old(orders) && (!found || outcome.Rejected? ==> checkouts == old(checkouts) && used == old(used))
      ensures found && outcome.TaxFailed? ==>
                var row := old(checkouts)[token];
                checkouts == old(checkouts)[token := Row(row.voucher, false)]
                && used == old(used) - (if row.voucher && row.usageIncreased then 1 else 0)
      ensures found && outcome.Ready? ==>
                var row := old(checkouts)[token];
                checkouts == old(checkouts)[token := Row(row.voucher, row.usageIncreased || row.voucher)]
                && used == old(used) + (if row.voucher && !row.usageIncreased then 1 else 0)
    {
      found, existing := token in checkouts, None;
      if !found {
        existing := GetByCheckoutToken(token);
        return;
      }
      if outcome.Rejected? {
        return;
      }
      var voucher := checkouts[token].voucher;
      if voucher {
        IncreaseVoucherUsage(token);
      }
      if outcome.TaxFailed? {
        ReleaseVoucherUsage(token, voucher);
      }
    }

    /** Second transaction: the payment is processed; only the inactive-payment branch touches the voucher flag. */
    method PaymentTransaction(token: Token, voucher: bool, outcome: PayOutcome) returns (found: bool, existing: Option<nat>)
      modifies this
      ensures found == (token in old(checkouts)) && (!found ==> existing == OrderFor(old(orders), token))
      ensures Snapshot() == Payment(old(Snapshot()), token, voucher, outcome)
      ensures orders == old(orders) && used == old(used)
      ensures checkouts == if found && outcome.Inactive? && voucher then old(checkouts)[token := Row(old(checkouts)[token].voucher, false)]
                           else old(checkouts)
    {
      found, existing := token in checkouts, None;
      if !found {
        existing := GetByCheckoutToken(token);
        return;
      }
      if outcome.Inactive? && voucher {
        // the row saved here is the copy from the first transaction, on which the flag was set
        checkouts := checkouts[token := checkouts[token].(usageIncreased := false)];
      }
    }

    /** Third transaction: place the order and delete the checkout, or release the voucher. */
    method PostPaymentTransaction(token: Token, voucher: bool, actionRequired: bool, outcome: PostOutcome)
      returns (found: bool, order: Option<nat>)
      modifies this
      ensures found == (token in old(checkouts))
      ensures Snapshot() == PostPayment(old(Snapshot()), token, voucher, actionRequired, outcome)
      ensures !found || (!actionRequired && (outcome.RefundOngoing? || (outcome.OutOfStock? && !voucher))) ==>
                checkouts == old(checkouts) && orders == old(orders) && used == old(used)
      ensures found && (actionRequired || (outcome.OutOfStock? && voucher)) ==>
                && checkouts == old(checkouts)[token := Row(old(checkouts)[token].voucher, false)] && orders == old(orders)
                && used == old(used) - (if voucher && old(checkouts)[token].usageIncreased then 1 else 0)
      ensures found && !actionRequired && outcome.Placed? ==>
                && checkouts == old(checkouts) - {token} && used == old(used)
                && orders == if exists i | 0 <= i < |old(orders)| :: old(orders)[i].token == token then old(orders)
                             else old(orders) + [Order(token, voucher)]
      ensures order == if !found then OrderFor(old(orders), token)
                       else if actionRequired || !outcome.Placed? then None
                       else if OrderFor(old(orders), token).Some? then OrderFor(old(orders), token) else Some(|old(orders)|)
    {
      found, order := token in checkouts, None;
      if !found {
        order := GetByCheckoutToken(token);
        return;
      }
      if actionRequired {
        ReleaseVoucherUsage(token, voucher);
      } else if outcome.OutOfStock? {
        if voucher {
          ReleaseVoucherUsage(token, true);
        }
      } else if outcome.Placed? {
        order := GetByCheckoutToken(token);
        if order.None? {
          order := Some(|orders|);
          orders := orders + [Order(token, voucher)];
        }
        checkouts := checkouts - {token};
      }
    }

    /** Transaction flow, first part: the flag is read from a copy of the row that was read earlier, and saved to the row. */
    method CountUsageBeforeOrder(token: Token, flagSeen: bool) returns (ok: bool)
      modifies this
      ensures Snapshot() == CountBeforeOrder(old(Snapshot()), token, flagSeen)
      ensures orders == old(orders) && used == old(used) + (if !flagSeen && token in old(checkouts) then 1 else 0)
      ensures checkouts == if !flagSeen && token in old(checkouts) then old(checkouts)[token := Row(old(checkouts)[token].voucher, true)]
                           else old(checkouts)
      ensures ok <==> flagSeen || token in old(checkouts)
    {
      if flagSeen {
        return true;
      }
      var saved := used;
      used := used + 1;
      if token !in checkouts {
        // saving the flag finds no row: the transaction is rolled back
        used := saved;
        return false;
      }
      checkouts := checkouts[token := checkouts[token].(usageIncreased := true)];
      return true;
    }

    /** Transaction flow, second part: create the order from the locked checkout and delete the checkout. */
    method CreateOrderFromCheckout(token: Token, code: bool, succeeds: bool) returns (found: bool, order: Option<nat>)
      modifies this
      ensures found == (token in old(checkouts))
      ensures Snapshot() == CreateFromCheckout(old(Snapshot()), token, code, succeeds)
      ensures used == old(used)
      ensures if found && succeeds then checkouts == old(checkouts) - {token} && orders == old(orders) + [Order(token, code)]
              else checkouts == old(checkouts) && orders == old(orders)
      ensures order == if !found then OrderFor(old(orders), token) else if succeeds then Some(|old(orders)|) else None
    {
      found, order := token in checkouts, None;
      if !found {
        order := GetByCheckoutToken(token);
        return;
      }
      if succeeds {
        order := Some(|orders|);
        orders := orders + [Order(token, code)];
        checkouts := checkouts - {token};
      }
    }
  }
}
