/** The voucher usage counter over runs of checkout completion. */
module VoucherAccounting {
  import opened CheckoutStore
  import opened CheckoutCompletion

  /** Live checkouts whose usage is counted. */
  function FlaggedTokens(checkouts: map<Token, Row>): set<Token> {
    set token | token in checkouts && checkouts[token].usageIncreased
  }

  function Flagged(checkouts: map<Token, Row>): nat {
    |FlaggedTokens(checkouts)|
  }

  function VoucherOrders(orders: seq<Order>): nat {
    if orders == [] then 0 else (if orders[|orders| - 1].voucher then 1 else 0) + VoucherOrders(orders[..|orders| - 1])
  }

  /** What the counter is made of besides its base. */
  function Accounted(db: Tables): int {
    Flagged(db.checkouts) + VoucherOrders(db.orders)
  }

  lemma {:induction false} FlaggedSet(checkouts: map<Token, Row>, token: Token, row: Row)
    requires token in checkouts
    ensures Flagged(checkouts[token := row]) ==
            Flagged(checkouts) - (if checkouts[token].usageIncreased then 1 else 0) + (if row.usageIncreased then 1 else 0)
  {
    var f, f' := FlaggedTokens(checkouts), FlaggedTokens(checkouts[token := row]);
    if row.usageIncreased {
      assert f' == f + {token};
    } else {
      assert f' == f - {token};
    }
  }

  lemma {:induction false} FlaggedRemoved(checkouts: map<Token, Row>, token: Token)
    requires token in checkouts
    ensures Flagged(checkouts - {token}) == Flagged(checkouts) - (if checkouts[token].usageIncreased then 1 else 0)
  {
    assert FlaggedTokens(checkouts - {token}) == FlaggedTokens(checkouts) - {token};
  }

  lemma {:induction false} FlaggedAdded(checkouts: map<Token, Row>, token: Token, row: Row)
    requires token !in checkouts && !row.usageIncreased
    ensures Flagged(checkouts[token := row]) == Flagged(checkouts)
  {
    assert FlaggedTokens(checkouts[token := row]) == FlaggedTokens(checkouts);
  }

  lemma {:induction false} VoucherOrdersAppended(orders: seq<Order>, o: Order)
    ensures VoucherOrders(orders + [o]) == VoucherOrders(orders) + (if o.voucher then 1 else 0)
  {
    assert (orders + [o])[..|orders|] == orders;
  }

  // ---- what threads remember of the voucher

  /** Flags are set only on checkouts with the voucher, and a thread remembers rightly whether its checkout has it. */
  ghost predicate Remembers(s: State) {
    && (forall token | token in s.db.checkouts :: s.db.checkouts[token].usageIncreased ==> s.db.checkouts[token].voucher)
    && (forall t | 0 <= t < |s.threads| && s.threads[t].token in s.db.checkouts :: KnowsVoucher(s.threads[t].pc, s.db.checkouts[s.threads[t].token]))
  }

  ghost predicate KnowsVoucher(pc: Pc, row: Row) {
    match pc
    case PaySecond(voucher) => voucher == row.voucher
    case PayThird(voucher, _) => voucher == row.voucher
    case Counted(code) => code ==> row.voucher
    case _ => true
  }

  ghost predicate Known(s: State) {
    Consistent(s) && Remembers(s)
  }

  /** Only the row of one checkout changes, if it stays at all: in its flag, which is set only with a voucher. */
  ghost predicate RowChange(db: Tables, db': Tables, token: Token) {
    && (forall k | k in db'.checkouts && k != token :: k in db.checkouts && db'.checkouts[k] == db.checkouts[k])
    && (token in db'.checkouts ==>
          && token in db.checkouts && db'.checkouts[token].voucher == db.checkouts[token].voucher
          && (db'.checkouts[token].usageIncreased ==> db.checkouts[token].usageIncreased || db.checkouts[token].voucher))
  }

  lemma {:induction false} PreRowChange(db: Tables, token: Token, outcome: PreOutcome)
    ensures RowChange(db, PrePayment(db, token, outcome), token)
  {
  }

  lemma {:induction false} PayRowChange(db: Tables, token: Token, voucher: bool, outcome: PayOutcome)
    ensures RowChange(db, Payment(db, token, voucher, outcome), token)
  {
  }

  lemma {:induction false} PostRowChange(db: Tables, token: Token, voucher: bool, actionRequired: bool, outcome: PostOutcome)
    ensures RowChange(db, PostPayment(db, token, voucher, actionRequired, outcome), token)
  {
  }

  lemma {:induction false} CountRowChange(db: Tables, token: Token, flagSeen: bool)
    requires token in db.checkouts ==> db.checkouts[token].voucher
    ensures RowChange(db, CountBeforeOrder(db, token, flagSeen), token)
  {
  }

  lemma {:induction false} CreateRowChange(db: Tables, token: Token, code: bool, succeeds: bool)
    ensures RowChange(db, CreateFromCheckout(db, token, code, succeeds), token)
  {
  }

  lemma {:induction false} EnabledRowChange(s: State, step: Step)
    requires Enabled(s, step)
    ensures RowChange(s.db, Do(s, step).db, s.threads[step.thread].token)
  {
    var t := step.thread;
    var token := s.threads[t].token;
    match step
    case RunPre(_, outcome) => PreRowChange(s.db, token, outcome);
    case RunPay(_, outcome) => PayRowChange(s.db, token, s.threads[t].pc.voucher, outcome);
    case RunPost(_, outcome) => PostRowChange(s.db, token, s.threads[t].pc.voucher, s.threads[t].pc.actionRequired, outcome);
    case RunCount(_, valid) =>
      if CodeFound(s, t, valid) {
        CountRowChange(s.db, token, s.threads[t].pc.flagSeen);
      }
    case RunCreate(_, succeeds) => CreateRowChange(s.db, token, s.threads[t].pc.code, succeeds);
    case Crash(_) =>
  }

  lemma {:induction false} StepRemembers(s: State, step: Step)
    requires Known(s)
    ensures Known(Do(s, step))
  {
    StepConsistent(s, step);
    if Enabled(s, step) {
      EnabledRemembers(s, step);
    } else if step.Open? {
      OpenRemembers(s, step.voucher);
    }
  }

  lemma {:induction false} OpenRemembers(s: State, voucher: bool)
    requires Known(s)
    ensures Remembers(Do(s, Open(voucher)))
  {
  }

  lemma {:induction false} EnabledRemembers(s: State, step: Step)
    requires Known(s) && Enabled(s, step)
    ensures Remembers(Do(s, step))
  {
    var s', t := Do(s, step), step.thread;
    EnabledIsThreadStep(s, step);
    EnabledRowChange(s, step);
    EnabledKnowsVoucher(s, step);
    forall u | 0 <= u < |s'.threads| && s'.threads[u].token in s'.db.checkouts
      ensures KnowsVoucher(s'.threads[u].pc, s'.db.checkouts[s'.threads[u].token])
    {
      if u != t {
        assert s'.threads[u] == s.threads[u];
        assert KnowsVoucher(s.threads[u].pc, s.db.checkouts[s.threads[u].token]);
      }
    }
  }

  lemma {:induction false} EnabledKnowsVoucher(s: State, step: Step)
    requires Known(s) && Enabled(s, step)
    ensures var s', t := Do(s, step), step.thread;
            s.threads[t].token in s.db.checkouts ==> KnowsVoucher(s'.threads[t].pc, s.db.checkouts[s.threads[t].token])
  {
    var t := step.thread;
    assert s.threads[t].token in s.db.checkouts ==> KnowsVoucher(s.threads[t].pc, s.db.checkouts[s.threads[t].token]);
  }

  // ---- the exact account

  /** Counter less what is accounted for, corrected by the history of leaks and uncovered orders: constant over runs. */
  function Base(s: State): int {
    s.db.used - Accounted(s.db) - s.leaked + s.uncovered
  }

  lemma {:induction false} IncreasedAccount(db: Tables, token: Token)
    requires token in db.checkouts
    ensures UsageIncreased(db, token).used - Accounted(UsageIncreased(db, token)) == db.used - Accounted(db)
  {
    FlaggedSet(db.checkouts, token, db.checkouts[token].(usageIncreased := true));
  }

  lemma {:induction false} ReleasedAccount(db: Tables, token: Token, withCode: bool)
    requires token in db.checkouts && (db.checkouts[token].usageIncreased ==> withCode)
    ensures UsageReleased(db, token, withCode).used - Accounted(UsageReleased(db, token, withCode)) == db.used - Accounted(db)
  {
    FlaggedSet(db.checkouts, token, db.checkouts[token].(usageIncreased := false));
  }

  lemma {:induction false} PlacedAccount(s: State, token: Token, voucher: bool, lookFirst: bool)
    requires Consistent(s) && token in s.db.checkouts
    ensures var db' := OrderPlaced(s.db, token, voucher, lookFirst);
            && db'.used == s.db.used
            && Accounted(db') == Accounted(s.db) - (if FlagSet(s.db, token) then 1 else 0) + (if voucher then 1 else 0)
  {
    NoOrderYet(s, token);
    FlaggedRemoved(s.db.checkouts, token);
    VoucherOrdersAppended(s.db.orders, Order(token, voucher));
  }

  lemma {:induction false} PreAccount(s: State, t: nat, outcome: PreOutcome)
    requires Known(s) && At(s, t)
    ensures Base(AfterPre(s, t, outcome)) == Base(s)
  {
    var token := s.threads[t].token;
    if token in s.db.checkouts && !outcome.Rejected? {
      IncreasedAccount(s.db, token);
      if outcome.TaxFailed? {
        ReleasedAccount(UsageIncreased(s.db, token), token, s.db.checkouts[token].voucher);
      }
    }
  }

  lemma {:induction false} PayAccount(s: State, t: nat, voucher: bool, outcome: PayOutcome)
    requires Known(s) && At(s, t)
    ensures Base(AfterPay(s, t, voucher, outcome)) == Base(s)
  {
    var token := s.threads[t].token;
    if token in s.db.checkouts {
      FlaggedSet(s.db.checkouts, token, s.db.checkouts[token].(usageIncreased := false));
    }
  }

  lemma {:induction false} PostAccount(s: State, t: nat, voucher: bool, actionRequired: bool, outcome: PostOutcome)
    requires Known(s) && At(s, t) && (s.threads[t].token in s.db.checkouts ==> voucher == s.db.checkouts[s.threads[t].token].voucher)
    ensures Base(AfterPost(s, t, voucher, actionRequired, outcome)) == Base(s)
  {
    var token := s.threads[t].token;
    if token in s.db.checkouts {
      if actionRequired || outcome.OutOfStock? {
        ReleasedAccount(s.db, token, voucher);
      } else if outcome.Placed? {
        PlacedAccount(s, token, voucher, true);
      }
    }
  }

  lemma {:induction false} CountAccount(s: State, t: nat, flagSeen: bool, valid: bool)
    requires Known(s) && At(s, t)
    ensures Base(AfterCount(s, t, flagSeen, valid)) == Base(s)
  {
    var token := s.threads[t].token;
    if token in s.db.checkouts {
      FlaggedSet(s.db.checkouts, token, s.db.checkouts[token].(usageIncreased := true));
    }
  }

  lemma {:induction false} CreateAccount(s: State, t: nat, code: bool, succeeds: bool)
    requires Known(s) && At(s, t)
    ensures Base(AfterCreate(s, t, code, succeeds)) == Base(s)
  {
    if s.threads[t].token in s.db.checkouts && succeeds {
      PlacedAccount(s, s.threads[t].token, code, false);
    }
  }

  lemma {:induction false} StepAccount(s: State, step: Step)
    requires Known(s)
    ensures Base(Do(s, step)) == Base(s)
  {
    if Enabled(s, step) {
      var t := step.thread;
      assert s.threads[t].token in s.db.checkouts ==> KnowsVoucher(s.threads[t].pc, s.db.checkouts[s.threads[t].token]);
      match step
      case RunPre(_, outcome) => PreAccount(s, t, outcome);
      case RunPay(_, outcome) => PayAccount(s, t, s.threads[t].pc.voucher, outcome);
      case RunPost(_, outcome) => PostAccount(s, t, s.threads[t].pc.voucher, s.threads[t].pc.actionRequired, outcome);
      case RunCount(_, valid) => CountAccount(s, t, s.threads[t].pc.flagSeen, CodeFound(s, t, valid));
      case RunCreate(_, succeeds) => CreateAccount(s, t, s.threads[t].pc.code, succeeds);
      case Crash(_) =>
    } else if step.Open? {
      FlaggedAdded(s.db.checkouts, s.tokens, Row(step.voucher, false));
    }
  }

  /**
   The exact account over every run and interleaving: the counter moves from its start by the change in flagged
   checkouts and voucher orders, plus the leaks, less the uncovered orders of the run.
   */
  lemma {:induction false} VoucherAccount(s: State, steps: seq<Step>)
    requires Known(s)
    ensures Known(Run(s, steps)) && Base(Run(s, steps)) == Base(s)
    decreases |steps|
  {
    if steps != [] {
      StepRemembers(s, steps[0]);
      StepAccount(s, steps[0]);
      VoucherAccount(Do(s, steps[0]), steps[1..]);
    }
  }

  /** From a state with a clean history, the counter covers flags and orders exactly when leaks make up for uncovered orders. */
  lemma {:induction false} CoveredExactly(s: State, steps: seq<Step>)
    requires Known(s) && s.leaked == s.uncovered == 0
    ensures var e, base := Run(s, steps), s.db.used - Accounted(s.db);
            && (e.db.used >= base + Accounted(e.db) <==> e.leaked >= e.uncovered)
            && (e.db.used == base + Accounted(e.db) <==> e.leaked == e.uncovered)
  {
    VoucherAccount(s, steps);
  }

  // ---- one attempt at a time

  predicate InFlight(pc: Pc) {
    !pc.Returned? && !pc.Failed?
  }

  ghost predicate Free(s: State, token: Token) {
    forall t | 0 <= t < |s.threads| && s.threads[t].token == token :: !InFlight(s.threads[t].pc)
  }

  /** An attempt begins only when no other attempt on the same checkout is under way; retries are as many as you like. */
  ghost predicate OneAtATime(s: State, steps: seq<Step>)
    decreases |steps|
  {
    steps == [] ||
    ((steps[0].BeginPayment? || steps[0].BeginTransaction? ==> Free(s, steps[0].token)) && OneAtATime(Do(s, steps[0]), steps[1..]))
  }

  /** A thread in flight is alone on its checkout and knows its flag. */
  ghost predicate Alone(s: State) {
    && (forall t, u | 0 <= t < u < |s.threads| && InFlight(s.threads[t].pc) && InFlight(s.threads[u].pc) ::
          s.threads[t].token != s.threads[u].token)
    && (forall t | 0 <= t < |s.threads| && s.threads[t].token in s.db.checkouts :: KnowsFlag(s.threads[t].pc, s.db.checkouts[s.threads[t].token]))
  }

  ghost predicate KnowsFlag(pc: Pc, row: Row) {
    match pc
    case PaySecond(voucher) => voucher ==> row.usageIncreased
    case PayThird(voucher, _) => voucher ==> row.usageIncreased
    case Loaded(flagSeen) => flagSeen == row.usageIncreased
    case Counted(code) => code ==> row.usageIncreased
    case _ => true
  }

  lemma {:induction false} EnabledKnowsFlag(s: State, step: Step)
    requires Known(s) && Alone(s) && Enabled(s, step)
    ensures var s', t := Do(s, step), step.thread;
            s.threads[t].token in s'.db.checkouts ==> KnowsFlag(s'.threads[t].pc, s'.db.checkouts[s.threads[t].token])
    ensures Do(s, step).uncovered == s.uncovered
  {
    var t := step.thread;
    var token := s.threads[t].token;
    assert token in s.db.checkouts ==> KnowsFlag(s.threads[t].pc, s.db.checkouts[token]) && KnowsVoucher(s.threads[t].pc, s.db.checkouts[token]);
    match step
    case RunPre(_, _) =>
    case RunPay(_, _) =>
    case RunPost(_, _) =>
    case RunCount(_, _) =>
    case RunCreate(_, _) =>
    case Crash(_) =>
  }

  lemma {:induction false} EnabledAlone(s: State, step: Step)
    requires Known(s) && Alone(s) && Enabled(s, step)
    ensures Alone(Do(s, step))
  {
    var s', t := Do(s, step), step.thread;
    EnabledIsThreadStep(s, step);
    EnabledRowChange(s, step);
    EnabledKnowsFlag(s, step);
    assert InFlight(s.threads[t].pc) || step.Crash?;
    forall u | 0 <= u < |s'.threads| && s'.threads[u].token in s'.db.checkouts
      ensures KnowsFlag(s'.threads[u].pc, s'.db.checkouts[s'.threads[u].token])
    {
      if u != t {
        assert s'.threads[u] == s.threads[u];
        OtherThreadKnows(s, s', t, u);
      }
    }
  }

  /** Another thread in flight is on another checkout; a finished one has nothing to know. */
  lemma {:induction false} OtherThreadKnows(s: State, s': State, t: nat, u: nat)
    requires Alone(s) && At(s, t) && At(s, u) && u != t && s.threads[u].token in s'.db.checkouts
    requires RowChange(s.db, s'.db, s.threads[t].token) && (InFlight(s.threads[t].pc) || s'.db == s.db)
    ensures KnowsFlag(s.threads[u].pc, s'.db.checkouts[s.threads[u].token])
  {
    if InFlight(s.threads[u].pc) && InFlight(s.threads[t].pc) {
      assert s.threads[u].token != s.threads[t].token;
    }
    if s.threads[u].token in s.db.checkouts {
      assert KnowsFlag(s.threads[u].pc, s.db.checkouts[s.threads[u].token]);
    }
  }

  lemma {:induction false} StepAlone(s: State, step: Step)
    requires Known(s) && Alone(s) && (step.BeginPayment? || step.BeginTransaction? ==> Free(s, step.token))
    ensures Alone(Do(s, step)) && Do(s, step).uncovered == s.uncovered
  {
    if Enabled(s, step) {
      EnabledAlone(s, step);
      EnabledKnowsFlag(s, step);
    } else if step.Open? {
      OpenAlone(s, step.voucher);
    }
  }

  lemma {:induction false} OpenAlone(s: State, voucher: bool)
    requires Known(s) && Alone(s)
    ensures Alone(Do(s, Open(voucher)))
  {
  }

  /** The steps that leave a usage counted for nothing: an inactive payment, or an order whose voucher code is gone. */
  ghost predicate Leaks(s: State, step: Step) {
    && Enabled(s, step) && FlagSet(s.db, s.threads[step.thread].token)
    && ((step.RunPay? && step.pay.Inactive?) || (step.RunCreate? && step.succeeds && !s.threads[step.thread].pc.code))
  }

  ghost predicate NeverLeaks(s: State, steps: seq<Step>)
    decreases |steps|
  {
    steps == [] || (!Leaks(s, steps[0]) && NeverLeaks(Do(s, steps[0]), steps[1..]))
  }

  lemma {:induction false} StepLeaks(s: State, step: Step)
    requires Known(s) && Alone(s)
    ensures Do(s, step).leaked == s.leaked + if Leaks(s, step) then 1 else 0
  {
    if Enabled(s, step) {
      var t := step.thread;
      var token := s.threads[t].token;
      assert token in s.db.checkouts ==> KnowsFlag(s.threads[t].pc, s.db.checkouts[token]) && KnowsVoucher(s.threads[t].pc, s.db.checkouts[token]);
    }
  }

  lemma {:induction false} AloneHistory(s: State, steps: seq<Step>)
    requires Known(s) && Alone(s) && OneAtATime(s, steps)
    ensures var e := Run(s, steps); e.uncovered == s.uncovered && e.leaked >= s.leaked && (e.leaked == s.leaked <==> NeverLeaks(s, steps))
    decreases |steps|
  {
    if steps != [] {
      StepRemembers(s, steps[0]);
      StepAlone(s, steps[0]);
      StepLeaks(s, steps[0]);
      AloneHistory(Do(s, steps[0]), steps[1..]);
    }
  }

  /**
   With one attempt at a time per checkout, any retries, failures and crashes, the counter is never below its base
   plus flagged checkouts plus voucher orders, and equal to it if and only if no step leaked.
   */
  lemma {:induction false} UsageNeverBelow(s: State, steps: seq<Step>)
    requires Known(s) && Alone(s) && OneAtATime(s, steps)
    ensures var e, base := Run(s, steps), s.db.used - Accounted(s.db);
            && e.db.used >= base + Accounted(e.db)
            && (e.db.used == base + Accounted(e.db) <==> NeverLeaks(s, steps))
  {
    VoucherAccount(s, steps);
    AloneHistory(s, steps);
  }

  /** A shop without checkouts and orders is where every run can begin. */
  lemma {:induction false} EmptyIsKnown(used: int)
    ensures Known(State(Tables(map[], [], used), [], 0, 0, 0)) && Alone(State(Tables(map[], [], used), [], 0, 0, 0))
  {
  }

  // ---- two attempts at once

  const ONE_CHECKOUT := State(Tables(map[0 := Row(true, false)], [], 0), [Thread(0, PayFirst), Thread(0, PayFirst)], 1, 0, 0)
  const FIRST_READY := State(Tables(map[0 := Row(true, true)], [], 1), [Thread(0, PayThird(true, false)), Thread(0, PayFirst)], 1, 0, 0)
  const SECOND_FAILED := State(Tables(map[0 := Row(true, false)], [], 0), [Thread(0, PayThird(true, false)), Thread(0, Failed)], 1, 0, 0)

  /**
   One attempt at a time is needed: while the first attempt waits, a second one on the same checkout fails on taxes and
   releases the usage that the first relies on; the first then places its order with nothing counted.
   */
  lemma {:induction false} UncoveredOrder()
    ensures Known(ONE_CHECKOUT)
    ensures var e := Run(ONE_CHECKOUT, [RunPre(0, Ready(false)), RunPre(1, TaxFailed), RunPost(0, Placed)]);
            e.db.orders == [Order(0, true)] && e.db.used == 0 && e.uncovered == 1
  {
    var a, b, c := RunPre(0, Ready(false)), RunPre(1, TaxFailed), RunPost(0, Placed);
    assert Do(ONE_CHECKOUT, a) == FIRST_READY;
    assert Do(FIRST_READY, b) == SECOND_FAILED;
    assert [a, b, c][1..] == [b, c] && [b, c][1..] == [c] && [c][1..] == [];
    assert Run(SECOND_FAILED, [c]) == Do(SECOND_FAILED, c);
    assert Run(FIRST_READY, [b, c]) == Do(SECOND_FAILED, c);
  }
}
