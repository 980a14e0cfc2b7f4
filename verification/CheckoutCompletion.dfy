/** Checkout completion under every interleaving of any number of threads. */
module CheckoutCompletion {
  import opened Wrappers
  import opened CheckoutStore

  /** Where a completion attempt stands between its transactions, with what it remembers. */
  datatype Pc =
    | PayFirst                                        // about to run the pre-payment transaction
    | PaySecond(voucher: bool)                        // about to process the payment
    | PayThird(voucher: bool, actionRequired: bool)   // about to run the post-payment transaction
    | Loaded(flagSeen: bool)                          // transaction flow: checkout read, nothing done yet
    | Counted(code: bool)                             // transaction flow: usage counted, order not created yet
    | Returned(order: Option<nat>)
    | Failed

  datatype Thread = Thread(token: Token, pc: Pc)

  /**
   `leaked` and `uncovered` are history: usages that stay counted without a flagged checkout or an order, and orders
   placed with the voucher while no usage was counted for them.
   */
  datatype State = State(db: Tables, threads: seq<Thread>, tokens: nat, leaked: nat, uncovered: nat)

  datatype Step =
    | Open(voucher: bool)                             // a new checkout, under a fresh token
    | BeginPayment(token: Token)
    | BeginTransaction(token: Token)
    | RunPre(thread: nat, pre: PreOutcome)
    | RunPay(thread: nat, pay: PayOutcome)
    | RunPost(thread: nat, post: PostOutcome)
    | RunCount(thread: nat, valid: bool)
    | RunCreate(thread: nat, succeeds: bool)
    | Crash(thread: nat)

  predicate At(s: State, t: nat) {
    t < |s.threads|
  }

  function Moved(s: State, t: nat, pc: Pc): State
    requires At(s, t)
  {
    s.(threads := s.threads[t := s.threads[t].(pc := pc)])
  }

  predicate FlagSet(db: Tables, token: Token) {
    token in db.checkouts && db.checkouts[token].usageIncreased
  }

  function AfterPre(s: State, t: nat, outcome: PreOutcome): State
    requires At(s, t)
  {
    var token := s.threads[t].token;
    var s' := s.(db := PrePayment(s.db, token, outcome));
    if token !in s.db.checkouts then Moved(s', t, Returned(OrderFor(s.db.orders, token)))
    else if outcome.Ready? then
      var voucher := s.db.checkouts[token].voucher;
      Moved(s', t, if outcome.payment then PaySecond(voucher) else PayThird(voucher, false))
    else Moved(s', t, Failed)
  }

  function AfterPay(s: State, t: nat, voucher: bool, outcome: PayOutcome): State
    requires At(s, t)
  {
    var token := s.threads[t].token;
    var s' := s.(db := Payment(s.db, token, voucher, outcome),
                 leaked := s.leaked + if FlagSet(s.db, token) && outcome.Inactive? && voucher then 1 else 0);
    if token !in s.db.checkouts then Moved(s', t, Returned(OrderFor(s.db.orders, token)))
    else if outcome.Accepted? then Moved(s', t, PayThird(voucher, outcome.actionRequired))
    else Moved(s', t, Failed)
  }

  /** An order with the voucher and no flag is uncovered; a flag without the voucher in the order is a leak. */
  function WithOrderHistory(s: State, before: Tables, token: Token, voucher: bool): State {
    s.(leaked := s.leaked + (if FlagSet(before, token) && !voucher then 1 else 0),
       uncovered := s.uncovered + (if voucher && !FlagSet(before, token) then 1 else 0))
  }

  function AfterPost(s: State, t: nat, voucher: bool, actionRequired: bool, outcome: PostOutcome): State
    requires At(s, t)
  {
    var token := s.threads[t].token;
    var s' := s.(db := PostPayment(s.db, token, voucher, actionRequired, outcome));
    if token !in s.db.checkouts then Moved(s', t, Returned(OrderFor(s.db.orders, token)))
    else if actionRequired || outcome.RefundOngoing? then Moved(s', t, Returned(None))
    else if outcome.OutOfStock? then Moved(s', t, Failed)
    else
      var existing := OrderFor(s.db.orders, token);
      Moved(WithOrderHistory(s', s.db, token, voucher), t, Returned(if existing.Some? then existing else Some(|s.db.orders|)))
  }

  function AfterCount(s: State, t: nat, flagSeen: bool, valid: bool): State
    requires At(s, t)
  {
    var token := s.threads[t].token;
    if !valid then Moved(s, t, Counted(false))
    else if token !in s.db.checkouts && !flagSeen then Moved(s, t, Failed)   // saving the flag finds no row
    else
      Moved(s.(db := CountBeforeOrder(s.db, token, flagSeen), leaked := s.leaked + if FlagSet(s.db, token) && !flagSeen then 1 else 0),
            t, Counted(true))
  }

  function AfterCreate(s: State, t: nat, code: bool, succeeds: bool): State
    requires At(s, t)
  {
    var token := s.threads[t].token;
    var s' := s.(db := CreateFromCheckout(s.db, token, code, succeeds));
    if token !in s.db.checkouts then Moved(s', t, Returned(OrderFor(s.db.orders, token)))
    else if !succeeds then Moved(s', t, Failed)
    else Moved(WithOrderHistory(s', s.db, token, code), t, Returned(Some(|s.db.orders|)))
  }

  /** The voucher of a checkout is looked up only if the checkout carries one. */
  predicate CodeFound(s: State, t: nat, valid: bool)
    requires At(s, t)
  {
    valid && (s.threads[t].token in s.db.checkouts ==> s.db.checkouts[s.threads[t].token].voucher)
  }

  /** One step; a step that is not enabled changes nothing. */
  function Do(s: State, step: Step): State {
    match step
    case Open(voucher) => s.(db := s.db.(checkouts := s.db.checkouts[s.tokens := Row(voucher, false)]), tokens := s.tokens + 1)
    case BeginPayment(token) => if token < s.tokens then s.(threads := s.threads + [Thread(token, PayFirst)]) else s
    case BeginTransaction(token) =>
      if token in s.db.checkouts then s.(threads := s.threads + [Thread(token, Loaded(s.db.checkouts[token].usageIncreased))]) else s
    case RunPre(t, outcome) => if At(s, t) && s.threads[t].pc.PayFirst? then AfterPre(s, t, outcome) else s
    case RunPay(t, outcome) => if At(s, t) && s.threads[t].pc.PaySecond? then AfterPay(s, t, s.threads[t].pc.voucher, outcome) else s
    case RunPost(t, outcome) =>
      if At(s, t) && s.threads[t].pc.PayThird? then AfterPost(s, t, s.threads[t].pc.voucher, s.threads[t].pc.actionRequired, outcome) else s
    case RunCount(t, valid) =>
      if At(s, t) && s.threads[t].pc.Loaded? then AfterCount(s, t, s.threads[t].pc.flagSeen, CodeFound(s, t, valid)) else s
    case RunCreate(t, succeeds) => if At(s, t) && s.threads[t].pc.Counted? then AfterCreate(s, t, s.threads[t].pc.code, succeeds) else s
    case Crash(t) => if At(s, t) && !s.threads[t].pc.Returned? then Moved(s, t, Failed) else s
  }

  function Run(s: State, steps: seq<Step>): State
    decreases |steps|
  {
    if steps == [] then s else Run(Do(s, steps[0]), steps[1..])
  }

  // ---- at most one order per checkout

  ghost predicate OneOrder(s: State) {
    && (forall token | token in s.db.checkouts :: token < s.tokens)
    && (forall i | 0 <= i < |s.db.orders| :: s.db.orders[i].token < s.tokens && s.db.orders[i].token !in s.db.checkouts)
    && (forall i, j | 0 <= i < j < |s.db.orders| :: s.db.orders[i].token != s.db.orders[j].token)
    && (forall token: Token | token < s.tokens && token !in s.db.checkouts :: OrderFor(s.db.orders, token).Some?)
  }

  /** Threads work on known checkouts, and what they returned is the order of their checkout. */
  ghost predicate RightAnswers(s: State) {
    forall t | 0 <= t < |s.threads| ::
      && s.threads[t].token < s.tokens
      && (s.threads[t].pc.Returned? && s.threads[t].pc.order.Some? ==>
            s.threads[t].pc.order.value < |s.db.orders| && s.db.orders[s.threads[t].pc.order.value].token == s.threads[t].token)
  }

  ghost predicate Consistent(s: State) {
    OneOrder(s) && RightAnswers(s)
  }

  lemma {:induction false} OrderForAppended(orders: seq<Order>, o: Order, token: Token)
    ensures OrderFor(orders + [o], token) ==
            if OrderFor(orders, token).Some? then OrderFor(orders, token) else if o.token == token then Some(|orders|) else None
  {
    var all := orders + [o];
    if orders == [] {
      assert all == [o];
    } else {
      OrderForAppended(orders[1..], o, token);
      assert all[1..] == orders[1..] + [o] && all[0] == orders[0];
    }
  }

  /** The tables that a step of this protocol can leave: the checkout rows stay, or one becomes an order. */
  ghost predicate RowsKept(db: Tables, db': Tables) {
    db'.orders == db.orders && db'.checkouts.Keys == db.checkouts.Keys
  }

  ghost predicate Converted(db: Tables, db': Tables, token: Token) {
    && token in db.checkouts && db'.checkouts == db.checkouts - {token}
    && |db'.orders| == |db.orders| + 1 && db'.orders[..|db.orders|] == db.orders && db'.orders[|db.orders|].token == token
  }

  lemma {:induction false} KeptStaysConsistent(s: State, s': State)
    requires OneOrder(s) && RowsKept(s.db, s'.db) && s'.tokens == s.tokens
    ensures OneOrder(s')
  {
  }

  lemma {:induction false} ConvertedStaysConsistent(s: State, s': State, token: Token)
    requires OneOrder(s) && Converted(s.db, s'.db, token) && s'.tokens == s.tokens
    ensures OneOrder(s')
  {
    var n := |s.db.orders|;
    var o := s'.db.orders[n];
    assert s'.db.orders == s.db.orders + [o];
    forall k: Token | k < s'.tokens && k !in s'.db.checkouts
      ensures OrderFor(s'.db.orders, k).Some?
    {
      OrderForAppended(s.db.orders, o, k);
    }
  }

  /** Before an order is placed there is none for the checkout, so looking first finds nothing. */
  lemma {:induction false} NoOrderYet(s: State, token: Token)
    requires OneOrder(s) && token in s.db.checkouts
    ensures OrderFor(s.db.orders, token).None?
  {
  }

  lemma {:induction false} PlacedConverts(s: State, token: Token, voucher: bool, lookFirst: bool)
    requires OneOrder(s) && token in s.db.checkouts
    ensures Converted(s.db, OrderPlaced(s.db, token, voucher, lookFirst), token)
  {
    NoOrderYet(s, token);
  }

  /** A returned order is the order of the thread's checkout. */
  ghost predicate Answers(db: Tables, token: Token, pc: Pc) {
    pc.Returned? && pc.order.Some? ==> pc.order.value < |db.orders| && db.orders[pc.order.value].token == token
  }

  /** What one thread's step may do: keep the rows or turn its checkout into an order, and answer rightly. */
  ghost predicate ThreadStep(s: State, s': State, t: nat, pc: Pc)
    requires At(s, t)
  {
    && s'.tokens == s.tokens && s'.threads == s.threads[t := s.threads[t].(pc := pc)]
    && (RowsKept(s.db, s'.db) || Converted(s.db, s'.db, s.threads[t].token))
    && Answers(s'.db, s.threads[t].token, pc)
  }

  lemma {:induction false} ThreadStepConsistent(s: State, s': State, t: nat, pc: Pc)
    requires Consistent(s) && At(s, t) && ThreadStep(s, s', t, pc)
    ensures Consistent(s') && s.db.orders <= s'.db.orders
  {
    if RowsKept(s.db, s'.db) {
      KeptStaysConsistent(s, s');
    } else {
      ConvertedStaysConsistent(s, s', s.threads[t].token);
    }
    forall u | 0 <= u < |s'.threads|
      ensures s'.threads[u].token < s'.tokens && Answers(s'.db, s'.threads[u].token, s'.threads[u].pc)
    {
      assert s'.threads[u].token == s.threads[u].token;
      assert Answers(s.db, s.threads[u].token, s.threads[u].pc);
    }
  }

  lemma {:induction false} PreIsThreadStep(s: State, t: nat, outcome: PreOutcome)
    requires Consistent(s) && At(s, t)
    ensures var s' := AfterPre(s, t, outcome); ThreadStep(s, s', t, s'.threads[t].pc)
  {
  }

  lemma {:induction false} PayIsThreadStep(s: State, t: nat, voucher: bool, outcome: PayOutcome)
    requires Consistent(s) && At(s, t)
    ensures var s' := AfterPay(s, t, voucher, outcome); ThreadStep(s, s', t, s'.threads[t].pc)
  {
  }

  lemma {:induction false} PostIsThreadStep(s: State, t: nat, voucher: bool, actionRequired: bool, outcome: PostOutcome)
    requires Consistent(s) && At(s, t)
    ensures var s' := AfterPost(s, t, voucher, actionRequired, outcome); ThreadStep(s, s', t, s'.threads[t].pc)
  {
    var token := s.threads[t].token;
    if token in s.db.checkouts && !actionRequired && outcome.Placed? {
      PlacedConverts(s, token, voucher, true);
      NoOrderYet(s, token);
    }
  }

  lemma {:induction false} CountIsThreadStep(s: State, t: nat, flagSeen: bool, valid: bool)
    requires Consistent(s) && At(s, t)
    ensures var s' := AfterCount(s, t, flagSeen, valid); ThreadStep(s, s', t, s'.threads[t].pc)
  {
  }

  lemma {:induction false} CreateIsThreadStep(s: State, t: nat, code: bool, succeeds: bool)
    requires Consistent(s) && At(s, t)
    ensures var s' := AfterCreate(s, t, code, succeeds); ThreadStep(s, s', t, s'.threads[t].pc)
  {
    if s.threads[t].token in s.db.checkouts && succeeds {
      PlacedConverts(s, s.threads[t].token, code, false);
    }
  }

  /** The thread of a step that is enabled. */
  ghost predicate Enabled(s: State, step: Step) {
    match step
    case RunPre(t, _) => At(s, t) && s.threads[t].pc.PayFirst?
    case RunPay(t, _) => At(s, t) && s.threads[t].pc.PaySecond?
    case RunPost(t, _) => At(s, t) && s.threads[t].pc.PayThird?
    case RunCount(t, _) => At(s, t) && s.threads[t].pc.Loaded?
    case RunCreate(t, _) => At(s, t) && s.threads[t].pc.Counted?
    case Crash(t) => At(s, t) && !s.threads[t].pc.Returned?
    case _ => false
  }

  lemma {:induction false} EnabledIsThreadStep(s: State, step: Step)
    requires Consistent(s) && Enabled(s, step)
    ensures var s' := Do(s, step); ThreadStep(s, s', step.thread, s'.threads[step.thread].pc)
  {
    match step
    case RunPre(t, outcome) => PreIsThreadStep(s, t, outcome);
    case RunPay(t, outcome) => PayIsThreadStep(s, t, s.threads[t].pc.voucher, outcome);
    case RunPost(t, outcome) => PostIsThreadStep(s, t, s.threads[t].pc.voucher, s.threads[t].pc.actionRequired, outcome);
    case RunCount(t, valid) => CountIsThreadStep(s, t, s.threads[t].pc.flagSeen, CodeFound(s, t, valid));
    case RunCreate(t, succeeds) => CreateIsThreadStep(s, t, s.threads[t].pc.code, succeeds);
    case Crash(t) =>
  }

  lemma {:induction false} StepConsistent(s: State, step: Step)
    requires Consistent(s)
    ensures Consistent(Do(s, step)) && s.db.orders <= Do(s, step).db.orders
  {
    if Enabled(s, step) {
      EnabledIsThreadStep(s, step);
      ThreadStepConsistent(s, Do(s, step), step.thread, Do(s, step).threads[step.thread].pc);
    } else if step.Open? {
      OpenConsistent(s, step.voucher);
    } else if step.BeginPayment? || step.BeginTransaction? {
      BeginConsistent(s, step);
    }
  }

  lemma {:induction false} OpenConsistent(s: State, voucher: bool)
    requires Consistent(s)
    ensures Consistent(Do(s, Open(voucher)))
  {
  }

  lemma {:induction false} BeginConsistent(s: State, step: Step)
    requires Consistent(s) && (step.BeginPayment? || step.BeginTransaction?)
    ensures Consistent(Do(s, step)) && Do(s, step).db == s.db
  {
  }

  lemma {:induction false} RunStaysConsistent(s: State, steps: seq<Step>)
    requires Consistent(s)
    ensures Consistent(Run(s, steps)) && s.db.orders <= Run(s, steps).db.orders
    decreases |steps|
  {
    if steps != [] {
      StepConsistent(s, steps[0]);
      RunStaysConsistent(Do(s, steps[0]), steps[1..]);
    }
  }

  /**
   At most one order per checkout: under every interleaving, a checkout and an order for its token never exist
   together, no token has two orders, and all threads that return an order for a token return the same one.
   */
  lemma {:induction false} AtMostOneOrder(s: State, steps: seq<Step>)
    requires Consistent(s)
    ensures var e := Run(s, steps);
            && (forall i | 0 <= i < |e.db.orders| :: e.db.orders[i].token !in e.db.checkouts)
            && (forall i, j | 0 <= i < j < |e.db.orders| :: e.db.orders[i].token != e.db.orders[j].token)
            && (forall t, u | 0 <= t < |e.threads| && 0 <= u < |e.threads| && e.threads[t].token == e.threads[u].token
                              && e.threads[t].pc.Returned? && e.threads[u].pc.Returned?
                              && e.threads[t].pc.order.Some? && e.threads[u].pc.order.Some? ::
                  e.threads[t].pc.order == e.threads[u].pc.order)
  {
    RunStaysConsistent(s, steps);
  }

  /** A thread that finds its checkout gone gets the order that took its place, never nothing. */
  lemma {:induction false} GoneMeansOrdered(s: State, t: nat)
    requires Consistent(s) && At(s, t) && s.threads[t].token !in s.db.checkouts
    ensures OrderFor(s.db.orders, s.threads[t].token).Some?
    ensures s.threads[t].pc.PayFirst? ==> forall o :: Do(s, RunPre(t, o)).threads[t].pc == Returned(OrderFor(s.db.orders, s.threads[t].token))
    ensures s.threads[t].pc.PaySecond? ==> forall o :: Do(s, RunPay(t, o)).threads[t].pc == Returned(OrderFor(s.db.orders, s.threads[t].token))
    ensures s.threads[t].pc.PayThird? ==> forall o :: Do(s, RunPost(t, o)).threads[t].pc == Returned(OrderFor(s.db.orders, s.threads[t].token))
    ensures s.threads[t].pc.Counted? ==> forall b :: Do(s, RunCreate(t, b)).threads[t].pc == Returned(OrderFor(s.db.orders, s.threads[t].token))
  {
  }
}
