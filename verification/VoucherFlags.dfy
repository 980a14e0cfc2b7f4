/** Which steps count and which give up a usage, over runs; and whole attempts from their first step to their last. */
module VoucherFlags {
  import opened Wrappers
  import opened CheckoutStore
  import opened CheckoutCompletion
  import opened VoucherAccounting

  ghost predicate StepOn(s: State, step: Step, token: Token) {
    Enabled(s, step) && s.threads[step.thread].token == token
  }

  /** The usage is counted: order data are ready, or the transaction flow finds the code and saw no flag. */
  ghost predicate Counts(s: State, step: Step, token: Token) {
    && StepOn(s, step, token) && token in s.db.checkouts && s.db.checkouts[token].voucher
    && ((step.RunPre? && step.pre.Ready?) || (step.RunCount? && step.valid && !s.threads[step.thread].pc.flagSeen))
  }

  /** The attempt ends after the usage was counted: taxes fail, the payment is inactive, stock is out, or an action is required. */
  ghost predicate GivesUp(s: State, step: Step, token: Token) {
    && StepOn(s, step, token)
    && (|| (step.RunPre? && step.pre.TaxFailed?)
        || (step.RunPay? && step.pay.Inactive?)
        || (step.RunPost? && (s.threads[step.thread].pc.actionRequired || step.post.OutOfStock?)))
  }

  /** Whether the last step of the run that counted or gave up the usage of the checkout gave it up. */
  ghost function GivenUp(s: State, steps: seq<Step>, token: Token, before: bool): bool
    decreases |steps|
  {
    if steps == [] then before
    else GivenUp(Do(s, steps[0]), steps[1..], token, !Counts(s, steps[0], token) && (before || GivesUp(s, steps[0], token)))
  }

  ghost predicate FlagTells(s: State, token: Token, givenUp: bool) {
    (FlagSet(s.db, token) <==> token in s.db.checkouts && !givenUp) && (token >= s.tokens ==> givenUp)
  }

  lemma {:induction false} PreFlag(s: State, t: nat, outcome: PreOutcome)
    requires Known(s) && At(s, t) && s.threads[t].token in s.db.checkouts
    ensures var db, db', token := s.db, AfterPre(s, t, outcome).db, s.threads[t].token;
            && token in db'.checkouts
            && (FlagSet(db', token) <==> (if outcome.TaxFailed? then false else FlagSet(db, token) || (outcome.Ready? && db.checkouts[token].voucher)))
  {
  }

  lemma {:induction false} PayFlag(s: State, t: nat, voucher: bool, outcome: PayOutcome)
    requires Known(s) && At(s, t) && s.threads[t].token in s.db.checkouts && s.threads[t].pc == PaySecond(voucher)
    ensures var db, db', token := s.db, AfterPay(s, t, voucher, outcome).db, s.threads[t].token;
            token in db'.checkouts && (FlagSet(db', token) <==> FlagSet(db, token) && !outcome.Inactive?)
  {
    assert KnowsVoucher(s.threads[t].pc, s.db.checkouts[s.threads[t].token]);
  }

  lemma {:induction false} PostFlag(s: State, t: nat, voucher: bool, actionRequired: bool, outcome: PostOutcome)
    requires Known(s) && At(s, t) && s.threads[t].token in s.db.checkouts && s.threads[t].pc == PayThird(voucher, actionRequired)
    ensures var db, db', token := s.db, AfterPost(s, t, voucher, actionRequired, outcome).db, s.threads[t].token;
            if !actionRequired && outcome.Placed? then token !in db'.checkouts
            else token in db'.checkouts && (FlagSet(db', token) <==> FlagSet(db, token) && !actionRequired && !outcome.OutOfStock?)
  {
    assert KnowsVoucher(s.threads[t].pc, s.db.checkouts[s.threads[t].token]);
  }

  lemma {:induction false} CountFlag(s: State, t: nat, flagSeen: bool, valid: bool)
    requires At(s, t) && s.threads[t].token in s.db.checkouts
    ensures var db, db', token := s.db, AfterCount(s, t, flagSeen, CodeFound(s, t, valid)).db, s.threads[t].token;
            && token in db'.checkouts
            && (FlagSet(db', token) <==> FlagSet(db, token) || (valid && !flagSeen && db.checkouts[token].voucher))
  {
  }

  lemma {:induction false} CreateFlag(s: State, t: nat, code: bool, succeeds: bool)
    requires At(s, t) && s.threads[t].token in s.db.checkouts
    ensures var db' := AfterCreate(s, t, code, succeeds).db;
            if succeeds then s.threads[t].token !in db'.checkouts else db' == s.db
  {
  }

  lemma {:induction false} OwnFlag(s: State, step: Step, givenUp: bool)
    requires Known(s) && Enabled(s, step) && FlagTells(s, s.threads[step.thread].token, givenUp)
    ensures var token := s.threads[step.thread].token;
            FlagTells(Do(s, step), token, !Counts(s, step, token) && (givenUp || GivesUp(s, step, token)))
  {
    var t := step.thread;
    var token := s.threads[t].token;
    EnabledIsThreadStep(s, step);
    if token in s.db.checkouts {
      match step
      case RunPre(_, outcome) => PreFlag(s, t, outcome);
      case RunPay(_, outcome) => PayFlag(s, t, s.threads[t].pc.voucher, outcome);
      case RunPost(_, outcome) => PostFlag(s, t, s.threads[t].pc.voucher, s.threads[t].pc.actionRequired, outcome);
      case RunCount(_, valid) => CountFlag(s, t, s.threads[t].pc.flagSeen, valid);
      case RunCreate(_, succeeds) => CreateFlag(s, t, s.threads[t].pc.code, succeeds);
      case Crash(_) =>
    }
  }

  lemma {:induction false} OtherFlag(s: State, step: Step, token: Token, givenUp: bool)
    requires Known(s) && FlagTells(s, token, givenUp) && !StepOn(s, step, token)
    ensures FlagTells(Do(s, step), token, givenUp)
  {
    if Enabled(s, step) {
      EnabledRowChange(s, step);
      EnabledIsThreadStep(s, step);
    }
  }

  /**
   Over every run, a live checkout carries the flag exactly if the last step that counted or gave up its usage counted
   it: whatever ends an attempt after its first transaction leaves the checkout unflagged.
   */
  lemma {:induction false} FlagFollows(s: State, steps: seq<Step>, token: Token, before: bool)
    requires Known(s) && FlagTells(s, token, before)
    ensures FlagTells(Run(s, steps), token, GivenUp(s, steps, token, before))
    decreases |steps|
  {
    if steps != [] {
      StepRemembers(s, steps[0]);
      if StepOn(s, steps[0], token) {
        OwnFlag(s, steps[0], before);
      } else {
        OtherFlag(s, steps[0], token, before);
      }
      FlagFollows(Do(s, steps[0]), steps[1..], token, !Counts(s, steps[0], token) && (before || GivesUp(s, steps[0], token)));
    }
  }

  lemma {:induction false} NoneFlagged(checkouts: map<Token, Row>)
    ensures Flagged(checkouts) == 0 <==> forall token | token in checkouts :: !checkouts[token].usageIncreased
  {
    var f := FlaggedTokens(checkouts);
    assert forall token | token in checkouts && checkouts[token].usageIncreased :: token in f;
    if f != {} {
      var token :| token in f;
    }
  }

  /**
   From a shop without flags, the counter has moved by the voucher orders of the run, plus its leaks, less its uncovered
   orders, exactly if the usage of every live checkout was given up last.
   */
  lemma {:induction false} NothingHeld(s: State, steps: seq<Step>)
    requires Known(s) && forall token | token in s.db.checkouts :: !s.db.checkouts[token].usageIncreased
    ensures var e := Run(s, steps);
            e.db.used - s.db.used ==
            VoucherOrders(e.db.orders) - VoucherOrders(s.db.orders) + (e.leaked - s.leaked) - (e.uncovered - s.uncovered)
            <==> forall token | token in e.db.checkouts :: GivenUp(s, steps, token, true)
  {
    var e := Run(s, steps);
    VoucherAccount(s, steps);
    NoneFlagged(s.db.checkouts);
    NoneFlagged(e.db.checkouts);
    forall token | token in e.db.checkouts
      ensures e.db.checkouts[token].usageIncreased <==> !GivenUp(s, steps, token, true)
    {
      FlagFollows(s, steps, token, true);
    }
  }

  // ---- whole attempts

  lemma {:induction false} ThreeSteps(s: State, a: Step, b: Step, c: Step)
    ensures Run(s, [a, b]) == Do(Do(s, a), b) && Run(s, [a, b, c]) == Do(Do(Do(s, a), b), c)
  {
    assert [a, b, c][1..] == [b, c] && [b, c][1..] == [c] && [c][1..] == [] && [a, b][1..] == [b] && [b][1..] == [];
    assert Run(Do(Do(s, a), b), [c]) == Run(Do(Do(Do(s, a), b), c), []);
    assert Run(Do(s, a), [b, c]) == Run(Do(Do(s, a), b), [c]);
    assert Run(Do(s, a), [b]) == Run(Do(Do(s, a), b), []);
  }

  ghost predicate AboutToPay(s: State, t: nat) {
    At(s, t) && s.threads[t].pc.PayFirst? && s.threads[t].token in s.db.checkouts
  }

  /** Order data are ready: the usage is counted unless it is already, and the attempt knows the voucher. */
  lemma {:induction false} AfterReady(s: State, t: nat, payment: bool)
    requires AboutToPay(s, t)
    ensures var s', token := Do(s, RunPre(t, Ready(payment))), s.threads[t].token;
            var row := s.db.checkouts[token];
            && At(s', t) && s'.threads[t] == Thread(token, if payment then PaySecond(row.voucher) else PayThird(row.voucher, false))
            && s'.db == Tables(s.db.checkouts[token := row.(usageIncreased := row.usageIncreased || row.voucher)], s.db.orders,
                               s.db.used + (if row.voucher && !row.usageIncreased then 1 else 0))
  {
    var row := s.db.checkouts[s.threads[t].token];
    assert s.db.checkouts[s.threads[t].token := row] == s.db.checkouts;
  }

  /** An attempt that succeeds: the order is there, with the voucher counted once, and the checkout is gone. */
  ghost predicate Ordered(s: State, e: State, t: nat, token: Token)
    requires token in s.db.checkouts
  {
    var row := s.db.checkouts[token];
    && e.db.orders == s.db.orders + [Order(token, row.voucher)]
    && e.db.checkouts == s.db.checkouts - {token}
    && e.db.used == s.db.used + (if row.voucher && !row.usageIncreased then 1 else 0)
    && At(e, t) && e.threads[t].pc == Returned(Some(|s.db.orders|))
  }

  lemma {:induction false} PaidAttempt(s: State, t: nat)
    requires Known(s) && AboutToPay(s, t)
    ensures Ordered(s, Run(s, [RunPre(t, Ready(true)), RunPay(t, Accepted(false)), RunPost(t, Placed)]), t, s.threads[t].token)
    ensures Ordered(s, Run(s, [RunPre(t, Ready(false)), RunPost(t, Placed)]), t, s.threads[t].token)
  {
    ThreeSteps(s, RunPre(t, Ready(true)), RunPay(t, Accepted(false)), RunPost(t, Placed));
    ThreeSteps(s, RunPre(t, Ready(false)), RunPost(t, Placed), RunPost(t, Placed));
    AfterReady(s, t, true);
    AfterReady(s, t, false);
    NoOrderYet(s, s.threads[t].token);
    PlacedLast(s, Do(Do(s, RunPre(t, Ready(true))), RunPay(t, Accepted(false))), t);
    PlacedLast(s, Do(s, RunPre(t, Ready(false))), t);
  }

  lemma {:induction false} PlacedLast(s: State, s2: State, t: nat)
    requires AboutToPay(s, t) && OrderFor(s.db.orders, s.threads[t].token).None?
    requires var token := s.threads[t].token;
             var row := s.db.checkouts[token];
             && At(s2, t) && s2.threads[t] == Thread(token, PayThird(row.voucher, false))
             && s2.db == Tables(s.db.checkouts[token := row.(usageIncreased := row.usageIncreased || row.voucher)], s.db.orders,
                                s.db.used + (if row.voucher && !row.usageIncreased then 1 else 0))
    ensures Ordered(s, Do(s2, RunPost(t, Placed)), t, s.threads[t].token)
  {
    assert s2.db.checkouts - {s.threads[t].token} == s.db.checkouts - {s.threads[t].token};
  }

  /** An attempt on an unflagged checkout that ends out of stock, in a required action or on taxes leaves the tables as they were. */
  lemma {:induction false} AttemptUndone(s: State, t: nat, post: PostOutcome)
    requires Known(s) && AboutToPay(s, t) && !FlagSet(s.db, s.threads[t].token)
    ensures Run(s, [RunPre(t, Ready(true)), RunPay(t, Accepted(false)), RunPost(t, OutOfStock)]).db == s.db
    ensures Run(s, [RunPre(t, Ready(false)), RunPost(t, OutOfStock)]).db == s.db
    ensures Run(s, [RunPre(t, Ready(true)), RunPay(t, Accepted(true)), RunPost(t, post)]).db == s.db
    ensures Do(s, RunPre(t, TaxFailed)).db == s.db
  {
    ThreeSteps(s, RunPre(t, Ready(true)), RunPay(t, Accepted(false)), RunPost(t, OutOfStock));
    ThreeSteps(s, RunPre(t, Ready(true)), RunPay(t, Accepted(true)), RunPost(t, post));
    ThreeSteps(s, RunPre(t, Ready(false)), RunPost(t, OutOfStock), RunPost(t, OutOfStock));
    AfterReady(s, t, true);
    AfterReady(s, t, false);
    UndoneLast(s, Do(Do(s, RunPre(t, Ready(true))), RunPay(t, Accepted(false))), t, false, OutOfStock);
    UndoneLast(s, Do(s, RunPre(t, Ready(false))), t, false, OutOfStock);
    UndoneLast(s, Do(Do(s, RunPre(t, Ready(true))), RunPay(t, Accepted(true))), t, true, post);
    assert Do(s, RunPre(t, TaxFailed)).db.checkouts == s.db.checkouts;
  }

  lemma {:induction false} UndoneLast(s: State, s2: State, t: nat, actionRequired: bool, post: PostOutcome)
    requires AboutToPay(s, t) && !FlagSet(s.db, s.threads[t].token) && (actionRequired || post.OutOfStock?)
    requires var token := s.threads[t].token;
             var row := s.db.checkouts[token];
             && At(s2, t) && s2.threads[t] == Thread(token, PayThird(row.voucher, actionRequired))
             && s2.db == Tables(s.db.checkouts[token := row.(usageIncreased := row.voucher)], s.db.orders,
                                s.db.used + (if row.voucher then 1 else 0))
    ensures Do(s2, RunPost(t, post)).db == s.db
  {
    assert Do(s2, RunPost(t, post)).db.checkouts == s.db.checkouts;
  }

  /** The transaction flow, undisturbed: one order, with the voucher if its code is found, counted once. */
  lemma {:induction false} TransactionAttempt(s: State, token: Token, valid: bool)
    requires Known(s) && token in s.db.checkouts
    ensures var n, row, code := |s.threads|, s.db.checkouts[token], valid && s.db.checkouts[token].voucher;
            var e := Run(s, [BeginTransaction(token), RunCount(n, valid), RunCreate(n, true)]);
            && e.db.orders == s.db.orders + [Order(token, code)]
            && e.db.checkouts == s.db.checkouts - {token}
            && e.db.used == s.db.used + (if code && !row.usageIncreased then 1 else 0)
            && At(e, n) && e.threads[n].pc == Returned(Some(|s.db.orders|))
  {
    var n, row, code := |s.threads|, s.db.checkouts[token], valid && s.db.checkouts[token].voucher;
    ThreeSteps(s, BeginTransaction(token), RunCount(n, valid), RunCreate(n, true));
    var s1 := Do(s, BeginTransaction(token));
    var s2 := Do(s1, RunCount(n, valid));
    assert s1.threads[n] == Thread(token, Loaded(row.usageIncreased)) && s1.db == s.db;
    assert s2.threads[n] == Thread(token, Counted(code)) && s2.db.orders == s.db.orders;
    assert s2.db.checkouts - {token} == s.db.checkouts - {token};
  }
}
