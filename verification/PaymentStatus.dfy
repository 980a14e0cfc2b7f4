/**
 saleor/checkout/payment_utils.py and saleor/checkout/actions.py: how far a checkout is charged and authorized, and
 what happens when the amounts of a transaction change. Amounts in minor units.
 */
module PaymentStatus {
  import opened Wrappers

  datatype ChargeStatus = ChargeNone | ChargePartial | ChargeFull | Overcharged

  datatype AuthorizeStatus = AuthorizeNone | AuthorizePartial | AuthorizeFull

  datatype Transaction = Transaction(
    authorized: int, authorizePending: int, charged: int, chargePending: int,
    lastRefundSuccess: bool, modifiedAt: nat)

  predicate FullyPaid(s: ChargeStatus) {
    s.ChargeFull? || s.Overcharged?
  }

  function TotalCharged(ts: seq<Transaction>): int {
    if ts == [] then 0 else TotalCharged(ts[..|ts| - 1]) + ts[|ts| - 1].charged + ts[|ts| - 1].chargePending
  }

  function TotalAuthorized(ts: seq<Transaction>): int {
    if ts == [] then 0 else TotalAuthorized(ts[..|ts| - 1]) + ts[|ts| - 1].authorized + ts[|ts| - 1].authorizePending
  }

  function SumOver(ts: seq<Transaction>, amount: Transaction -> int): int {
    if ts == [] then 0 else amount(ts[0]) + SumOver(ts[1..], amount)
  }

  lemma {:induction false} SumOverSnoc(ts: seq<Transaction>, t: Transaction, amount: Transaction -> int)
    ensures SumOver(ts + [t], amount) == SumOver(ts, amount) + amount(t)
  {
    if ts == [] {
      assert ts + [t] == [t] && [t][1..] == [];
    } else {
      SumOverSnoc(ts[1..], t, amount);
      assert (ts + [t])[1..] == ts[1..] + [t];
    }
  }

  function ChargedOf(t: Transaction): int { t.charged }

  function ChargePendingOf(t: Transaction): int { t.chargePending }

  function AuthorizedOf(t: Transaction): int { t.authorized }

  function AuthorizePendingOf(t: Transaction): int { t.authorizePending }

  /** Amounts whose confirmation is pending count as much as the confirmed ones. */
  lemma {:induction false} PendingCounts(ts: seq<Transaction>)
    ensures TotalCharged(ts) == SumOver(ts, ChargedOf) + SumOver(ts, ChargePendingOf)
    ensures TotalAuthorized(ts) == SumOver(ts, AuthorizedOf) + SumOver(ts, AuthorizePendingOf)
    decreases |ts|
  {
    if ts != [] {
      var front, t := ts[..|ts| - 1], ts[|ts| - 1];
      PendingCounts(front);
      assert ts == front + [t];
      SumOverSnoc(front, t, ChargedOf);
      SumOverSnoc(front, t, ChargePendingOf);
      SumOverSnoc(front, t, AuthorizedOf);
      SumOverSnoc(front, t, AuthorizePendingOf);
    }
  }

  method GetPaymentAmounts(ts: seq<Transaction>) returns (authorized: int, charged: int)
    ensures authorized == TotalAuthorized(ts) && charged == TotalCharged(ts)
    ensures authorized == SumOver(ts, AuthorizedOf) + SumOver(ts, AuthorizePendingOf)
    ensures charged == SumOver(ts, ChargedOf) + SumOver(ts, ChargePendingOf)
  {
    PendingCounts(ts);
    authorized, charged := 0, 0;
    for i := 0 to |ts|
      invariant authorized == TotalAuthorized(ts[..i]) && charged == TotalCharged(ts[..i])
    {
      assert ts[..i + 1][..i] == ts[..i];
      authorized := authorized + ts[i].authorized;
      authorized := authorized + ts[i].authorizePending;
      charged := charged + ts[i].charged;
      charged := charged + ts[i].chargePending;
    }
    assert ts[..|ts|] == ts;
  }

  // ---- the statuses, by what they mean

  /** There are lines to pay for and they cost nothing. */
  predicate Free(total: int, hasLines: bool) {
    hasLines && total <= 0
  }

  ghost predicate ChargeMeans(s: ChargeStatus, total: int, hasLines: bool, charged: int) {
    match s
    case ChargeNone => charged <= 0 && !Free(total, hasLines)
    case ChargePartial => 0 < charged < total
    case ChargeFull => (charged <= 0 && Free(total, hasLines)) || (0 < charged && charged == total)
    case Overcharged => charged > 0 && charged > total
  }

  ghost predicate AuthorizeMeans(s: AuthorizeStatus, total: int, hasLines: bool, covered: int) {
    match s
    case AuthorizeFull => Free(total, hasLines) || (covered != 0 && covered >= total)
    case AuthorizePartial => !Free(total, hasLines) && 0 < covered < total
    case AuthorizeNone => !Free(total, hasLines) && (covered == 0 || (covered < 0 && covered < total))
  }

  /** The meanings exclude each other, and one of them always applies. */
  lemma {:induction false} MeansOne(total: int, hasLines: bool, charged: int, covered: int)
    ensures exists s :: ChargeMeans(s, total, hasLines, charged)
    ensures forall s, t | ChargeMeans(s, total, hasLines, charged) && ChargeMeans(t, total, hasLines, charged) :: s == t
    ensures exists s :: AuthorizeMeans(s, total, hasLines, covered)
    ensures forall s, t | AuthorizeMeans(s, total, hasLines, covered) && AuthorizeMeans(t, total, hasLines, covered) :: s == t
  {
    assert ChargeMeans(ChargeNone, total, hasLines, charged) || ChargeMeans(ChargePartial, total, hasLines, charged)
           || ChargeMeans(ChargeFull, total, hasLines, charged) || ChargeMeans(Overcharged, total, hasLines, charged);
    assert AuthorizeMeans(AuthorizeNone, total, hasLines, covered) || AuthorizeMeans(AuthorizePartial, total, hasLines, covered)
           || AuthorizeMeans(AuthorizeFull, total, hasLines, covered);
  }

  class Checkout {
    var chargeStatus: ChargeStatus
    var authorizeStatus: AuthorizeStatus
    var lastModifiedAt: Option<nat>
    var refundable: bool

    method UpdateChargeStatus(total: int, totalCharged: int, hasLines: bool)
      modifies this`chargeStatus
      ensures ChargeMeans(chargeStatus, total, hasLines, totalCharged)
    {
      var charged := if totalCharged < 0 then 0 else totalCharged;
      var free := hasLines && total <= 0;
      if charged <= 0 && free {
        chargeStatus := ChargeFull;
      } else if charged <= 0 {
        chargeStatus := ChargeNone;
      } else if charged < total {
        chargeStatus := ChargePartial;
      } else if charged == total {
        chargeStatus := ChargeFull;
      } else {
        chargeStatus := Overcharged;
      }
    }

    method UpdateAuthorizeStatus(total: int, authorized: int, charged: int, hasLines: bool)
      modifies this`authorizeStatus
      ensures AuthorizeMeans(authorizeStatus, total, hasLines, authorized + charged)
    {
      var covered := authorized + charged;
      var free := hasLines && total <= 0;
      if free {
        authorizeStatus := AuthorizeFull;
      } else if covered == 0 {
        authorizeStatus := AuthorizeNone;
      } else if covered >= total {
        authorizeStatus := AuthorizeFull;
      } else if covered < total && covered > 0 {
        authorizeStatus := AuthorizePartial;
      } else {
        authorizeStatus := AuthorizeNone;
      }
    }

    method UpdatePaymentStatuses(total: int, hasLines: bool, ts: seq<Transaction>)
      modifies this`chargeStatus, this`authorizeStatus
      ensures ChargeMeans(chargeStatus, total, hasLines, TotalCharged(ts))
      ensures AuthorizeMeans(authorizeStatus, total, hasLines, TotalAuthorized(ts) + TotalCharged(ts))
    {
      var authorized, charged := GetPaymentAmounts(ts);
      UpdateAuthorizeStatus(total, authorized, charged, hasLines);
      UpdateChargeStatus(total, charged, hasLines);
    }

    method UpdateLastModified(t: Transaction)
      modifies this`lastModifiedAt
      ensures lastModifiedAt == Some(Latest(old(lastModifiedAt), t.modifiedAt))
    {
      if lastModifiedAt.None? || lastModifiedAt.value < t.modifiedAt {
        lastModifiedAt := Some(t.modifiedAt);
      }
    }

    /**
     After the amounts of the i-th transaction have changed from what they were. Says whether the checkout is announced
     as fully paid and whether its completion is scheduled. If the refundable flag was right before the change, it is
     right afterwards.
     */
    method TransactionAmountsUpdated(total: int, hasLines: bool, ts: seq<Transaction>, i: nat, automatic: bool, ghost was: Transaction)
      returns (announced: bool, scheduled: bool)
      requires i < |ts|
      modifies this
      ensures Statuses(chargeStatus, authorizeStatus) == Next(Updated(total, hasLines, ts, automatic))
      ensures announced == (!FullyPaid(old(chargeStatus)) && FullyPaid(chargeStatus))
      ensures scheduled == (automatic && !old(authorizeStatus).AuthorizeFull? && authorizeStatus.AuthorizeFull?)
      ensures lastModifiedAt == Some(Latest(old(lastModifiedAt), ts[i].modifiedAt))
      ensures old(refundable) == AnyRefundable(ts[i := was]) ==> refundable == AnyRefundable(ts)
      ensures AnyRefundable(ts) <==> exists t | t in ts :: t.lastRefundSuccess && (t.authorized > 0 || t.charged > 0)
      ensures lastModifiedAt.Some? && lastModifiedAt.value >= ts[i].modifiedAt
      ensures if old(lastModifiedAt).Some? && old(lastModifiedAt).value > ts[i].modifiedAt then lastModifiedAt == old(lastModifiedAt)
              else lastModifiedAt.value == ts[i].modifiedAt
    {
      var previousCharge, previousAuthorize := chargeStatus, authorizeStatus;
      UpdatePaymentStatuses(total, hasLines, ts);
      MeansOne(total, hasLines, TotalCharged(ts), TotalAuthorized(ts) + TotalCharged(ts));
      UpdateLastModified(ts[i]);
      if Refundable(ts[i]) != refundable {
        refundable := AnyRefundable(ts);
      }
      OneChanged(ts, i, was);
      announced := !FullyPaid(previousCharge) && FullyPaid(chargeStatus);
      scheduled := automatic && !previousAuthorize.AuthorizeFull? && authorizeStatus.AuthorizeFull?;
    }
  }

  function Latest(known: Option<nat>, t: nat): nat {
    if known.Some? && known.value > t then known.value else t
  }

  predicate Refundable(t: Transaction) {
    t.lastRefundSuccess && (t.authorized > 0 || t.charged > 0)
  }

  predicate AnyRefundable(ts: seq<Transaction>) {
    exists t :: t in ts && Refundable(t)
  }

  lemma {:induction false} OneChanged(ts: seq<Transaction>, i: nat, was: Transaction)
    requires i < |ts|
    ensures Refundable(ts[i]) ==> AnyRefundable(ts)
    ensures !Refundable(ts[i]) && !AnyRefundable(ts[i := was]) ==> !AnyRefundable(ts)
  {
    assert ts[i] in ts;
    if !Refundable(ts[i]) && AnyRefundable(ts) {
      var t :| t in ts && Refundable(t);
      var j :| 0 <= j < |ts| && ts[j] == t;
      assert ts[i := was][j] == t;
    }
  }

  /** With no negative authorization, a fully paid checkout is fully authorized. */
  lemma {:induction false} PaidIsAuthorized(c: ChargeStatus, a: AuthorizeStatus, total: int, hasLines: bool, authorized: int, charged: int)
    requires authorized >= 0
    requires ChargeMeans(c, total, hasLines, charged) && AuthorizeMeans(a, total, hasLines, authorized + charged)
    ensures FullyPaid(c) ==> a.AuthorizeFull?
  {
  }

  // ---- runs: updates that announce, and refreshes (a query of a status does one) that do not

  datatype Statuses = Statuses(charge: ChargeStatus, authorize: AuthorizeStatus)

  datatype Move =
    | Updated(total: int, hasLines: bool, ts: seq<Transaction>, automatic: bool)
    | Refreshed(total: int, hasLines: bool, ts: seq<Transaction>)

  /** The statuses that have the right meaning. */
  ghost function Next(m: Move): (r: Statuses)
    ensures ChargeMeans(r.charge, m.total, m.hasLines, TotalCharged(m.ts))
    ensures AuthorizeMeans(r.authorize, m.total, m.hasLines, TotalAuthorized(m.ts) + TotalCharged(m.ts))
  {
    MeansOne(m.total, m.hasLines, TotalCharged(m.ts), TotalAuthorized(m.ts) + TotalCharged(m.ts));
    var c :| ChargeMeans(c, m.total, m.hasLines, TotalCharged(m.ts));
    var a :| AuthorizeMeans(a, m.total, m.hasLines, TotalAuthorized(m.ts) + TotalCharged(m.ts));
    Statuses(c, a)
  }

  /** The two things that happen on reaching a status: the fully-paid event, and the scheduling of completion. */
  datatype Signal = FullyPaidEvent | CompletionTask

  predicate Reached(signal: Signal, s: Statuses) {
    if signal.FullyPaidEvent? then FullyPaid(s.charge) else s.authorize.AuthorizeFull?
  }

  predicate Signals(signal: Signal, m: Move) {
    m.Updated? && (signal.CompletionTask? ==> m.automatic)
  }

  function Bit(b: bool): int {
    if b then 1 else 0
  }

  ghost function End(s: Statuses, moves: seq<Move>): Statuses {
    if moves == [] then s else Next(moves[|moves| - 1])
  }

  /** How often the signal was given. */
  ghost function Given(signal: Signal, s: Statuses, moves: seq<Move>): nat
    decreases |moves|
  {
    if moves == [] then 0
    else
      var next := Next(moves[0]);
      (if !Reached(signal, s) && Reached(signal, next) && Signals(signal, moves[0]) then 1 else 0) + Given(signal, next, moves[1..])
  }

  /** How often the status was reached without the signal. */
  ghost function Silent(signal: Signal, s: Statuses, moves: seq<Move>): nat
    decreases |moves|
  {
    if moves == [] then 0
    else
      var next := Next(moves[0]);
      (if !Reached(signal, s) && Reached(signal, next) && !Signals(signal, moves[0]) then 1 else 0) + Silent(signal, next, moves[1..])
  }

  /** How often the status was lost again. */
  ghost function Lost(signal: Signal, s: Statuses, moves: seq<Move>): nat
    decreases |moves|
  {
    if moves == [] then 0
    else
      var next := Next(moves[0]);
      (if Reached(signal, s) && !Reached(signal, next) then 1 else 0) + Lost(signal, next, moves[1..])
  }

  /** The account of every run: what was signalled or reached silently, less what was lost, is the change of the status. */
  lemma {:induction false} SignalAccount(signal: Signal, s: Statuses, moves: seq<Move>)
    ensures Given(signal, s, moves) + Silent(signal, s, moves) - Lost(signal, s, moves) ==
            Bit(Reached(signal, End(s, moves))) - Bit(Reached(signal, s))
    decreases |moves|
  {
    if moves != [] {
      var next := Next(moves[0]);
      SignalAccount(signal, next, moves[1..]);
      assert End(next, moves[1..]) == End(s, moves);
    }
  }

  // ---- the same in terms of the amounts

  /** The amount that counts towards the status. */
  function Level(signal: Signal, ts: seq<Transaction>): int {
    if signal.FullyPaidEvent? then TotalCharged(ts) else TotalAuthorized(ts) + TotalCharged(ts)
  }

  predicate Enough(signal: Signal, total: int, hasLines: bool, level: int) {
    Free(total, hasLines) || (level >= total && if signal.FullyPaidEvent? then level > 0 else level != 0)
  }

  predicate EnoughAt(signal: Signal, m: Move) {
    Enough(signal, m.total, m.hasLines, Level(signal, m.ts))
  }

  lemma {:induction false} ReachedIsEnough(signal: Signal, m: Move)
    ensures Reached(signal, Next(m)) <==> EnoughAt(signal, m)
  {
  }

  /** Before the i-th move the amounts were enough; before the first one the status tells. */
  predicate EnoughBefore(signal: Signal, s: Statuses, moves: seq<Move>, i: nat)
    requires i <= |moves|
  {
    if i == 0 then Reached(signal, s) else EnoughAt(signal, moves[i - 1])
  }

  /** At the i-th move the amounts become enough. */
  predicate Reaches(signal: Signal, s: Statuses, moves: seq<Move>, i: int) {
    0 <= i < |moves| && !EnoughBefore(signal, s, moves, i) && EnoughAt(signal, moves[i])
  }

  /** And the move gives the signal, or is silent. */
  predicate ReachesBy(signal: Signal, s: Statuses, moves: seq<Move>, i: int, given: bool) {
    Reaches(signal, s, moves, i) && Signals(signal, moves[i]) == given
  }

  lemma {:induction false} ReachesTail(signal: Signal, s: Statuses, moves: seq<Move>, i: int, given: bool)
    requires 0 < i && moves != []
    ensures ReachesBy(signal, s, moves, i, given) <==> ReachesBy(signal, Next(moves[0]), moves[1..], i - 1, given)
  {
    ReachedIsEnough(signal, moves[0]);
  }

  ghost predicate SomeBy(signal: Signal, s: Statuses, moves: seq<Move>, given: bool) {
    exists i :: ReachesBy(signal, s, moves, i, given)
  }

  lemma {:induction false} SomeStep(signal: Signal, s: Statuses, moves: seq<Move>, given: bool)
    requires moves != []
    ensures SomeBy(signal, s, moves, given) <==>
            ReachesBy(signal, s, moves, 0, given) || SomeBy(signal, Next(moves[0]), moves[1..], given)
  {
    var next, t := Next(moves[0]), moves[1..];
    if SomeBy(signal, s, moves, given) {
      var i :| ReachesBy(signal, s, moves, i, given);
      if i > 0 {
        ReachesTail(signal, s, moves, i, given);
      }
    }
    if SomeBy(signal, next, t, given) {
      var i :| ReachesBy(signal, next, t, i, given);
      ReachesTail(signal, s, moves, i + 1, given);
    }
  }

  lemma {:induction false} NoneGiven(signal: Signal, s: Statuses, moves: seq<Move>)
    ensures Given(signal, s, moves) == 0 <==> !SomeBy(signal, s, moves, true)
    ensures Silent(signal, s, moves) == 0 <==> !SomeBy(signal, s, moves, false)
    decreases |moves|
  {
    if moves != [] {
      ReachedIsEnough(signal, moves[0]);
      NoneGiven(signal, Next(moves[0]), moves[1..]);
      SomeStep(signal, s, moves, true);
      SomeStep(signal, s, moves, false);
    }
  }

  /** The amounts become enough at a signalling move, are lost, and become enough again at a later signalling move. */
  ghost predicate LostAndRegained(signal: Signal, s: Statuses, moves: seq<Move>) {
    exists i, j :: i < j && ReachesBy(signal, s, moves, i, true) && ReachesBy(signal, s, moves, j, true)
                   && exists k | i < k < j :: !EnoughAt(signal, moves[k])
  }

  ghost predicate TwoGiven(signal: Signal, s: Statuses, moves: seq<Move>) {
    exists i, j :: i < j && ReachesBy(signal, s, moves, i, true) && ReachesBy(signal, s, moves, j, true)
  }

  lemma {:induction false} TwoAreApart(signal: Signal, s: Statuses, moves: seq<Move>)
    ensures TwoGiven(signal, s, moves) <==> LostAndRegained(signal, s, moves)
  {
    if TwoGiven(signal, s, moves) {
      var i, j :| i < j && ReachesBy(signal, s, moves, i, true) && ReachesBy(signal, s, moves, j, true);
      assert !EnoughAt(signal, moves[j - 1]);
    }
  }

  lemma {:induction false} TwoGivenStep(signal: Signal, s: Statuses, moves: seq<Move>)
    requires moves != []
    ensures TwoGiven(signal, s, moves) <==>
            || (ReachesBy(signal, s, moves, 0, true) && SomeBy(signal, Next(moves[0]), moves[1..], true))
            || TwoGiven(signal, Next(moves[0]), moves[1..])
  {
    var next, t := Next(moves[0]), moves[1..];
    if TwoGiven(signal, s, moves) {
      var i, j :| i < j && ReachesBy(signal, s, moves, i, true) && ReachesBy(signal, s, moves, j, true);
      ReachesTail(signal, s, moves, j, true);
      if i > 0 {
        ReachesTail(signal, s, moves, i, true);
      }
    }
    if ReachesBy(signal, s, moves, 0, true) && SomeBy(signal, next, t, true) {
      var j :| ReachesBy(signal, next, t, j, true);
      ReachesTail(signal, s, moves, j + 1, true);
    }
    if TwoGiven(signal, next, t) {
      var i, j :| i < j && ReachesBy(signal, next, t, i, true) && ReachesBy(signal, next, t, j, true);
      ReachesTail(signal, s, moves, i + 1, true);
      ReachesTail(signal, s, moves, j + 1, true);
    }
  }

  /**
   Exactly when a signal is given at most once, over every run: unless the amounts become enough at a signalling move,
   are lost again, and become enough once more at a later signalling move.
   */
  lemma {:induction false} SignalledOnceExactly(signal: Signal, s: Statuses, moves: seq<Move>)
    ensures Given(signal, s, moves) <= 1 <==> !LostAndRegained(signal, s, moves)
    decreases |moves|
  {
    TwoAreApart(signal, s, moves);
    if moves != [] {
      var next, t := Next(moves[0]), moves[1..];
      ReachedIsEnough(signal, moves[0]);
      SignalledOnceExactly(signal, next, t);
      TwoAreApart(signal, next, t);
      TwoGivenStep(signal, s, moves);
      NoneGiven(signal, next, t);
    }
  }

  /** Amounts that were enough after one move are enough after the next. */
  ghost predicate StaysEnough(signal: Signal, moves: seq<Move>) {
    forall i, j | 0 <= i < j < |moves| && EnoughAt(signal, moves[i]) :: EnoughAt(signal, moves[j])
  }

  /** So each signal is given at most once where amounts that are enough stay enough, whatever the statuses at the start. */
  lemma {:induction false} SignalledAtMostOnce(signal: Signal, s: Statuses, moves: seq<Move>)
    requires StaysEnough(signal, moves)
    ensures Given(signal, s, moves) <= 1
  {
    SignalledOnceExactly(signal, s, moves);
  }

  /** The same total and lines throughout, and amounts that only grow, from a non-negative one. */
  ghost predicate Growing(signal: Signal, total: int, hasLines: bool, from: int, moves: seq<Move>)
    decreases |moves|
  {
    0 <= from &&
    (moves == [] ||
     (moves[0].total == total && moves[0].hasLines == hasLines && from <= Level(signal, moves[0].ts) &&
      Growing(signal, total, hasLines, Level(signal, moves[0].ts), moves[1..])))
  }

  lemma {:induction false} GrowingFrom(signal: Signal, total: int, hasLines: bool, from: int, moves: seq<Move>, i: nat)
    requires Growing(signal, total, hasLines, from, moves) && i < |moves|
    ensures moves[i].total == total && moves[i].hasLines == hasLines && from <= Level(signal, moves[i].ts)
    decreases |moves|
  {
    if i > 0 {
      GrowingFrom(signal, total, hasLines, Level(signal, moves[0].ts), moves[1..], i - 1);
    }
  }

  /** Growing amounts that are enough stay enough. */
  lemma {:induction false} GrowingStays(signal: Signal, total: int, hasLines: bool, from: int, moves: seq<Move>)
    requires Growing(signal, total, hasLines, from, moves)
    ensures StaysEnough(signal, moves)
    decreases |moves|
  {
    if moves != [] {
      var level, t := Level(signal, moves[0].ts), moves[1..];
      GrowingStays(signal, total, hasLines, level, t);
      forall i, j | 0 <= i < j < |moves| && EnoughAt(signal, moves[i])
        ensures EnoughAt(signal, moves[j])
      {
        assert moves[j] == t[j - 1];
        if i > 0 {
          assert moves[i] == t[i - 1];
        } else {
          GrowingFrom(signal, total, hasLines, level, t, j - 1);
        }
      }
    }
  }

  lemma {:induction false} NeverLost(signal: Signal, s: Statuses, moves: seq<Move>)
    requires StaysEnough(signal, moves) && (Reached(signal, s) && moves != [] ==> EnoughAt(signal, moves[0]))
    ensures Lost(signal, s, moves) == 0
    decreases |moves|
  {
    if moves != [] {
      var t := moves[1..];
      ReachedIsEnough(signal, moves[0]);
      assert forall i | 0 <= i < |t| :: t[i] == moves[i + 1];
      NeverLost(signal, Next(moves[0]), t);
    }
  }

  /**
   Where enough stays enough, the signal is given exactly as often as the status changes, once or not at all, if and
   only if the amounts do not become enough at a silent move: a refresh, or an update with completion switched off.
   */
  lemma {:induction false} SignalledExactly(signal: Signal, s: Statuses, moves: seq<Move>)
    requires StaysEnough(signal, moves) && (Reached(signal, s) && moves != [] ==> EnoughAt(signal, moves[0]))
    ensures Given(signal, s, moves) == Bit(Reached(signal, End(s, moves))) - Bit(Reached(signal, s)) <==>
            forall i :: Reaches(signal, s, moves, i) ==> Signals(signal, moves[i])
  {
    NeverLost(signal, s, moves);
    SignalAccount(signal, s, moves);
    NoneGiven(signal, s, moves);
    assert forall i :: ReachesBy(signal, s, moves, i, false) <==> Reaches(signal, s, moves, i) && !Signals(signal, moves[i]);
  }

  /** A status that a query refreshes first is reached in silence: the update that follows announces nothing. */
  lemma {:induction false} AnnouncementMissed(signal: Signal, s: Statuses, total: int, hasLines: bool, ts: seq<Transaction>)
    requires Enough(signal, total, hasLines, Level(signal, ts)) && ts != []
    ensures var moves := [Refreshed(total, hasLines, ts), Updated(total, hasLines, ts, true)];
            Reached(signal, End(s, moves)) && Given(signal, s, moves) == 0
  {
    var first, second := Refreshed(total, hasLines, ts), Updated(total, hasLines, ts, true);
    ReachedIsEnough(signal, first);
    ReachedIsEnough(signal, second);
    assert [first, second][1..] == [second];
    assert Given(signal, Next(first), [second]) == 0;
  }

  /** Amounts that fall below the total and rise again give the signal again, also the one that is meant to be given only once. */
  lemma {:induction false} SignalledTwice(signal: Signal, s: Statuses, total: int, high: seq<Transaction>, low: seq<Transaction>)
    requires !Reached(signal, s) && high != [] && low != [] && Level(signal, low) < total <= Level(signal, high) && 0 < total
    ensures var up, down := Updated(total, true, high, true), Updated(total, true, low, true);
            Given(signal, s, [up, down, up]) == 2
  {
    var up, down := Updated(total, true, high, true), Updated(total, true, low, true);
    ReachedIsEnough(signal, up);
    ReachedIsEnough(signal, down);
    var moves := [up, down, up];
    assert moves[1..] == [down, up] && [down, up][1..] == [up] && [up][1..] == [];
    assert Given(signal, Next(down), [up]) == 1;
    assert Given(signal, Next(up), [down, up]) == 1;
  }

  /** One transaction whose authorization is withdrawn and given again. */
  lemma {:induction false} WithdrawnAndGivenAgain(s: Statuses)
    requires !s.authorize.AuthorizeFull?
    ensures var paid, withdrawn := Transaction(10, 0, 0, 0, false, 0), Transaction(0, 0, 0, 0, false, 0);
            var up, down := Updated(10, true, [paid], true), Updated(10, true, [withdrawn], true);
            Given(CompletionTask, s, [up, down, up]) == 2
  {
    var paid, withdrawn := Transaction(10, 0, 0, 0, false, 0), Transaction(0, 0, 0, 0, false, 0);
    assert [paid][..0] == [] && [withdrawn][..0] == [];
    assert TotalAuthorized([paid]) == 10 && TotalCharged([paid]) == 0;
    assert TotalAuthorized([withdrawn]) == 0 && TotalCharged([withdrawn]) == 0;
    SignalledTwice(CompletionTask, s, 10, [paid], [withdrawn]);
  }
}
