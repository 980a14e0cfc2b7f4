/** What one login attempt answers and stores, said without the steps it takes, and what a login wipes out. */
module LoginReplies {
  import opened Wrappers
  import opened LoginThrottle

  /** A stored value counts for what it is until it expires, and then for nothing. */
  function CountIn(entries: Entries, key: Key, now: nat): nat {
    if key in entries && now < entries[key].expires then entries[key].value else 0
  }

  ghost predicate BlockedAt(entries: Entries, a: Try) {
    a.ip.Some? && Blocked(a.ip.value) in entries && a.now < entries[Blocked(a.ip.value)].expires
  }

  /** One more failure is counted; the counter lives for two hours from its first. */
  ghost predicate OneMore(before: Entries, after: Entries, key: Key, now: nat) {
    && key in after
    && after[key].value == CountIn(before, key, now) + 1
    && after[key].expires == if key in before && now < before[key].expires then before[key].expires else now + 7200
  }

  /** After a failure: the counters of the address and of the user, if there is one, are raised, and the address is blocked. */
  ghost predicate FailureKept(before: Entries, after: Entries, a: Try, delay: nat)
    requires a.ip.Some?
  {
    var ip := a.ip.value;
    && OneMore(before, after, FailedIp(ip), a.now)
    && (a.user.Some? ==> OneMore(before, after, FailedUser(ip, a.user.value), a.now))
    && Blocked(ip) in after && after[Blocked(ip)] == Entry(a.now + delay, a.now + delay)
    && (forall k | k in after && k != FailedIp(ip) && k != Blocked(ip) && !(a.user.Some? && k == FailedUser(ip, a.user.value)) ::
          k in before && after[k] == before[k])
    && (forall k | k in before :: k in after)
  }

  /**
   One attempt. Without an address nothing is known; a live block delays; otherwise an existing user with the right
   password logs in and exactly the two counters and the block go, and anything else is refused and counted.
   */
  lemma {:induction false} AttemptExactly(entries: Entries, a: Try)
    ensures var r := Attempt(entries, a);
            && (r.outcome == UnknownIp <==> a.ip == None)
            && (r.outcome == Delayed <==> BlockedAt(entries, a))
            && (r.outcome == LoggedIn <==> a.ip.Some? && !BlockedAt(entries, a) && a.user.Some? && a.correct)
            && (r.outcome == UnknownIp || r.outcome == Delayed ==> r.entries == entries)
            && (r.outcome == LoggedIn ==>
                  r.entries == entries - {FailedIp(a.ip.value), FailedUser(a.ip.value, a.user.value), Blocked(a.ip.value)})
  {
  }

  lemma {:induction false} RefusalExactly(entries: Entries, a: Try)
    ensures var r := Attempt(entries, a);
            r.outcome.Refused? ==>
              var ip := a.ip.value;
              && FailureKept(entries, r.entries, a, r.outcome.delay)
              && r.outcome.delay == GetDelayTime(CountIn(entries, FailedIp(ip), a.now) + 1,
                                                 if a.user.Some? then CountIn(entries, FailedUser(ip, a.user.value), a.now) + 1 else 0)
  {
  }

  /**
   The delays: for an address one second for its first ten failures, twice as much every ten, and an hour from the
   hundredth on; for a user one second for the first failure, twice as much every time, and an hour from the tenth on.
   The longer of both counts, and at least a second.
   */
  lemma {:induction false} DelaysInFull(ipCount: nat, userCount: nat)
    ensures var d, ip, user := GetDelayTime(ipCount, userCount), IpDelay(ipCount), UserDelay(userCount);
            d >= 1 && d >= ip && d >= user && (d == 1 || d == ip || d == user)
    ensures IpDelay(0) == 0 && (1 <= ipCount <= 10 ==> IpDelay(ipCount) == 1) && (ipCount >= 100 ==> IpDelay(ipCount) == 3600)
    ensures 11 <= ipCount < 100 ==> IpDelay(ipCount) == 2 * IpDelay(ipCount - 10)
    ensures UserDelay(0) == 0 && UserDelay(1) == 1 && (userCount >= 10 ==> UserDelay(userCount) == 3600)
    ensures 2 <= userCount < 10 ==> UserDelay(userCount) == 2 * UserDelay(userCount - 1)
  {
    if 11 <= ipCount < 100 {
      assert (ipCount - 10 + 9) / 10 == (ipCount + 9) / 10 - 1;
    }
  }

  // ---- after a login

  /** The counters of the address and of the user that a login wipes out. */
  predicate WipedBy(key: Key, a: Try) {
    IsCounter(key) && a.ip == Some(key.ip) && (key.FailedUser? ==> a.user == Some(key.user))
  }

  lemma {:induction false} StaysOut(trace: seq<Try>, k: nat, key: Key)
    requires IsCounter(key) && k < |trace| && OutcomeAt(trace, k).LoggedIn? && WipedBy(key, trace[k])
    requires forall i | k < i < |trace| && CountsFor(key, trace[i]) :: !OutcomeAt(trace, i).Refused?
    ensures key !in After(trace)
    decreases |trace|
  {
    var n := |trace| - 1;
    assert trace[..n][..k] == trace[..k];
    if k < n {
      forall i | k < i < n && CountsFor(key, trace[..n][i])
        ensures !OutcomeAt(trace[..n], i).Refused?
      {
        assert trace[..n][..i] == trace[..i] && trace[..n][i] == trace[i];
      }
      StaysOut(trace[..n], k, key);
      assert !CountsFor(key, trace[n]) || !OutcomeAt(trace, n).Refused?;
    }
  }

  /**
   After a login, whatever others do, the next failure of its user or address is the first of a new life of the counter;
   and the address is not blocked by what came before.
   */
  lemma {:induction false} FreshAfterLogin(trace: seq<Try>, k: nat, key: Key, a: Try)
    requires IsCounter(key) && k < |trace| && OutcomeAt(trace, k).LoggedIn? && WipedBy(key, trace[k])
    requires forall i | k < i < |trace| && CountsFor(key, trace[i]) :: !OutcomeAt(trace, i).Refused?
    requires CountsFor(key, a)
    ensures Attempt(After(trace), a).outcome.Refused? ==>
              key in Attempt(After(trace), a).entries && Attempt(After(trace), a).entries[key] == Entry(1, a.now + 7200)
    ensures k == |trace| - 1 ==> Attempt(After(trace), a).outcome != Delayed
  {
    StaysOut(trace, k, key);
    RefusalExactly(After(trace), a);
  }
}
