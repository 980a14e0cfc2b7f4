/** saleor/account/throttling.py: slowing down failed logins. One attempt is one step on the cache. */
module LoginThrottle {
  import opened Wrappers

  const MIN_DELAY: nat := 1
  const MAX_DELAY: nat := 3600
  const ATTEMPT_COUNTER_EXPIRE_TIME: nat := 7200

  type Ip = nat
  type User = nat

  datatype Key = FailedIp(ip: Ip) | FailedUser(ip: Ip, user: User) | Blocked(ip: Ip)

  /** A cached number with the time at which it is gone. For a block the number is the time of the next attempt. */
  datatype Entry = Entry(value: nat, expires: nat)

  type Entries = map<Key, Entry>

  predicate Live(entries: Entries, key: Key, now: nat) {
    key in entries && now < entries[key].expires
  }

  // ---- delays

  function Pow2(n: nat): (p: nat)
    ensures p >= 1
  {
    if n == 0 then 1 else 2 * Pow2(n - 1)
  }

  /** Delay for the failures of one address, whatever the user: doubles every ten. */
  function IpDelay(count: nat): nat {
    if count == 0 then 0 else if count < 100 then Pow2((count + 9) / 10 - 1) else MAX_DELAY
  }

  /** Delay for the failures of one address on one existing user: doubles every time. */
  function UserDelay(count: nat): nat {
    if count == 0 then 0 else if count < 10 then Pow2(count - 1) else MAX_DELAY
  }

  function GetDelayTime(ipCount: nat, userCount: nat): nat {
    Max(Max(IpDelay(ipCount), UserDelay(userCount)), MIN_DELAY)
  }

  // ---- one attempt

  /** `user` is the existing account of the given email, if there is one. */
  datatype Try = Try(now: nat, ip: Option<Ip>, user: Option<User>, correct: bool)

  datatype Outcome = UnknownIp | Delayed | LoggedIn | Refused(delay: nat)

  datatype Reply = Reply(entries: Entries, outcome: Outcome)

  /** The counter after one more failure: a fresh one unless a live one is there. */
  function Bumped(entries: Entries, key: Key, now: nat): Entry {
    if Live(entries, key, now) then Entry(entries[key].value + 1, entries[key].expires)
    else Entry(1, now + ATTEMPT_COUNTER_EXPIRE_TIME)
  }

  function Refusal(entries: Entries, now: nat, ip: Ip, user: Option<User>): Reply {
    var ipEntry := Bumped(entries, FailedIp(ip), now);
    var e1 := entries[FailedIp(ip) := ipEntry];
    var userCount := if user.Some? then Bumped(entries, FailedUser(ip, user.value), now).value else 0;
    var e2 := if user.Some? then e1[FailedUser(ip, user.value) := Bumped(entries, FailedUser(ip, user.value), now)] else e1;
    var delay := GetDelayTime(ipEntry.value, userCount);
    Reply(e2[Blocked(ip) := Entry(now + delay, now + delay)], Refused(delay))
  }

  function Attempt(entries: Entries, a: Try): Reply {
    if a.ip.None? then Reply(entries, UnknownIp)
    else
      var ip := a.ip.value;
      if Live(entries, Blocked(ip), a.now) then Reply(entries, Delayed)
      else if a.user.Some? && a.correct then Reply(entries - {FailedIp(ip), FailedUser(ip, a.user.value), Blocked(ip)}, LoggedIn)
      else Refusal(entries, a.now, ip, a.user)
  }

  function KeySet(keys: seq<Key>): set<Key> {
    set k | k in keys
  }

  class Cache {
    var entries: Entries

    /** Stores the value unless the key is live; says whether it did. */
    method Add(key: Key, value: nat, timeout: nat, now: nat) returns (added: bool)
      modifies this
      ensures added == !Live(old(entries), key, now)
      ensures entries == if added then old(entries)[key := Entry(value, now + timeout)] else old(entries)
    {
      added := !(key in entries && now < entries[key].expires);
      if added {
        entries := entries[key := Entry(value, now + timeout)];
      }
    }

    /** Adds one to a live value and keeps its time to live. */
    method Increase(key: Key, now: nat) returns (value: nat)
      requires Live(entries, key, now)
      modifies this
      ensures entries == old(entries)[key := Entry(value, old(entries)[key].expires)] && value == old(entries)[key].value + 1
    {
      value := entries[key].value + 1;
      entries := entries[key := Entry(value, entries[key].expires)];
    }

    method IncrementAttempt(key: Key, now: nat) returns (count: nat)
      modifies this
      ensures entries == old(entries)[key := Bumped(old(entries), key, now)] && count == Bumped(old(entries), key, now).value
    {
      var added := Add(key, 1, ATTEMPT_COUNTER_EXPIRE_TIME, now);
      if !added {
        count := Increase(key, now);
      } else {
        count := 1;
      }
    }

    method AuthenticateWithThrottling(a: Try) returns (outcome: Outcome)
      modifies this
      ensures Reply(entries, outcome) == Attempt(old(entries), a)
      ensures outcome == UnknownIp <==> a.ip == None
      ensures outcome == Delayed <==> a.ip.Some? && Blocked(a.ip.value) in old(entries) && a.now < old(entries)[Blocked(a.ip.value)].expires
      ensures outcome == UnknownIp || outcome == Delayed ==> entries == old(entries)
      ensures outcome == LoggedIn <==> outcome != UnknownIp && outcome != Delayed && a.user.Some? && a.correct
      ensures outcome == LoggedIn ==>
                entries == old(entries) - {FailedIp(a.ip.value), FailedUser(a.ip.value, a.user.value), Blocked(a.ip.value)}
      ensures outcome.Refused? ==>
                Blocked(a.ip.value) in entries && entries[Blocked(a.ip.value)] == Entry(a.now + outcome.delay, a.now + outcome.delay)
    {
      if a.ip.None? {
        return UnknownIp;
      }
      var ip := a.ip.value;
      // block the address before the next attempt to prevent concurrent requests
      var added := Add(Blocked(ip), a.now + MIN_DELAY, MIN_DELAY, a.now);
      if !added {
        return Delayed;
      }
      if a.user.Some? && a.correct {
        ClearCache([FailedIp(ip), FailedUser(ip, a.user.value), Blocked(ip)]);
        ClearedIgnoresBlock(old(entries), ip, a.user.value, Entry(a.now + MIN_DELAY, a.now + MIN_DELAY));
        return LoggedIn;
      }
      RefusalIgnoresBlock(old(entries), a.now, ip, a.user, Entry(a.now + MIN_DELAY, a.now + MIN_DELAY));
      var delay := RecordFailure(a.now, ip, a.user);
      outcome := Refused(delay);
    }

    method ClearCache(keys: seq<Key>)
      modifies this
      ensures entries == old(entries) - KeySet(keys)
    {
      for i := 0 to |keys|
        invariant entries == old(entries) - KeySet(keys[..i])
      {
        assert keys[..i + 1] == keys[..i] + [keys[i]];
        entries := entries - {keys[i]};
      }
      assert keys[..|keys|] == keys;
    }

    /** Counts the failure for a known user and for the address, and blocks the address for the delay. */
    method RecordFailure(now: nat, ip: Ip, user: Option<User>) returns (delay: nat)
      modifies this
      ensures Reply(entries, Refused(delay)) == Refusal(old(entries), now, ip, user)
    {
      var userCount := 0;
      if user.Some? {
        userCount := IncrementAttempt(FailedUser(ip, user.value), now);
      }
      var ipCount := IncrementAttempt(FailedIp(ip), now);
      delay := GetDelayTime(ipCount, userCount);
      entries := entries[Blocked(ip) := Entry(now + delay, now + delay)];
      assert entries == Refusal(old(entries), now, ip, user).entries;
    }
  }

  /** The first block, set against concurrent attempts, goes with the rest when the login succeeds. */
  lemma {:induction false} ClearedIgnoresBlock(before: Entries, ip: Ip, user: User, block: Entry)
    ensures before[Blocked(ip) := block] - KeySet([FailedIp(ip), FailedUser(ip, user), Blocked(ip)])
         == before - {FailedIp(ip), FailedUser(ip, user), Blocked(ip)}
  {
  }

  /** And it is overridden when it fails. */
  lemma {:induction false} RefusalIgnoresBlock(before: Entries, now: nat, ip: Ip, user: Option<User>, block: Entry)
    ensures Refusal(before[Blocked(ip) := block], now, ip, user) == Refusal(before, now, ip, user)
  {
    var e := before[Blocked(ip) := block];
    assert Bumped(e, FailedIp(ip), now) == Bumped(before, FailedIp(ip), now);
    assert user.Some? ==> Bumped(e, FailedUser(ip, user.value), now) == Bumped(before, FailedUser(ip, user.value), now);
    assert Refusal(e, now, ip, user).entries == Refusal(before, now, ip, user).entries;
  }

  // ---- runs

  ghost function After(trace: seq<Try>): Entries {
    if trace == [] then map[] else Attempt(After(trace[..|trace| - 1]), trace[|trace| - 1]).entries
  }

  /** Outcome of the attempt at position `i` of the run. */
  ghost function OutcomeAt(trace: seq<Try>, i: nat): Outcome
    requires i < |trace|
  {
    Attempt(After(trace[..i]), trace[i]).outcome
  }

  ghost predicate Chronological(trace: seq<Try>) {
    forall i, j | 0 <= i < j < |trace| :: trace[i].now <= trace[j].now
  }

  ghost predicate NoLogin(trace: seq<Try>, ip: Ip) {
    forall i | 0 <= i < |trace| && trace[i].ip == Some(ip) :: !OutcomeAt(trace, i).LoggedIn?
  }

  predicate IsCounter(key: Key) {
    key.FailedIp? || key.FailedUser?
  }

  /** The failures a counter counts. */
  predicate CountsFor(key: Key, a: Try)
    requires IsCounter(key)
  {
    a.ip == Some(key.ip) && (key.FailedUser? ==> a.user == Some(key.user))
  }

  function DelayOf(key: Key, count: nat): nat
    requires IsCounter(key)
  {
    if key.FailedIp? then IpDelay(count) else UserDelay(count)
  }

  /** Time that the first `count` failures of one counter life take at least. */
  function DelaySum(key: Key, count: nat): nat
    requires IsCounter(key)
  {
    if count == 0 then 0 else DelaySum(key, count - 1) + DelayOf(key, count)
  }

  /** The most failures one life of the counter can hold. */
  function Cap(key: Key): nat
    requires IsCounter(key)
  {
    if key.FailedIp? then 95 else 11
  }

  lemma {:induction false} Powers()
    ensures Pow2(1) == 2 && Pow2(2) == 4 && Pow2(3) == 8 && Pow2(4) == 16 && Pow2(5) == 32
    ensures Pow2(6) == 64 && Pow2(7) == 128 && Pow2(8) == 256 && Pow2(9) == 512
  {
  }

  lemma {:induction false} TenOfAKind(ip: Ip, k: nat, j: nat)
    requires k < 10 && j <= 10 && 10 * k + j < 100
    ensures DelaySum(FailedIp(ip), 10 * k + j) == 10 * (Pow2(k) - 1) + j * Pow2(k)
    decreases k, j
  {
    var n := 10 * k + j;
    if j > 0 {
      TenOfAKind(ip, k, j - 1);
      assert (n + 9) / 10 - 1 == k;
      assert j * Pow2(k) == (j - 1) * Pow2(k) + Pow2(k);
    } else if k > 0 {
      TenOfAKind(ip, k - 1, 10);
      assert Pow2(k) == 2 * Pow2(k - 1);
    }
  }

  lemma {:induction false} UserSum(key: Key, count: nat)
    requires key.FailedUser? && count < 10
    ensures DelaySum(key, count) == Pow2(count) - 1
  {
    if count > 0 {
      UserSum(key, count - 1);
    }
  }

  /** After as many failures as the cap, the next is no longer within the life of the counter. */
  lemma {:induction false} CapExhaustsLife(key: Key)
    requires IsCounter(key)
    ensures DelaySum(key, Cap(key)) >= ATTEMPT_COUNTER_EXPIRE_TIME
  {
    if key.FailedIp? {
      Powers();
      TenOfAKind(key.ip, 9, 5);
    } else {
      Powers();
      UserSum(key, 9);
      assert DelaySum(key, 10) == 511 + MAX_DELAY;
    }
  }

  lemma {:induction false} DelaySumGrows(key: Key, a: nat, b: nat)
    requires IsCounter(key) && a <= b
    ensures DelaySum(key, a) <= DelaySum(key, b)
    decreases b
  {
    if a < b {
      DelaySumGrows(key, a, b - 1);
    }
  }

  /** The start of the counter's present life. */
  function Start(e: Entry): int {
    e.expires - ATTEMPT_COUNTER_EXPIRE_TIME
  }

  /** The block of the address lasts at least until all delays of the counter's life have passed. */
  ghost predicate Paced(entries: Entries, key: Key)
    requires IsCounter(key)
  {
    key in entries ==>
      && 1 <= entries[key].value <= Cap(key)
      && Blocked(key.ip) in entries
      && Start(entries[key]) + DelaySum(key, entries[key].value) <= entries[Blocked(key.ip)].expires
  }

  /** All delays of the counter's life have passed by the given time. */
  ghost predicate SpentBy(entries: Entries, key: Key, now: nat)
    requires IsCounter(key)
  {
    key in entries ==>
      1 <= entries[key].value <= Cap(key) && Start(entries[key]) + DelaySum(key, entries[key].value) <= now
  }

  lemma {:induction false} BumpedWithinCap(entries: Entries, key: Key, now: nat)
    requires IsCounter(key) && SpentBy(entries, key, now)
    ensures var e := Bumped(entries, key, now);
            1 <= e.value <= Cap(key) && Start(e) + DelaySum(key, e.value) <= now + DelayOf(key, e.value)
  {
    var e := Bumped(entries, key, now);
    assert DelaySum(key, e.value) == DelaySum(key, e.value - 1) + DelayOf(key, e.value);
    if Live(entries, key, now) {
      if entries[key].value >= Cap(key) {
        CapExhaustsLife(key);
        DelaySumGrows(key, Cap(key), entries[key].value);
      }
    } else {
      assert DelaySum(key, 0) == 0;
    }
  }

  lemma {:induction false} DelayCoversBoth(ipCount: nat, userCount: nat)
    ensures GetDelayTime(ipCount, userCount) >= IpDelay(ipCount) && GetDelayTime(ipCount, userCount) >= UserDelay(userCount)
    ensures GetDelayTime(ipCount, userCount) >= 1
  {
  }

  lemma {:induction false} AttemptPaced(entries: Entries, a: Try, key: Key)
    requires IsCounter(key) && Paced(entries, key)
    requires a.ip == Some(key.ip) ==> !Attempt(entries, a).outcome.LoggedIn?
    ensures Paced(Attempt(entries, a).entries, key)
  {
    if a.ip == Some(key.ip) && Attempt(entries, a).outcome.Refused? {
      BumpedWithinCap(entries, key, a.now);
      var userCount := if a.user.Some? then Bumped(entries, FailedUser(key.ip, a.user.value), a.now).value else 0;
      DelayCoversBoth(Bumped(entries, FailedIp(key.ip), a.now).value, userCount);
    }
  }

  // ---- counting the failures of a run

  /** Refused attempts that the counter counts, from the given time on. */
  ghost function Failures(trace: seq<Try>, key: Key, from: int): nat
    requires IsCounter(key)
  {
    if trace == [] then 0
    else
      var n := |trace| - 1;
      Failures(trace[..n], key, from)
      + (if CountsFor(key, trace[n]) && OutcomeAt(trace, n).Refused? && trace[n].now >= from then 1 else 0)
  }

  /** Times at which a new life of the counter began. */
  ghost function Lives(trace: seq<Try>, key: Key): nat
    requires IsCounter(key)
  {
    if trace == [] then 0
    else
      var n := |trace| - 1;
      Lives(trace[..n], key)
      + (if CountsFor(key, trace[n]) && OutcomeAt(trace, n).Refused? && !Live(After(trace[..n]), key, trace[n].now) then 1 else 0)
  }

  lemma {:induction false} PrefixChronological(trace: seq<Try>)
    requires trace != [] && Chronological(trace)
    ensures var n := |trace| - 1; Chronological(trace[..n]) && (n > 0 ==> trace[n - 1].now <= trace[n].now) && Last(trace[..n]) <= Last(trace)
  {
  }

  /** Failures before a time do not count from that time on. */
  lemma {:induction false} NoneFrom(trace: seq<Try>, key: Key, from: int)
    requires IsCounter(key) && forall i | 0 <= i < |trace| && CountsFor(key, trace[i]) && OutcomeAt(trace, i).Refused? :: trace[i].now < from
    ensures Failures(trace, key, from) == 0
  {
    if trace != [] {
      var n := |trace| - 1;
      forall i | 0 <= i < n && CountsFor(key, trace[..n][i]) && OutcomeAt(trace[..n], i).Refused?
        ensures trace[..n][i].now < from
      {
        assert trace[..n][..i] == trace[..i];
        assert trace[..n][i] == trace[i];
      }
      NoneFrom(trace[..n], key, from);
    }
  }

  /** Time of the last attempt. */
  function Last(trace: seq<Try>): nat {
    if trace == [] then 0 else trace[|trace| - 1].now
  }

  /** Until when the address was busy: with its last attempt, or with the block that followed. */
  function BusyUntil(entries: Entries, ip: Ip, last: nat): nat {
    if Blocked(ip) in entries then Max(last, entries[Blocked(ip)].expires) else last
  }

  /** The life of a counter began by the last attempt, and all its delays have passed when the address is no longer busy. */
  ghost predicate Timed(entries: Entries, key: Key, last: nat)
    requires IsCounter(key)
  {
    key in entries ==>
      && 1 <= entries[key].value <= Cap(key) && Start(entries[key]) <= last
      && Start(entries[key]) + DelaySum(key, entries[key].value) <= BusyUntil(entries, key.ip, last)
  }

  /** Refusals come before the address is free again. */
  ghost predicate RefusedBefore(trace: seq<Try>, key: Key)
    requires IsCounter(key)
  {
    forall i | 0 <= i < |trace| && CountsFor(key, trace[i]) && OutcomeAt(trace, i).Refused? ::
      trace[i].now < BusyUntil(After(trace), key.ip, Last(trace))
  }

  /** What every run leaves: a counter that has counted exactly the failures of its life. */
  ghost predicate Counted(trace: seq<Try>, key: Key)
    requires IsCounter(key)
  {
    var entries := After(trace);
    && Timed(entries, key, Last(trace)) && RefusedBefore(trace, key)
    && (key in entries ==> entries[key].value == Failures(trace, key, Start(entries[key])))
  }

  lemma {:induction false} EarlierKept(trace: seq<Try>, key: Key, i: nat)
    requires IsCounter(key) && trace != [] && i < |trace| - 1
    ensures var n := |trace| - 1; trace[..n][i] == trace[i] && OutcomeAt(trace[..n], i) == OutcomeAt(trace, i)
  {
    var n := |trace| - 1;
    assert trace[..n][..i] == trace[..i];
  }

  /** The counter entry changes by a refused attempt that it counts, and goes only with a login. */
  lemma {:induction false} EntryChange(entries: Entries, a: Try, key: Key)
    requires IsCounter(key)
    ensures var r := Attempt(entries, a);
            if CountsFor(key, a) && r.outcome.Refused? then key in r.entries && r.entries[key] == Bumped(entries, key, a.now)
            else
              && (key in r.entries ==> key in entries && r.entries[key] == entries[key])
              && (key in entries && !(CountsFor(key, a) && r.outcome.LoggedIn?) ==> key in r.entries)
  {
  }

  /** An attempt that is not delayed finds the address free, and only a refusal makes it busy beyond the attempt. */
  lemma {:induction false} BusyChange(entries: Entries, a: Try, ip: Ip, last: nat)
    requires last <= a.now
    ensures var r := Attempt(entries, a);
            && (a.ip == Some(ip) && (r.outcome.LoggedIn? || r.outcome.Refused?) ==> BusyUntil(entries, ip, last) <= a.now)
            && (a.ip == Some(ip) && r.outcome.Refused? ==> BusyUntil(r.entries, ip, a.now) == a.now + r.outcome.delay && r.outcome.delay >= 1)
            && BusyUntil(entries, ip, last) <= BusyUntil(r.entries, ip, a.now)
  {
  }

  lemma {:induction false} TimedStep(entries: Entries, a: Try, key: Key, last: nat)
    requires IsCounter(key) && Timed(entries, key, last) && last <= a.now
    ensures Timed(Attempt(entries, a).entries, key, a.now)
  {
    var r := Attempt(entries, a);
    EntryChange(entries, a, key);
    BusyChange(entries, a, key.ip, last);
    if CountsFor(key, a) && r.outcome.Refused? {
      BumpedWithinCap(entries, key, a.now);
      var userCount := if a.user.Some? then Bumped(entries, FailedUser(key.ip, a.user.value), a.now).value else 0;
      DelayCoversBoth(Bumped(entries, FailedIp(key.ip), a.now).value, userCount);
    }
  }

  lemma {:induction false} RefusedBeforeStep(trace: seq<Try>, key: Key)
    requires IsCounter(key) && trace != [] && Chronological(trace) && RefusedBefore(trace[..|trace| - 1], key)
    ensures RefusedBefore(trace, key)
  {
    var n := |trace| - 1;
    PrefixChronological(trace);
    BusyChange(After(trace[..n]), trace[n], key.ip, Last(trace[..n]));
    forall i | 0 <= i < |trace| && CountsFor(key, trace[i]) && OutcomeAt(trace, i).Refused?
      ensures trace[i].now < BusyUntil(After(trace), key.ip, Last(trace))
    {
      if i < n {
        EarlierKept(trace, key, i);
      }
    }
  }

  lemma {:induction false} FailuresStep(trace: seq<Try>, key: Key, from: int)
    requires IsCounter(key) && trace != []
    ensures var n := |trace| - 1;
            Failures(trace, key, from) == Failures(trace[..n], key, from)
              + (if CountsFor(key, trace[n]) && OutcomeAt(trace, n).Refused? && trace[n].now >= from then 1 else 0)
  {
  }

  /** The counter goes on counting its life, or starts a new one with this failure alone. */
  lemma {:induction false} CountStep(trace: seq<Try>, key: Key)
    requires IsCounter(key) && trace != [] && Chronological(trace) && Counted(trace[..|trace| - 1], key)
    ensures key in After(trace) ==> After(trace)[key].value == Failures(trace, key, Start(After(trace)[key]))
  {
    var n := |trace| - 1;
    var before, a := After(trace[..n]), trace[n];
    EntryChange(before, a, key);
    if key in After(trace) {
      FailuresStep(trace, key, Start(After(trace)[key]));
      if CountsFor(key, a) && OutcomeAt(trace, n).Refused? {
        PrefixChronological(trace);
        BusyChange(before, a, key.ip, Last(trace[..n]));
        if !Live(before, key, a.now) {
          NoneFrom(trace[..n], key, a.now);
        }
      }
    }
  }

  lemma {:induction false} RunCounted(trace: seq<Try>, key: Key)
    requires IsCounter(key) && Chronological(trace)
    ensures Counted(trace, key)
  {
    if trace != [] {
      var n := |trace| - 1;
      PrefixChronological(trace);
      RunCounted(trace[..n], key);
      TimedStep(After(trace[..n]), trace[n], key, Last(trace[..n]));
      RefusedBeforeStep(trace, key);
      CountStep(trace, key);
    }
  }

  /**
   Within one life of a counter there are at most 11 failed attempts on one existing user and at most 95 from the
   address, and the counter counts exactly them, whoever logs in from the address in between.
   */
  lemma {:induction false} FailuresPerLife(trace: seq<Try>, key: Key)
    requires IsCounter(key) && Chronological(trace) && key in After(trace)
    ensures var e := After(trace)[key]; e.value == Failures(trace, key, Start(e)) <= Cap(key)
  {
    RunCounted(trace, key);
  }

  /** A login takes the address counter away with the block, so its pace is never lost. */
  lemma {:induction false} AddressStaysPaced(entries: Entries, a: Try, ip: Ip)
    requires Paced(entries, FailedIp(ip))
    ensures Paced(Attempt(entries, a).entries, FailedIp(ip))
  {
    if !(a.ip == Some(ip) && Attempt(entries, a).outcome.LoggedIn?) {
      AttemptPaced(entries, a, FailedIp(ip));
    }
  }

  /**
   Over every run, with or without logins and whatever the clock does, an address counter never passes 95: the delay
   for a hundred failures of one address is never reached.
   */
  lemma {:induction false} HundredNeverReached(trace: seq<Try>, ip: Ip)
    ensures Paced(After(trace), FailedIp(ip))
    ensures FailedIp(ip) in After(trace) ==> After(trace)[FailedIp(ip)].value <= 95
  {
    if trace != [] {
      var n := |trace| - 1;
      HundredNeverReached(trace[..n], ip);
      AddressStaysPaced(After(trace[..n]), trace[n], ip);
    }
  }

  // ---- the rate over a whole run

  /** None of the attempts that the counter is about logs in; other users of the address may. */
  ghost predicate NeverCleared(trace: seq<Try>, key: Key)
    requires IsCounter(key)
  {
    forall i | 0 <= i < |trace| && CountsFor(key, trace[i]) :: !OutcomeAt(trace, i).LoggedIn?
  }

  lemma {:induction false} PrefixNeverCleared(trace: seq<Try>, key: Key)
    requires IsCounter(key) && trace != [] && NeverCleared(trace, key)
    ensures NeverCleared(trace[..|trace| - 1], key)
  {
    var n := |trace| - 1;
    forall i | 0 <= i < n && CountsFor(key, trace[..n][i])
      ensures !OutcomeAt(trace[..n], i).LoggedIn?
    {
      EarlierKept(trace, key, i);
    }
  }

  /** So many lives have started apart from each other, and all but the present one hold at most the cap. */
  ghost predicate Apart(failures: int, cap: int, lives: int, value: int, from: int, start: int, last: int) {
    && lives >= 1 && from + ATTEMPT_COUNTER_EXPIRE_TIME * (lives - 1) <= start <= last
    && failures <= cap * (lives - 1) + value
  }

  /** Lives of a counter do not overlap, and each holds at most its cap. */
  lemma {:induction false} LivesApart(trace: seq<Try>, key: Key, from: nat, last: nat)
    requires IsCounter(key) && Chronological(trace) && NeverCleared(trace, key)
    requires forall i | 0 <= i < |trace| :: from <= trace[i].now <= last
    ensures LivesOf(trace, key, from, last)
  {
    if trace != [] {
      var n := |trace| - 1;
      var before, a := After(trace[..n]), trace[n];
      PrefixChronological(trace);
      PrefixNeverCleared(trace, key);
      assert forall i | 0 <= i < n :: trace[..n][i] == trace[i];
      LivesApart(trace[..n], key, from, last);
      if key in before {
        FailuresPerLife(trace[..n], key);
      }
      assert trace[n] == a && !(CountsFor(key, a) && OutcomeAt(trace, n).LoggedIn?);
      LivesTurn(trace, key, from, last);
    }
  }

  ghost predicate LivesOf(trace: seq<Try>, key: Key, from: nat, last: nat)
    requires IsCounter(key)
  {
    var e, lives := After(trace), Lives(trace, key);
    if key in e then Apart(Failures(trace, key, 0), Cap(key), lives, e[key].value, from, Start(e[key]), last)
    else Failures(trace, key, 0) == 0 && lives == 0
  }

  lemma {:induction false} LivesTurn(trace: seq<Try>, key: Key, from: nat, last: nat)
    requires IsCounter(key) && trace != [] && LivesOf(trace[..|trace| - 1], key, from, last)
    requires from <= trace[|trace| - 1].now <= last
    requires !(CountsFor(key, trace[|trace| - 1]) && OutcomeAt(trace, |trace| - 1).LoggedIn?)
    requires var before := After(trace[..|trace| - 1]); key in before ==> before[key].value <= Cap(key)
    ensures LivesOf(trace, key, from, last)
  {
    var n := |trace| - 1;
    var before, a := After(trace[..n]), trace[n];
    EntryChange(before, a, key);
    LivesStep(trace, key);
    if CountsFor(key, a) && OutcomeAt(trace, n).Refused? {
      if key !in before {
        FirstLife(Cap(key), from, a.now, last);
      } else {
        NextFailure(Failures(trace[..n], key, 0), Cap(key), Lives(trace[..n], key), before[key].value, from, Start(before[key]), a.now, last);
      }
    }
  }

  lemma {:induction false} FirstLife(cap: int, from: int, now: int, last: int)
    requires from <= now <= last
    ensures Apart(1, cap, 1, 1, from, now, last)
  {
  }

  /** One more failure, in the same life or in one that starts after its end. */
  lemma {:induction false} NextFailure(failures: int, cap: int, lives: int, value: int, from: int, start: int, now: int, last: int)
    requires Apart(failures, cap, lives, value, from, start, last) && value <= cap && now <= last
    ensures Apart(failures + 1, cap, lives, value + 1, from, start, last)
    ensures start + ATTEMPT_COUNTER_EXPIRE_TIME <= now ==> Apart(failures + 1, cap, lives + 1, 1, from, now, last)
  {
    assert cap * lives == cap * (lives - 1) + cap;
  }

  lemma {:induction false} LivesStep(trace: seq<Try>, key: Key)
    requires IsCounter(key) && trace != []
    ensures var n := |trace| - 1;
            var counted := CountsFor(key, trace[n]) && OutcomeAt(trace, n).Refused?;
            && Failures(trace, key, 0) == Failures(trace[..n], key, 0) + (if counted then 1 else 0)
            && Lives(trace, key) == Lives(trace[..n], key) + (if counted && !Live(After(trace[..n]), key, trace[n].now) then 1 else 0)
            && After(trace) == Attempt(After(trace[..n]), trace[n]).entries
  {
  }

  /**
   The whole-run rate, from the first attempt to the last, for every 7200 seconds begun: at most 11 failures on one
   user in a run in which that user does not log in from the address, though others may, and at most 95 from the
   address in a run in which nobody does.
   */
  lemma {:induction false} FailureRate(trace: seq<Try>, key: Key)
    requires IsCounter(key) && Chronological(trace) && NeverCleared(trace, key) && trace != []
    ensures Failures(trace, key, 0) <= Cap(key) * ((trace[|trace| - 1].now - trace[0].now) / ATTEMPT_COUNTER_EXPIRE_TIME + 1)
  {
    var first, last := trace[0].now, trace[|trace| - 1].now;
    assert forall i | 0 <= i < |trace| :: first <= trace[i].now <= last;
    LivesApart(trace, key, first, last);
    if key in After(trace) {
      FailuresPerLife(trace, key);
      RateArithmetic(Failures(trace, key, 0), Cap(key), Lives(trace, key), After(trace)[key].value, last - first);
    }
  }

  lemma {:induction false} RateArithmetic(failures: nat, cap: nat, lives: nat, value: nat, span: nat)
    requires lives >= 1 && value <= cap && failures <= cap * (lives - 1) + value && ATTEMPT_COUNTER_EXPIRE_TIME * (lives - 1) <= span
    ensures failures <= cap * (span / ATTEMPT_COUNTER_EXPIRE_TIME + 1)
  {
    QuotientAtLeast(lives - 1, span);
    Times(cap, lives, span / ATTEMPT_COUNTER_EXPIRE_TIME + 1);
    assert cap * lives == cap * (lives - 1) + cap;
  }

  lemma {:induction false} QuotientAtLeast(k: nat, d: nat)
    requires ATTEMPT_COUNTER_EXPIRE_TIME * k <= d
    ensures k <= d / ATTEMPT_COUNTER_EXPIRE_TIME
  {
  }

  // ---- any window as long as a life

  /** Counted failures from a time on, as long as the life of a counter. */
  ghost function InWindow(trace: seq<Try>, key: Key, from: nat): nat
    requires IsCounter(key)
  {
    if trace == [] then 0
    else
      var n := |trace| - 1;
      InWindow(trace[..n], key, from)
      + (if CountsFor(key, trace[n]) && OutcomeAt(trace, n).Refused? && from <= trace[n].now < from + ATTEMPT_COUNTER_EXPIRE_TIME then 1 else 0)
  }

  /** Nothing falls into a window that opens after the run. */
  lemma {:induction false} WindowPast(trace: seq<Try>, key: Key, from: nat)
    requires IsCounter(key) && forall i | 0 <= i < |trace| :: trace[i].now < from
    ensures InWindow(trace, key, from) == 0
  {
    if trace != [] {
      var n := |trace| - 1;
      assert forall i | 0 <= i < n :: trace[..n][i] == trace[i];
      WindowPast(trace[..n], key, from);
    }
  }

  lemma {:induction false} WindowStep(trace: seq<Try>, key: Key, from: nat)
    requires IsCounter(key) && trace != []
    ensures var n := |trace| - 1;
            InWindow(trace, key, from) == InWindow(trace[..n], key, from)
              + (if CountsFor(key, trace[n]) && OutcomeAt(trace, n).Refused? && from <= trace[n].now < from + ATTEMPT_COUNTER_EXPIRE_TIME then 1 else 0)
  {
  }

  /** What the present life of the counter allows a window to hold, by where it began. */
  ghost predicate WindowHolds(failures: nat, cap: nat, start: int, value: nat, from: nat) {
    if start < from then failures <= value
    else if start < from + ATTEMPT_COUNTER_EXPIRE_TIME then failures <= cap + value
    else failures <= 2 * cap
  }

  lemma {:induction false} WindowLives(trace: seq<Try>, key: Key, from: nat)
    requires IsCounter(key) && Chronological(trace) && NeverCleared(trace, key)
    ensures var e := After(trace);
            if key in e then e[key].value <= Cap(key) && WindowHolds(InWindow(trace, key, from), Cap(key), Start(e[key]), e[key].value, from)
            else InWindow(trace, key, from) == 0
  {
    if trace != [] {
      var n := |trace| - 1;
      var before, a := After(trace[..n]), trace[n];
      PrefixChronological(trace);
      PrefixNeverCleared(trace, key);
      WindowLives(trace[..n], key, from);
      WindowStep(trace, key, from);
      EntryChange(before, a, key);
      if key in After(trace) {
        FailuresPerLife(trace, key);
      }
      if CountsFor(key, a) && OutcomeAt(trace, n).Refused? {
        WindowRefusal(trace, key, from);
      }
    }
  }

  /** A counted refusal, in the life that goes on or as the first of a new one. */
  lemma {:induction false} WindowRefusal(trace: seq<Try>, key: Key, from: nat)
    requires IsCounter(key) && trace != [] && Chronological(trace)
    requires CountsFor(key, trace[|trace| - 1]) && OutcomeAt(trace, |trace| - 1).Refused?
    requires var n := |trace| - 1;
             var e := After(trace[..n]);
             if key in e then e[key].value <= Cap(key) && WindowHolds(InWindow(trace[..n], key, from), Cap(key), Start(e[key]), e[key].value, from)
             else InWindow(trace[..n], key, from) == 0
    ensures var e := After(trace);
            key in e && WindowHolds(InWindow(trace, key, from), Cap(key), Start(e[key]), e[key].value, from)
  {
    var n := |trace| - 1;
    var before, a := After(trace[..n]), trace[n];
    PrefixChronological(trace);
    EntryChange(before, a, key);
    WindowStep(trace, key, from);
    RunCounted(trace[..n], key);
    if !Live(before, key, a.now) && a.now < from {
      assert forall i | 0 <= i < n :: trace[..n][i] == trace[i] && trace[i].now <= a.now;
      WindowPast(trace[..n], key, from);
    }
  }

  /**
   In every window of 7200 seconds, wherever it lies in the run, at most twice the cap: a window meets at most two
   lives of the counter.
   */
  lemma {:induction false} WindowRate(trace: seq<Try>, key: Key, from: nat)
    requires IsCounter(key) && Chronological(trace) && NeverCleared(trace, key)
    ensures InWindow(trace, key, from) <= 2 * Cap(key)
  {
    WindowLives(trace, key, from);
  }

  lemma {:induction false} Times(c: nat, a: nat, b: nat)
    requires a <= b
    ensures c * a <= c * b
  {
  }

  // ---- the caps are reached

  /** Failures at the earliest times that the delays allow. */
  function Burst(key: Key, count: nat): (trace: seq<Try>)
    requires IsCounter(key)
    ensures |trace| == count
  {
    if count == 0 then []
    else Burst(key, count - 1) + [Try(DelaySum(key, count - 1), Some(key.ip), if key.FailedUser? then Some(key.user) else None, false)]
  }

  lemma {:induction false} LastWithinLife(key: Key)
    requires IsCounter(key)
    ensures DelaySum(key, Cap(key) - 1) < ATTEMPT_COUNTER_EXPIRE_TIME
  {
    Powers();
    if key.FailedIp? {
      TenOfAKind(key.ip, 9, 4);
    } else {
      UserSum(key, 9);
      assert DelaySum(key, 10) == 511 + MAX_DELAY;
    }
  }

  lemma {:induction false} PowGrows(n: nat)
    ensures Pow2(n) >= n + 1
  {
    if n > 0 {
      PowGrows(n - 1);
    }
  }

  /** On one counter alone, its own delay decides. */
  lemma {:induction false} OwnDelay(key: Key, count: nat)
    requires IsCounter(key) && 1 <= count <= Cap(key)
    ensures GetDelayTime(count, if key.FailedUser? then count else 0) == DelayOf(key, count)
  {
    Powers();
    if key.FailedUser? && count < 10 {
      assert (count + 9) / 10 - 1 == 0;
      PowGrows(count - 1);
    }
  }

  lemma {:induction false} BurstState(key: Key, count: nat)
    requires IsCounter(key) && 1 <= count <= Cap(key)
    ensures var e, life := After(Burst(key, count)), ATTEMPT_COUNTER_EXPIRE_TIME;
            && FailedIp(key.ip) in e && e[FailedIp(key.ip)] == Entry(count, life)
            && key in e && e[key] == Entry(count, life)
            && Blocked(key.ip) in e && e[Blocked(key.ip)].expires == DelaySum(key, count)
    ensures OutcomeAt(Burst(key, count), count - 1).Refused?
  {
    var trace := Burst(key, count);
    var n := count - 1;
    assert trace[..n] == Burst(key, n);
    OwnDelay(key, count);
    LastWithinLife(key);
    DelaySumGrows(key, n, Cap(key) - 1);
    if n == 0 {
      assert After(trace[..n]) == map[];
    } else {
      BurstState(key, n);
    }
  }

  lemma {:induction false} BurstAt(key: Key, count: nat, i: nat)
    requires IsCounter(key) && i < count
    ensures Burst(key, count)[i].now == DelaySum(key, i) && !Burst(key, count)[i].correct
  {
    if i < count - 1 {
      BurstAt(key, count - 1, i);
    }
  }

  lemma {:induction false} BurstFacts(key: Key, count: nat)
    requires IsCounter(key)
    ensures Chronological(Burst(key, count)) && NoLogin(Burst(key, count), key.ip)
  {
    var trace := Burst(key, count);
    forall i, j | 0 <= i < j < count
      ensures trace[i].now <= trace[j].now
    {
      BurstAt(key, count, i);
      BurstAt(key, count, j);
      DelaySumGrows(key, i, j);
    }
    forall i | 0 <= i < count
      ensures !OutcomeAt(trace, i).LoggedIn?
    {
      BurstAt(key, count, i);
    }
  }

  /** The bounds are exact: failing as early as possible, one life of a counter reaches its cap. */
  lemma {:induction false} CapReached(key: Key)
    requires IsCounter(key)
    ensures var trace := Burst(key, Cap(key));
            Chronological(trace) && NoLogin(trace, key.ip) && key in After(trace) && Failures(trace, key, Start(After(trace)[key])) == Cap(key)
  {
    BurstFacts(key, Cap(key));
    BurstState(key, Cap(key));
    FailuresPerLife(Burst(key, Cap(key)), key);
  }
}
