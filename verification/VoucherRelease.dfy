/** saleor/discount/tasks.py: giving back the voucher usages of draft orders, a batch of codes per task. */
module VoucherRelease {
  import opened Wrappers

  type Id = nat

  /** A voucher code row with the two settings of its voucher that matter here. */
  datatype VoucherCode = VoucherCode(code: nat, used: nat, active: bool, usageLimit: bool, singleUse: bool)

  type Rows = map<Id, VoucherCode>

  const BATCH_SIZE: nat := 1000

  function Occurrences(codes: seq<nat>, code: nat): nat {
    if codes == [] then 0 else (if codes[0] == code then 1 else 0) + Occurrences(codes[1..], code)
  }

  lemma {:induction false} OccurrencesCount(codes: seq<nat>, code: nat)
    ensures Occurrences(codes, code) == multiset(codes)[code]
  {
    if codes != [] {
      OccurrencesCount(codes[1..], code);
      assert codes == [codes[0]] + codes[1..];
    }
  }

  function Released(row: VoucherCode, codes: seq<nat>): (r: VoucherCode)
    ensures row.usageLimit ==> r.used == Max(row.used - Occurrences(codes, row.code), 0)
    ensures !row.usageLimit ==> r.used == row.used
    ensures r.active == (row.active || row.singleUse)
  {
    var used := if row.usageLimit && row.used > 0 then Max(row.used - Occurrences(codes, row.code), 0) else row.used;
    row.(used := used, active := if row.singleUse then true else row.active)
  }

  /** The unbatched operation: every listed row is released once. */
  function ReleasedAll(rows: Rows, ids: set<Id>, codes: seq<nat>): Rows {
    map id | id in rows :: if id in ids then Released(rows[id], codes) else rows[id]
  }

  function ToSet(ids: seq<Id>): set<Id> {
    set id | id in ids
  }

  function FirstBatch(ids: seq<Id>): (b: seq<Id>)
    ensures b <= ids && |b| <= BATCH_SIZE && (|ids| <= BATCH_SIZE ==> b == ids)
  {
    if |ids| <= BATCH_SIZE then ids else ids[..BATCH_SIZE]
  }

  /** How the remaining set is written as a list, in any order, at each re-scheduling. */
  type Listing = (nat, set<Id>) -> seq<Id>

  ghost predicate Distinct(ids: seq<Id>) {
    forall i, j | 0 <= i < j < |ids| :: ids[i] != ids[j]
  }

  ghost predicate Lists(listing: Listing) {
    forall k: nat, s: set<Id> :: ToSet(listing(k, s)) == s && Distinct(listing(k, s))
  }

  predicate NoneFound(rows: Rows, batch: seq<Id>) {
    forall i | 0 <= i < |batch| :: batch[i] !in rows
  }

  /** The chain of tasks: a task that finds no row of its batch schedules no further one. */
  ghost function Chain(rows: Rows, ids: seq<Id>, codes: seq<nat>, listing: Listing, k: nat): Rows
    requires Lists(listing)
    decreases |ToSet(ids)|
  {
    var batch := FirstBatch(ids);
    if NoneFound(rows, batch) then rows
    else
      var rest := ToSet(ids) - ToSet(batch);
      var rows' := ReleasedAll(rows, ToSet(batch), codes);
      if rest == {} then rows'
      else
        RestBelow(ids);
        assert ToSet(listing(k, rest)) == rest;
        Chain(rows', listing(k, rest), codes, listing, k + 1)
  }

  lemma {:induction false} RestBelow(ids: seq<Id>)
    requires ids != []
    ensures |ToSet(ids) - ToSet(FirstBatch(ids))| < |ToSet(ids)|
  {
    var batch := FirstBatch(ids);
    assert batch[0] == ids[0];
    assert ids[0] in ToSet(ids) && ids[0] in ToSet(batch);
    Smaller(ToSet(ids) - ToSet(batch), ToSet(ids));
  }

  lemma {:induction false} Smaller(a: set<Id>, b: set<Id>)
    requires a < b
    ensures |a| < |b|
  {
    var x :| x in b && x !in a;
    assert a <= b - {x};
    SubsetSize(a, b - {x});
  }

  lemma {:induction false} SubsetSize(a: set<Id>, b: set<Id>)
    requires a <= b
    ensures |a| <= |b|
    decreases a
  {
    if a != {} {
      var x :| x in a;
      SubsetSize(a - {x}, b - {x});
    }
  }

  // ---- the Celery task as it runs

  class Codes {
    var rows: Rows

    /** One task: release the rows of the first batch and say which ids are left. */
    method DecreaseUsage(ids: seq<Id>, codes: seq<nat>) returns (reschedule: bool, rest: set<Id>)
      modifies this
      ensures var batch := FirstBatch(ids);
              && reschedule == (!NoneFound(old(rows), batch) && rest != {})
              && (NoneFound(old(rows), batch) ==> rows == old(rows))
              && (!NoneFound(old(rows), batch) ==> rows == ReleasedAll(old(rows), ToSet(batch), codes) && rest == ToSet(ids) - ToSet(batch))
    {
      var batch := if |ids| <= BATCH_SIZE then ids else ids[..BATCH_SIZE];
      rest := {};
      reschedule := false;
      if exists i | 0 <= i < |batch| :: batch[i] in rows {
        ghost var before := rows;
        var done: set<Id> := {};
        for i := 0 to |batch|
          invariant done == set j | 0 <= j < i :: batch[j]
          invariant rows == ReleasedAll(before, done, codes)
        {
          var id := batch[i];
          if id in rows && id !in done {
            rows := rows[id := Released(rows[id], codes)];
          }
          done := done + {id};
        }
        assert done == ToSet(batch);
        rest := (set id | id in ids) - (set id | id in batch);
        reschedule := rest != {};
      }
    }

    /** The whole chain. */
    method RunChain(ids: seq<Id>, codes: seq<nat>, listing: Listing)
      requires Lists(listing)
      modifies this
      ensures rows == Chain(old(rows), ids, codes, listing, 0)
    {
      var list, k := ids, 0;
      var again, rest := DecreaseUsage(list, codes);
      while again
        invariant NoneFound(old(rows), FirstBatch(ids)) ==> !again
        invariant again ==> rest != {} && Chain(rows, listing(k, rest), codes, listing, k + 1) == Chain(old(rows), ids, codes, listing, 0)
        invariant !again ==> rows == Chain(old(rows), ids, codes, listing, 0)
        decreases if again then |rest| + 1 else 0
      {
        list := listing(k, rest);
        ghost var before, listed := rows, rest;
        assert ToSet(list) == listed;
        k := k + 1;
        again, rest := DecreaseUsage(list, codes);
        if !NoneFound(before, FirstBatch(list)) {
          var b := FirstBatch(list);
          assert b[0] in list && b[0] in ToSet(list);
          Smaller(rest, listed);
        }
      }
    }
  }

  // ---- the chain and the single pass

  ghost function Missing(rows: Rows, ids: set<Id>): set<Id> {
    ids - rows.Keys
  }

  lemma {:induction false} DistinctSize(ids: seq<Id>)
    requires Distinct(ids)
    ensures |ToSet(ids)| == |ids|
  {
    if ids != [] {
      var t := ids[1..];
      forall i, j | 0 <= i < j < |t|
        ensures t[i] != t[j]
      {
        assert t[i] == ids[i + 1] && t[j] == ids[j + 1];
      }
      DistinctSize(t);
      assert ToSet(ids) == {ids[0]} + ToSet(t);
      forall i | 0 <= i < |t|
        ensures t[i] != ids[0]
      {
        assert t[i] == ids[i + 1];
      }
    }
  }

  lemma {:induction false} BatchDistinct(ids: seq<Id>)
    requires Distinct(ids)
    ensures Distinct(FirstBatch(ids)) && |ToSet(FirstBatch(ids))| == |FirstBatch(ids)|
  {
    var b := FirstBatch(ids);
    assert forall i | 0 <= i < |b| :: b[i] == ids[i];
    DistinctSize(b);
  }

  /** A full batch holds more ids than can be missing, so it finds a row. */
  lemma {:induction false} FullBatchFinds(rows: Rows, ids: seq<Id>)
    requires Distinct(ids) && |ids| > BATCH_SIZE && |Missing(rows, ToSet(ids))| < BATCH_SIZE
    ensures !NoneFound(rows, FirstBatch(ids))
  {
    var b := FirstBatch(ids);
    BatchDistinct(ids);
    if NoneFound(rows, b) {
      forall id | id in ToSet(b)
        ensures id in Missing(rows, ToSet(ids))
      {
        var i :| 0 <= i < |b| && b[i] == id;
        assert ids[i] == id;
      }
      SubsetSize(ToSet(b), Missing(rows, ToSet(ids)));
    }
  }

  lemma {:induction false} ReleasedTwoParts(rows: Rows, a: set<Id>, b: set<Id>, codes: seq<nat>)
    requires a !! b
    ensures ReleasedAll(ReleasedAll(rows, a, codes), b, codes) == ReleasedAll(rows, a + b, codes)
  {
  }

  lemma {:induction false} NothingToRelease(rows: Rows, ids: set<Id>, codes: seq<nat>)
    requires ids !! rows.Keys
    ensures ReleasedAll(rows, ids, codes) == rows
  {
  }

  lemma {:induction false} NoneFoundMeansApart(rows: Rows, ids: seq<Id>)
    requires NoneFound(rows, ids)
    ensures ToSet(ids) !! rows.Keys
  {
    forall id | id in ToSet(ids)
      ensures id !in rows
    {
      var i :| 0 <= i < |ids| && ids[i] == id;
    }
  }

  /** After a task that found rows, fewer ids remain and no more of them are missing. */
  lemma {:induction false} RestIsSmaller(rows: Rows, ids: seq<Id>, codes: seq<nat>)
    requires !NoneFound(rows, FirstBatch(ids))
    ensures var batch := FirstBatch(ids);
            var rest := ToSet(ids) - ToSet(batch);
            && |rest| < |ToSet(ids)| && ToSet(batch) + rest == ToSet(ids)
            && |Missing(ReleasedAll(rows, ToSet(batch), codes), rest)| <= |Missing(rows, ToSet(ids))|
  {
    var batch := FirstBatch(ids);
    var rest, rows' := ToSet(ids) - ToSet(batch), ReleasedAll(rows, ToSet(batch), codes);
    assert ToSet(batch) <= ToSet(ids);
    RestBelow(ids);
    assert rows'.Keys == rows.Keys;
    SubsetSize(Missing(rows', rest), Missing(rows, ToSet(ids)));
  }

  /**
   The chain refines the single pass: as long as fewer ids than a batch are missing, whatever order the remaining
   ids are listed in, every existing code is released exactly once and nothing else changes.
   */
  lemma {:induction false} ChainIsSinglePass(rows: Rows, ids: seq<Id>, codes: seq<nat>, listing: Listing, k: nat)
    requires Lists(listing) && Distinct(ids) && |Missing(rows, ToSet(ids))| < BATCH_SIZE
    ensures Chain(rows, ids, codes, listing, k) == ReleasedAll(rows, ToSet(ids), codes)
    decreases |ToSet(ids)|, 1
  {
    var batch := FirstBatch(ids);
    if |ids| > BATCH_SIZE {
      FullBatchFinds(rows, ids);
    }
    if NoneFound(rows, batch) {
      NoneFoundMeansApart(rows, ids);
      NothingToRelease(rows, ToSet(ids), codes);
    } else {
      RestIsSmaller(rows, ids, codes);
      ChainAfterBatch(rows, ids, codes, listing, k);
    }
  }

  lemma {:induction false} ChainAfterBatch(rows: Rows, ids: seq<Id>, codes: seq<nat>, listing: Listing, k: nat)
    requires Lists(listing) && !NoneFound(rows, FirstBatch(ids)) && |Missing(rows, ToSet(ids))| < BATCH_SIZE
    ensures Chain(rows, ids, codes, listing, k) == ReleasedAll(rows, ToSet(ids), codes)
    decreases |ToSet(ids)|, 0
  {
    RestIsSmaller(rows, ids, codes);
    var batch := FirstBatch(ids);
    var rest, rows' := ToSet(ids) - ToSet(batch), ReleasedAll(rows, ToSet(batch), codes);
    if rest != {} {
      var list := listing(k, rest);
      assert ToSet(list) == rest && Distinct(list);
      ChainIsSinglePass(rows', list, codes, listing, k + 1);
      ReleasedTwoParts(rows, ToSet(batch), rest, codes);
    } else {
      assert ToSet(batch) == ToSet(ids);
    }
  }

  /** When a whole batch of ids is missing, the chain stops there and releases nothing more. */
  lemma {:induction false} MissingBatchStopsChain(rows: Rows, ids: seq<Id>, codes: seq<nat>, listing: Listing, k: nat)
    requires Lists(listing) && NoneFound(rows, FirstBatch(ids))
    ensures Chain(rows, ids, codes, listing, k) == rows
  {
  }

  /** Any set with a whole batch of missing ids can be listed with them in front, which stops the chain at once. */
  lemma {:induction false} StallingOrder(rows: Rows, missing: set<Id>, found: set<Id>) returns (list: seq<Id>)
    requires |missing| >= BATCH_SIZE && missing !! rows.Keys && missing !! found
    ensures ToSet(list) == missing + found && Distinct(list) && NoneFound(rows, FirstBatch(list))
  {
    var front := ListOf(missing);
    var back := ListOf(found);
    list := front + back;
    DistinctSize(front);
    ConcatLists(front, back);
    FrontMissing(rows, front, back);
  }

  lemma {:induction false} FrontMissing(rows: Rows, front: seq<Id>, back: seq<Id>)
    requires |front| >= BATCH_SIZE && ToSet(front) !! rows.Keys
    ensures NoneFound(rows, FirstBatch(front + back))
  {
    var b := FirstBatch(front + back);
    forall i | 0 <= i < |b|
      ensures b[i] !in rows
    {
      assert b[i] == front[i];
      assert front[i] in ToSet(front);
    }
  }

  lemma {:induction false} ConcatLists(a: seq<Id>, b: seq<Id>)
    requires Distinct(a) && Distinct(b) && ToSet(a) !! ToSet(b)
    ensures Distinct(a + b) && ToSet(a + b) == ToSet(a) + ToSet(b)
  {
    var s := a + b;
    forall i, j | 0 <= i < j < |s|
      ensures s[i] != s[j]
    {
      if i < |a| <= j {
        assert s[i] in ToSet(a) && s[j] in ToSet(b);
      }
    }
  }

  lemma {:induction false} ListOf(s: set<Id>) returns (list: seq<Id>)
    ensures ToSet(list) == s && Distinct(list)
    decreases s
  {
    if s == {} {
      list := [];
    } else {
      var x :| x in s;
      var t := ListOf(s - {x});
      list := [x] + t;
      assert ToSet(list) == {x} + ToSet(t);
      assert x !in ToSet(t);
      assert forall i | 0 < i < |list| :: list[i] == t[i - 1] && t[i - 1] in ToSet(t);
    }
  }

  ghost function SomeList(s: set<Id>): (list: seq<Id>)
    ensures ToSet(list) == s && Distinct(list)
  {
    ListExists(s);
    var list :| ToSet(list) == s && Distinct(list);
    list
  }

  lemma {:induction false} ListExists(s: set<Id>)
    ensures exists list :: ToSet(list) == s && Distinct(list)
  {
    var list := ListOf(s);
  }

  ghost predicate AlwaysComplete(rows: Rows, ids: set<Id>, codes: seq<nat>) {
    forall list, listing, k: nat | ToSet(list) == ids && Distinct(list) && Lists(listing) ::
      Chain(rows, list, codes, listing, k) == ReleasedAll(rows, ids, codes)
  }

  /** Where releasing everything changes nothing, neither does the chain. */
  lemma {:induction false} NothingChanges(rows: Rows, ids: seq<Id>, codes: seq<nat>, listing: Listing, k: nat)
    requires Lists(listing) && ReleasedAll(rows, ToSet(ids), codes) == rows
    ensures Chain(rows, ids, codes, listing, k) == rows
    decreases |ToSet(ids)|
  {
    var batch := FirstBatch(ids);
    if !NoneFound(rows, batch) {
      RestIsSmaller(rows, ids, codes);
      var rest := ToSet(ids) - ToSet(batch);
      NothingInPart(rows, ToSet(ids), ToSet(batch), codes);
      NothingInPart(rows, ToSet(ids), rest, codes);
      if rest != {} {
        NothingChanges(rows, listing(k, rest), codes, listing, k + 1);
      }
    }
  }

  lemma {:induction false} NothingInPart(rows: Rows, ids: set<Id>, part: set<Id>, codes: seq<nat>)
    requires ReleasedAll(rows, ids, codes) == rows && part <= ids
    ensures ReleasedAll(rows, part, codes) == rows
  {
    forall id | id in rows
      ensures ReleasedAll(rows, part, codes)[id] == rows[id]
    {
      assert ReleasedAll(rows, ids, codes)[id] == rows[id];
    }
  }

  /**
   The chain is complete for every order of the ids if and only if there is nothing to release or fewer than a batch
   of ids are missing.
   */
  lemma {:induction false} CompleteExactly(rows: Rows, ids: set<Id>, codes: seq<nat>)
    ensures AlwaysComplete(rows, ids, codes) <==> ReleasedAll(rows, ids, codes) == rows || |Missing(rows, ids)| < 1000
  {
    if ReleasedAll(rows, ids, codes) == rows {
      forall list, listing, k: nat | ToSet(list) == ids && Distinct(list) && Lists(listing)
        ensures Chain(rows, list, codes, listing, k) == ReleasedAll(rows, ids, codes)
      {
        NothingChanges(rows, list, codes, listing, k);
      }
    } else if |Missing(rows, ids)| < BATCH_SIZE {
      forall list, listing, k: nat | ToSet(list) == ids && Distinct(list) && Lists(listing)
        ensures Chain(rows, list, codes, listing, k) == ReleasedAll(rows, ids, codes)
      {
        ChainIsSinglePass(rows, list, codes, listing, k);
      }
    } else {
      var missing, found := Missing(rows, ids), ids * rows.Keys;
      assert missing + found == ids;
      Stalls(rows, missing, found, codes);
    }
  }

  lemma {:induction false} Stalls(rows: Rows, missing: set<Id>, found: set<Id>, codes: seq<nat>)
    requires |missing| >= BATCH_SIZE && missing !! rows.Keys && missing !! found
    requires ReleasedAll(rows, missing + found, codes) != rows
    ensures !AlwaysComplete(rows, missing + found, codes)
  {
    var listing: Listing := (k, s) => SomeList(s);
    assert Lists(listing);
    var list := StallingOrder(rows, missing, found);
    MissingBatchStopsChain(rows, list, codes, listing, 0);
  }
}
