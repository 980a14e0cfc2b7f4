/**
 saleor/discount/tasks.py: notices about starting and ending promotions, in batches. The table is kept in the order
 of the model, by name and primary key, so a query result is a selection of it in order.
 */
module PromotionToggle {
  import opened Wrappers

  const PROMOTION_TOGGLE_BATCH_SIZE: nat := 100

  datatype Promotion = Promotion(id: nat, start: nat, end: Option<nat>, notified: Option<nat>)

  /** The three readings of the clock in one task: for the starting query, for the ending query, for the update. */
  datatype Clock = Clock(starting: nat, ending: nat, update: nat)

  predicate Pending(p: Promotion, date: nat) {
    p.notified.None? || p.notified.value < date
  }

  predicate StartDue(p: Promotion, now: nat) {
    Pending(p, p.start) && p.start <= now
  }

  predicate EndDue(p: Promotion, now: nat) {
    p.end.Some? && Pending(p, p.end.value) && p.end.value <= now
  }

  predicate Due(p: Promotion, c: Clock) {
    StartDue(p, c.starting) || EndDue(p, c.ending)
  }

  // the conditions of the queries

  function Starting(c: Clock): Promotion -> bool {
    (p: Promotion) => StartDue(p, c.starting)
  }

  function Ending(c: Clock): Promotion -> bool {
    (p: Promotion) => EndDue(p, c.ending)
  }

  function AllDue(c: Clock): Promotion -> bool {
    (p: Promotion) => Due(p, c)
  }

  function InEither(a: seq<Promotion>, b: seq<Promotion>): Promotion -> bool {
    (p: Promotion) => p in a || p in b
  }

  function WithId(ids: set<nat>): Promotion -> bool {
    (p: Promotion) => p.id in ids
  }

  /** Rows that satisfy a condition, in order. */
  function Select(rows: seq<Promotion>, cond: Promotion -> bool): (r: seq<Promotion>)
    ensures |r| <= |rows|
  {
    if rows == [] then []
    else if cond(rows[0]) then [rows[0]] + Select(rows[1..], cond)
    else Select(rows[1..], cond)
  }

  /** At most `n` rows from the front. */
  function Slice(rows: seq<Promotion>, n: nat): (r: seq<Promotion>)
    ensures r <= rows && |r| <= n && (|rows| <= n ==> r == rows)
  {
    if |rows| <= n then rows else rows[..n]
  }

  ghost predicate DistinctIds(rows: seq<Promotion>) {
    forall i, j | 0 <= i < j < |rows| :: rows[i].id != rows[j].id
  }

  function Ids(rows: seq<Promotion>): set<nat> {
    set p | p in rows :: p.id
  }

  /** The promotions a task handles: first slice each query, then slice their union. */
  function Handled(rows: seq<Promotion>, c: Clock, n: nat): seq<Promotion> {
    var starting := Slice(Select(rows, Starting(c)), n);
    var ending := Slice(Select(rows, Ending(c)), n);
    Slice(Select(rows, InEither(starting, ending)), n)
  }

  function Notified(rows: seq<Promotion>, ids: set<nat>, at: nat): (r: seq<Promotion>)
    ensures |r| == |rows|
  {
    if rows == [] then []
    else [if rows[0].id in ids then rows[0].(notified := Some(at)) else rows[0]] + Notified(rows[1..], ids, at)
  }

  class Promotions {
    var rows: seq<Promotion>

    /** One task: who gets a start notice, who an end notice; all handled rows are marked. */
    method HandlePromotionToggle(c: Clock) returns (started: seq<Promotion>, ended: seq<Promotion>)
      modifies this
      ensures var handled := Handled(old(rows), c, PROMOTION_TOGGLE_BATCH_SIZE);
              && started == Select(Slice(Select(old(rows), Starting(c)), PROMOTION_TOGGLE_BATCH_SIZE), WithId(Ids(handled)))
              && ended == Select(Slice(Select(old(rows), Ending(c)), PROMOTION_TOGGLE_BATCH_SIZE), WithId(Ids(handled)))
              && rows == Notified(old(rows), Ids(handled), c.update)
      ensures forall i | 0 <= i < |rows| ::
                rows[i] == if old(rows)[i].id in Ids(FirstHundredDue(old(rows), c)) then old(rows)[i].(notified := Some(c.update)) else old(rows)[i]
      ensures DistinctIds(old(rows)) ==> ToldExactly(old(rows), c, started, ended)
    {
      HandledAreFirstHundred(rows, c);
      if DistinctIds(rows) {
        WhoIsTold(rows, c);
      }
      AllNotifiedAt(rows, Ids(FirstHundredDue(rows, c)), c.update);
      var starting := Slice(Select(rows, Starting(c)), PROMOTION_TOGGLE_BATCH_SIZE);
      var ending := Slice(Select(rows, Ending(c)), PROMOTION_TOGGLE_BATCH_SIZE);
      var handled := Slice(Select(rows, InEither(starting, ending)), PROMOTION_TOGGLE_BATCH_SIZE);
      var ids := Ids(handled);
      started := Select(starting, WithId(ids));
      ended := Select(ending, WithId(ids));
      MarkNotified(ids, c.update);
    }

    /** The update of the rows with the given ids. */
    method MarkNotified(ids: set<nat>, at: nat)
      modifies this
      ensures rows == Notified(old(rows), ids, at)
    {
      var table: seq<Promotion> := [];
      assert rows[0..] == rows;
      for i := 0 to |rows|
        invariant rows == old(rows)
        invariant table + Notified(rows[i..], ids, at) == Notified(rows, ids, at)
      {
        var p := if rows[i].id in ids then rows[i].(notified := Some(at)) else rows[i];
        assert rows[i..][1..] == rows[i + 1..];
        Regroup(table, [p], Notified(rows[i + 1..], ids, at));
        table := table + [p];
      }
      rows := table;
    }
  }

  /** The first hundred promotions that are due, or all of them if they are fewer. */
  function FirstHundredDue(rows: seq<Promotion>, c: Clock): seq<Promotion> {
    var due := Select(rows, AllDue(c));
    if |due| > 100 then due[..100] else due
  }

  lemma {:induction false} HandledAreFirstHundred(rows: seq<Promotion>, c: Clock)
    ensures Handled(rows, c, PROMOTION_TOGGLE_BATCH_SIZE) == FirstHundredDue(rows, c)
  {
    HandledAreFirstDue(rows, c, 100);
  }

  lemma {:induction false} AllNotifiedAt(rows: seq<Promotion>, ids: set<nat>, at: nat)
    ensures forall i | 0 <= i < |rows| ::
              Notified(rows, ids, at)[i] == if rows[i].id in ids then rows[i].(notified := Some(at)) else rows[i]
  {
    forall i | 0 <= i < |rows|
      ensures Notified(rows, ids, at)[i] == if rows[i].id in ids then rows[i].(notified := Some(at)) else rows[i]
    {
      NotifiedAt(rows, ids, at, i);
    }
  }

  // ---- slicing twice

  lemma {:induction false} Regroup(a: seq<Promotion>, b: seq<Promotion>, c: seq<Promotion>)
    ensures a + (b + c) == a + b + c
  {
  }

  lemma {:induction false} SelectStep(p: Promotion, t: seq<Promotion>, cond: Promotion -> bool)
    ensures Select([p] + t, cond) == (if cond(p) then [p] else []) + Select(t, cond)
  {
    assert ([p] + t)[1..] == t;
  }

  lemma {:induction false} SelectConcat(a: seq<Promotion>, b: seq<Promotion>, cond: Promotion -> bool)
    ensures Select(a + b, cond) == Select(a, cond) + Select(b, cond)
  {
    if a == [] {
      assert a + b == b;
    } else {
      var t := a[1..];
      SelectConcat(t, b, cond);
      SelectStep(a[0], t + b, cond);
      SelectStep(a[0], t, cond);
      assert a == [a[0]] + t;
      Regroup([a[0]], t, b);
      Regroup(if cond(a[0]) then [a[0]] else [], Select(t, cond), Select(b, cond));
    }
  }

  lemma {:induction false} SelectMembers(rows: seq<Promotion>, cond: Promotion -> bool)
    ensures forall p :: p in Select(rows, cond) <==> p in rows && cond(p)
  {
    if rows != [] {
      SelectMembers(rows[1..], cond);
      assert forall p :: p in rows <==> p == rows[0] || p in rows[1..];
    }
  }

  lemma {:induction false} SelectSame(rows: seq<Promotion>, c1: Promotion -> bool, c2: Promotion -> bool)
    requires forall p | p in rows :: c1(p) == c2(p)
    ensures Select(rows, c1) == Select(rows, c2)
  {
    if rows != [] {
      assert rows[0] in rows;
      SelectSame(rows[1..], c1, c2);
    }
  }

  /** The cut: everything up to and including the n-th row that satisfies the condition. */
  ghost function Cut(rows: seq<Promotion>, cond: Promotion -> bool, n: nat): (k: nat)
    ensures k <= |rows|
  {
    if rows == [] || n == 0 then 0
    else 1 + Cut(rows[1..], cond, if cond(rows[0]) then n - 1 else n)
  }

  /** A slice of a selection is the selection from the rows before the cut. */
  lemma {:induction false} SliceIsCut(rows: seq<Promotion>, cond: Promotion -> bool, n: nat)
    ensures Slice(Select(rows, cond), n) == Select(rows[..Cut(rows, cond, n)], cond)
  {
    var k := Cut(rows, cond, n);
    if rows == [] {
      assert rows[..0] == [];
    } else if n == 0 {
      assert rows[..0] == [];
    } else {
      var t := rows[1..];
      var m := if cond(rows[0]) then n - 1 else n;
      SliceIsCut(t, cond, m);
      var kt := Cut(t, cond, m);
      assert rows[..k] == [rows[0]] + t[..kt];
      assert rows[..k][1..] == t[..kt];
      if cond(rows[0]) {
        SliceCons(rows[0], Select(t, cond), n);
      }
    }
  }

  lemma {:induction false} SliceCons(p: Promotion, s: seq<Promotion>, n: nat)
    requires n > 0
    ensures Slice([p] + s, n) == [p] + Slice(s, n - 1)
  {
  }

  /** A weaker condition fills its slice sooner. */
  lemma {:induction false} WeakerCutsSooner(rows: seq<Promotion>, weak: Promotion -> bool, strong: Promotion -> bool, n: nat, m: nat)
    requires forall p :: strong(p) ==> weak(p)
    requires n <= m
    ensures Cut(rows, weak, n) <= Cut(rows, strong, m)
  {
    if rows != [] && n > 0 {
      WeakerCutsSooner(rows[1..], weak, strong, if weak(rows[0]) then n - 1 else n, if strong(rows[0]) then m - 1 else m);
    }
  }

  /** Before the cut of the union, each slice holds exactly what its own condition selects. */
  lemma {:induction false} WithinCut(rows: seq<Promotion>, cond: Promotion -> bool, n: nat, k: nat, p: Promotion)
    requires k <= Cut(rows, cond, n) && p in rows[..k]
    ensures p in Slice(Select(rows, cond), n) <==> cond(p)
  {
    SliceIsCut(rows, cond, n);
    SelectMembers(rows[..Cut(rows, cond, n)], cond);
    var i :| 0 <= i < k && rows[..k][i] == p;
    assert rows[..Cut(rows, cond, n)][i] == p;
  }

  lemma {:induction false} SliceSubset(rows: seq<Promotion>, cond: Promotion -> bool, n: nat, p: Promotion)
    requires p in Slice(Select(rows, cond), n)
    ensures p in rows && cond(p)
  {
    SelectMembers(rows, cond);
  }

  /**
   Batching loses nothing: slicing the two queries first and then their union gives the first rows of all that are
   due, for every batch size.
   */
  lemma {:induction false} HandledAreFirstDue(rows: seq<Promotion>, c: Clock, n: nat)
    ensures Handled(rows, c, n) == Slice(Select(rows, AllDue(c)), n)
  {
    var s, e, d := Starting(c), Ending(c), AllDue(c);
    var starting, ending := Slice(Select(rows, s), n), Slice(Select(rows, e), n);
    var u := InEither(starting, ending);
    var k := Cut(rows, d, n);
    WeakerCutsSooner(rows, d, s, n, n);
    WeakerCutsSooner(rows, d, e, n, n);
    forall p | p in rows[..k]
      ensures u(p) == d(p)
    {
      WithinCut(rows, s, n, k, p);
      WithinCut(rows, e, n, k, p);
    }
    forall p | u(p)
      ensures d(p)
    {
      if p in starting {
        SliceSubset(rows, s, n, p);
      } else {
        SliceSubset(rows, e, n, p);
      }
    }
    SameCut(rows, d, u, n);
    SliceIsCut(rows, d, n);
    SliceIsCut(rows, u, n);
    SelectSame(rows[..k], d, u);
  }

  /** Conditions that agree before the cut of the first, with the second never wider, have the same slice. */
  lemma {:induction false} SameCut(rows: seq<Promotion>, d: Promotion -> bool, u: Promotion -> bool, n: nat)
    requires forall p | p in rows[..Cut(rows, d, n)] :: u(p) == d(p)
    requires forall p | p in rows :: u(p) ==> d(p)
    ensures Cut(rows, u, n) == Cut(rows, d, n)
  {
    if rows != [] && n > 0 {
      var t, k := rows[1..], Cut(rows, d, n);
      var m := if d(rows[0]) then n - 1 else n;
      assert rows[..k][0] == rows[0];
      assert rows[..k][1..] == t[..Cut(t, d, m)];
      forall p | p in t[..Cut(t, d, m)]
        ensures u(p) == d(p)
      {
        assert p in rows[..k][1..];
        assert p in rows[..k];
      }
      SameCut(t, d, u, m);
    }
  }

  // ---- who gets a notice

  lemma {:induction false} SelectTwice(rows: seq<Promotion>, a: Promotion -> bool, b: Promotion -> bool, both: Promotion -> bool)
    requires forall p | p in rows :: both(p) == (a(p) && b(p))
    ensures Select(Select(rows, a), b) == Select(rows, both)
  {
    if rows != [] {
      assert rows[0] in rows;
      SelectTwice(rows[1..], a, b, both);
      if a(rows[0]) {
        SelectStep(rows[0], Select(rows[1..], a), b);
      }
    }
  }

  lemma {:induction false} SelectNone(rows: seq<Promotion>, cond: Promotion -> bool)
    requires forall p | p in rows :: !cond(p)
    ensures Select(rows, cond) == []
  {
    if rows != [] {
      assert rows[0] in rows;
      SelectNone(rows[1..], cond);
    }
  }

  /** The handled promotions are the due ones before the cut, and no row after it shares an id with them. */
  lemma {:induction false} HandledBeforeCut(rows: seq<Promotion>, c: Clock, n: nat)
    requires DistinctIds(rows)
    ensures var k := Cut(rows, AllDue(c), n);
            && Handled(rows, c, n) == Select(rows[..k], AllDue(c))
            && (forall p | p in rows[..k] :: p.id in Ids(Handled(rows, c, n)) <==> Due(p, c))
            && (forall p | p in rows[k..] :: p.id !in Ids(Handled(rows, c, n)))
  {
    var d := AllDue(c);
    var k, h := Cut(rows, d, n), Handled(rows, c, n);
    HandledAreFirstDue(rows, c, n);
    SliceIsCut(rows, d, n);
    SelectMembers(rows[..k], d);
    forall p | p in rows[..k]
      ensures p.id in Ids(h) <==> Due(p, c)
    {
      if p.id in Ids(h) {
        var q :| q in h && q.id == p.id;
        SameIdSameRow(rows, p, q);
      }
    }
    forall p | p in rows[k..]
      ensures p.id !in Ids(h)
    {
      var i :| 0 <= i < |rows[k..]| && rows[k..][i] == p;
      assert rows[k + i] == p;
      forall q | q in h
        ensures q.id != p.id
      {
        var j :| 0 <= j < k && rows[..k][j] == q;
        assert rows[j] == q;
      }
    }
  }

  lemma {:induction false} SameIdSameRow(rows: seq<Promotion>, p: Promotion, q: Promotion)
    requires DistinctIds(rows) && p in rows && q in rows && p.id == q.id
    ensures p == q
  {
    var i :| 0 <= i < |rows| && rows[i] == p;
    var j :| 0 <= j < |rows| && rows[j] == q;
    assert i == j;
  }

  lemma {:induction false} NoticesOf(rows: seq<Promotion>, c: Clock, n: nat, cond: Promotion -> bool)
    requires DistinctIds(rows) && forall p :: cond(p) ==> Due(p, c)
    ensures var h := Handled(rows, c, n); Select(Slice(Select(rows, cond), n), WithId(Ids(h))) == Select(h, cond)
  {
    var d, h := AllDue(c), Handled(rows, c, n);
    var k, kc := Cut(rows, d, n), Cut(rows, cond, n);
    HandledBeforeCut(rows, c, n);
    WeakerCutsSooner(rows, d, cond, n, n);
    SliceIsCut(rows, cond, n);
    NoticesAtCut(rows, k, kc, d, cond, Ids(h));
  }

  lemma {:induction false} NoticesAtCut(rows: seq<Promotion>, k: nat, kc: nat, d: Promotion -> bool, cond: Promotion -> bool, ids: set<nat>)
    requires k <= kc <= |rows|
    requires forall p | p in rows[..k] :: p.id in ids <==> d(p)
    requires forall p | p in rows[k..] :: p.id !in ids
    requires forall p | p in rows[..k] :: cond(p) ==> d(p)
    ensures Select(Select(rows[..kc], cond), WithId(ids)) == Select(Select(rows[..k], d), cond)
  {
    var front, back := rows[..k], rows[k..kc];
    assert rows[..kc] == front + back;
    forall p | p in back
      ensures p.id !in ids
    {
      InLonger(rows, k, kc, p);
    }
    NoticesInFront(front, back, d, cond, ids);
  }

  lemma {:induction false} InLonger(rows: seq<Promotion>, k: nat, kc: nat, p: Promotion)
    requires k <= kc <= |rows| && p in rows[k..kc]
    ensures p in rows[k..]
  {
    var i :| 0 <= i < kc - k && rows[k..kc][i] == p;
    assert rows[k..][i] == p;
  }

  lemma {:induction false} NoticesInFront(front: seq<Promotion>, back: seq<Promotion>, d: Promotion -> bool, cond: Promotion -> bool, ids: set<nat>)
    requires forall p | p in front :: p.id in ids <==> d(p)
    requires forall p | p in back :: p.id !in ids
    requires forall p | p in front :: cond(p) ==> d(p)
    ensures Select(Select(front + back, cond), WithId(ids)) == Select(Select(front, d), cond)
  {
    OnlyFront(front, back, cond, ids);
    SelectTwice(front, cond, WithId(ids), cond);
    SelectTwice(front, d, cond, cond);
  }

  lemma {:induction false} OnlyFront(front: seq<Promotion>, back: seq<Promotion>, cond: Promotion -> bool, ids: set<nat>)
    requires forall p | p in back :: p.id !in ids
    ensures Select(Select(front + back, cond), WithId(ids)) == Select(Select(front, cond), WithId(ids))
  {
    var w := WithId(ids);
    SelectConcat(front, back, cond);
    SelectConcat(Select(front, cond), Select(back, cond), w);
    SelectMembers(back, cond);
    SelectNone(Select(back, cond), w);
    var s := Select(Select(front, cond), w);
    assert s + [] == s;
  }

  /** Of the handled promotions, exactly the start-due ones get a start notice and exactly the end-due ones an end notice. */
  lemma {:induction false} NoticesExact(rows: seq<Promotion>, c: Clock, n: nat)
    requires DistinctIds(rows)
    ensures var h := Handled(rows, c, n);
            && Select(Slice(Select(rows, Starting(c)), n), WithId(Ids(h))) == Select(h, Starting(c))
            && Select(Slice(Select(rows, Ending(c)), n), WithId(Ids(h))) == Select(h, Ending(c))
  {
    NoticesOf(rows, c, n, Starting(c));
    NoticesOf(rows, c, n, Ending(c));
  }

  /**
   A start notice goes to those of the first hundred due whose start has come and that were not notified since, an end
   notice to those whose end has come and that were not notified since.
   */
  ghost predicate ToldExactly(rows: seq<Promotion>, c: Clock, started: seq<Promotion>, ended: seq<Promotion>) {
    && (forall p :: p in started <==>
          p in FirstHundredDue(rows, c) && p.start <= c.starting && (p.notified.None? || p.notified.value < p.start))
    && (forall p :: p in ended <==>
          p in FirstHundredDue(rows, c) && p.end.Some? && p.end.value <= c.ending && (p.notified.None? || p.notified.value < p.end.value))
  }

  lemma {:induction false} WhoIsTold(rows: seq<Promotion>, c: Clock)
    requires DistinctIds(rows)
    ensures var n, h := PROMOTION_TOGGLE_BATCH_SIZE, Handled(rows, c, PROMOTION_TOGGLE_BATCH_SIZE);
            ToldExactly(rows, c, Select(Slice(Select(rows, Starting(c)), n), WithId(Ids(h))), Select(Slice(Select(rows, Ending(c)), n), WithId(Ids(h))))
  {
    var h := FirstHundredDue(rows, c);
    HandledAreFirstHundred(rows, c);
    NoticesExact(rows, c, PROMOTION_TOGGLE_BATCH_SIZE);
    SelectMembers(h, Starting(c));
    SelectMembers(h, Ending(c));
  }

  /** Due is what has come without a notice since: a start, or an end. */
  lemma {:induction false} DueExactly(rows: seq<Promotion>, c: Clock)
    ensures forall p :: p in Select(rows, AllDue(c)) <==>
              p in rows && ((p.start <= c.starting && (p.notified.None? || p.notified.value < p.start))
                            || (p.end.Some? && p.end.value <= c.ending && (p.notified.None? || p.notified.value < p.end.value)))
  {
    SelectMembers(rows, AllDue(c));
  }

  // ---- how many remain

  lemma {:induction false} NotifiedConcat(a: seq<Promotion>, b: seq<Promotion>, ids: set<nat>, at: nat)
    ensures Notified(a + b, ids, at) == Notified(a, ids, at) + Notified(b, ids, at)
  {
    if a == [] {
      assert a + b == b;
    } else {
      NotifiedConcat(a[1..], b, ids, at);
      assert (a + b)[1..] == a[1..] + b;
      Regroup([if a[0].id in ids then a[0].(notified := Some(at)) else a[0]], Notified(a[1..], ids, at), Notified(b, ids, at));
    }
  }

  lemma {:induction false} NotifiedNone(rows: seq<Promotion>, ids: set<nat>, at: nat)
    requires forall p | p in rows :: p.id !in ids
    ensures Notified(rows, ids, at) == rows
  {
    if rows != [] {
      assert rows[0] in rows;
      NotifiedNone(rows[1..], ids, at);
    }
  }

  /** Once marked at the update time, a row is due no more for the clock readings of this task. */
  lemma {:induction false} MarkedNotDue(p: Promotion, c: Clock)
    requires c.starting <= c.update && c.ending <= c.update
    ensures !Due(p.(notified := Some(c.update)), c)
  {
  }

  lemma {:induction false} AllMarked(rows: seq<Promotion>, ids: set<nat>, c: Clock)
    requires c.starting <= c.update && c.ending <= c.update
    requires forall p | p in rows :: p.id in ids <==> Due(p, c)
    ensures Select(Notified(rows, ids, c.update), AllDue(c)) == []
  {
    if rows != [] {
      assert rows[0] in rows;
      MarkedNotDue(rows[0], c);
      AllMarked(rows[1..], ids, c);
      SelectStep(if rows[0].id in ids then rows[0].(notified := Some(c.update)) else rows[0], Notified(rows[1..], ids, c.update), AllDue(c));
    }
  }

  /** Each task handles min(batch, due) promotions, and just those are no longer due. */
  lemma {:induction false} DueDrops(rows: seq<Promotion>, c: Clock, n: nat)
    requires DistinctIds(rows) && c.starting <= c.update && c.ending <= c.update
    ensures var h, due := Handled(rows, c, n), Select(rows, AllDue(c));
            && |h| == (if |due| < n then |due| else n)
            && |Select(Notified(rows, Ids(h), c.update), AllDue(c))| == |due| - |h|
  {
    var d, h := AllDue(c), Handled(rows, c, n);
    HandledAreFirstDue(rows, c, n);
    HandledBeforeCut(rows, c, n);
    DropsAtCut(rows, Cut(rows, d, n), Ids(h), c);
  }

  lemma {:induction false} DropsAtCut(rows: seq<Promotion>, k: nat, ids: set<nat>, c: Clock)
    requires c.starting <= c.update && c.ending <= c.update && k <= |rows|
    requires (forall p | p in rows[..k] :: p.id in ids <==> Due(p, c)) && forall p | p in rows[k..] :: p.id !in ids
    ensures |Select(Notified(rows, ids, c.update), AllDue(c))| == |Select(rows, AllDue(c))| - |Select(rows[..k], AllDue(c))|
  {
    SelectConcat(rows[..k], rows[k..], AllDue(c));
    MarkedFrontBack(rows[..k], rows[k..], ids, c);
    assert rows == rows[..k] + rows[k..];
  }

  lemma {:induction false} MarkedFrontBack(front: seq<Promotion>, back: seq<Promotion>, ids: set<nat>, c: Clock)
    requires c.starting <= c.update && c.ending <= c.update
    requires (forall p | p in front :: p.id in ids <==> Due(p, c)) && forall p | p in back :: p.id !in ids
    ensures Select(Notified(front + back, ids, c.update), AllDue(c)) == Select(back, AllDue(c))
  {
    NotifiedConcat(front, back, ids, c.update);
    NotifiedNone(back, ids, c.update);
    AllMarked(front, ids, c);
    SelectConcat(Notified(front, ids, c.update), back, AllDue(c));
    assert [] + Select(back, AllDue(c)) == Select(back, AllDue(c));
  }

  // ---- whole runs

  datatype Kind = StartNotice | EndNotice

  function DateOf(p: Promotion, kind: Kind): Option<nat> {
    if kind.StartNotice? then Some(p.start) else p.end
  }

  function ReadingOf(c: Clock, kind: Kind): nat {
    if kind.StartNotice? then c.starting else c.ending
  }

  /** The date is set and no notification has been scheduled at or after it. */
  predicate Awaits(p: Promotion, kind: Kind) {
    DateOf(p, kind).Some? && Pending(p, DateOf(p, kind).value)
  }

  function Task(rows: seq<Promotion>, c: Clock): seq<Promotion> {
    Notified(rows, Ids(Handled(rows, c, PROMOTION_TOGGLE_BATCH_SIZE)), c.update)
  }

  function Run(rows: seq<Promotion>, clocks: seq<Clock>): seq<Promotion>
    decreases |clocks|
  {
    if clocks == [] then rows else Run(Task(rows, clocks[0]), clocks[1..])
  }

  predicate HandledAt(rows: seq<Promotion>, c: Clock, j: nat)
    requires j < |rows|
  {
    rows[j].id in Ids(Handled(rows, c, PROMOTION_TOGGLE_BATCH_SIZE))
  }

  /** The toggle sends the notice: the row is handled and due for it. */
  predicate Sends(rows: seq<Promotion>, c: Clock, j: nat, kind: Kind)
    requires j < |rows|
  {
    HandledAt(rows, c, j) && (if kind.StartNotice? then StartDue(rows[j], c.starting) else EndDue(rows[j], c.ending))
  }

  /** The toggle marks the row past a date that its query had not reached: between reading the clock and the update. */
  predicate Misses(rows: seq<Promotion>, c: Clock, j: nat, kind: Kind)
    requires j < |rows|
  {
    HandledAt(rows, c, j) && Awaits(rows[j], kind) && ReadingOf(c, kind) < DateOf(rows[j], kind).value <= c.update
  }

  ghost function SentOver(rows: seq<Promotion>, clocks: seq<Clock>, j: nat, kind: Kind): nat
    requires j < |rows|
    decreases |clocks|
  {
    if clocks == [] then 0
    else (if Sends(rows, clocks[0], j, kind) then 1 else 0) + SentOver(Task(rows, clocks[0]), clocks[1..], j, kind)
  }

  ghost function MissedOver(rows: seq<Promotion>, clocks: seq<Clock>, j: nat, kind: Kind): nat
    requires j < |rows|
    decreases |clocks|
  {
    if clocks == [] then 0
    else (if Misses(rows, clocks[0], j, kind) then 1 else 0) + MissedOver(Task(rows, clocks[0]), clocks[1..], j, kind)
  }

  /** Clock readings only grow, within a task and from task to task. */
  ghost predicate Monotone(clocks: seq<Clock>, from: nat)
    decreases |clocks|
  {
    clocks == [] ||
    (from <= clocks[0].starting <= clocks[0].ending <= clocks[0].update && Monotone(clocks[1..], clocks[0].update))
  }

  ghost predicate NotAfter(p: Promotion, time: nat) {
    p.notified.Some? ==> p.notified.value <= time
  }

  lemma {:induction false} NotifiedAt(rows: seq<Promotion>, ids: set<nat>, at: nat, j: nat)
    requires j < |rows|
    ensures Notified(rows, ids, at)[j] == if rows[j].id in ids then rows[j].(notified := Some(at)) else rows[j]
  {
    if j > 0 {
      NotifiedAt(rows[1..], ids, at, j - 1);
    }
  }

  lemma {:induction false} RunLength(rows: seq<Promotion>, clocks: seq<Clock>)
    ensures |Run(rows, clocks)| == |rows|
    decreases |clocks|
  {
    if clocks != [] {
      RunLength(Task(rows, clocks[0]), clocks[1..]);
    }
  }

  lemma {:induction false} NoLongerAwaits(rows: seq<Promotion>, clocks: seq<Clock>, j: nat, kind: Kind, from: nat)
    requires j < |rows| && Monotone(clocks, from) && NotAfter(rows[j], from) && !Awaits(rows[j], kind)
    ensures |Run(rows, clocks)| == |rows| && !Awaits(Run(rows, clocks)[j], kind)
    ensures SentOver(rows, clocks, j, kind) == 0 && MissedOver(rows, clocks, j, kind) == 0
    decreases |clocks|
  {
    RunLength(rows, clocks);
    if clocks != [] {
      NotifiedAt(rows, Ids(Handled(rows, clocks[0], PROMOTION_TOGGLE_BATCH_SIZE)), clocks[0].update, j);
      NoLongerAwaits(Task(rows, clocks[0]), clocks[1..], j, kind, clocks[0].update);
    }
  }

  /**
   Over every run with a growing clock: an awaited notice is either still awaited at the end, and then was neither
   sent nor missed, or it was sent exactly once and not missed, or missed and never sent.
   */
  lemma {:induction false} SentOrMissedOnce(rows: seq<Promotion>, clocks: seq<Clock>, j: nat, kind: Kind, from: nat)
    requires j < |rows| && Monotone(clocks, from) && Awaits(rows[j], kind)
    ensures |Run(rows, clocks)| == |rows|
    ensures SentOver(rows, clocks, j, kind) + MissedOver(rows, clocks, j, kind) == (if Awaits(Run(rows, clocks)[j], kind) then 0 else 1)
    decreases |clocks|
  {
    RunLength(rows, clocks);
    if clocks != [] {
      var c, next := clocks[0], Task(rows, clocks[0]);
      NotifiedAt(rows, Ids(Handled(rows, c, PROMOTION_TOGGLE_BATCH_SIZE)), c.update, j);
      if Awaits(next[j], kind) {
        SentOrMissedOnce(next, clocks[1..], j, kind, c.update);
      } else {
        NoLongerAwaits(next, clocks[1..], j, kind, c.update);
      }
    }
  }

  /** Each notice is sent at most once. */
  lemma {:induction false} SentAtMostOnce(rows: seq<Promotion>, clocks: seq<Clock>, j: nat, kind: Kind, from: nat)
    requires j < |rows| && Monotone(clocks, from)
    ensures SentOver(rows, clocks, j, kind) <= 1
    decreases |clocks|
  {
    if Awaits(rows[j], kind) {
      SentOrMissedOnce(rows, clocks, j, kind, from);
    } else if clocks != [] {
      SentAtMostOnce(Task(rows, clocks[0]), clocks[1..], j, kind, clocks[0].update);
    }
  }

  /** One started promotion that ends while the toggle is at work: its end notice is never sent. */
  lemma {:induction false} EndMissedWhileStarting()
    ensures var rows, c := [Promotion(1, 5, Some(12), None)], Clock(10, 11, 13);
            Sends(rows, c, 0, StartNotice) && Misses(rows, c, 0, EndNotice)
  {
    var p := Promotion(1, 5, Some(12), None);
    var rows, c := [p], Clock(10, 11, 13);
    assert rows == [p] + [];
    HandledAreFirstDue(rows, c, PROMOTION_TOGGLE_BATCH_SIZE);
    SelectStep(p, [], AllDue(c));
    assert p in Handled(rows, c, PROMOTION_TOGGLE_BATCH_SIZE);
  }
}
