/**
 saleor/attribute/utils.py: assigning attribute values to a product, page or variant, over the tables of the database.
 */
module AttributeAssignment {
  import opened Wrappers
  import opened AttributeLists
  import opened AttributeOwnership

  /** A row still to be created; without an owner the database refuses it. */
  datatype NewRow = NewRow(owner: Option<nat>, value: nat)

  datatype VariantLink = VariantLink(variant: nat, link: nat)

  // ---- the dictionary of orders

  /** Reading a defaultdict of lists. */
  function Get(order: map<nat, seq<nat>>, k: nat): seq<nat> {
    if k in order then order[k] else []
  }

  function OrderKey(assignmentOf: map<nat, nat>, attribute: nat): nat {
    if attribute in assignmentOf then assignmentOf[attribute] else attribute
  }

  ghost predicate DistinctKeys(lists: seq<Listing>, assignmentOf: map<nat, nat>) {
    forall i, j | 0 <= i < j < |lists| && lists[i].values != [] && lists[j].values != [] ::
      OrderKey(assignmentOf, lists[i].attribute) != OrderKey(assignmentOf, lists[j].attribute)
  }

  /** Each list that is not empty is found under the key of its attribute. */
  ghost predicate Ordered(lists: seq<Listing>, assignmentOf: map<nat, nat>, order: map<nat, seq<nat>>) {
    forall i | 0 <= i < |lists| && lists[i].values != [] :: Get(order, OrderKey(assignmentOf, lists[i].attribute)) == lists[i].values
  }

  /** All values appended under a key, in order. */
  ghost function Under(lists: seq<Listing>, assignmentOf: map<nat, nat>, k: nat): seq<nat> {
    if lists == [] then []
    else
      var n := |lists| - 1;
      Under(lists[..n], assignmentOf, k) + if OrderKey(assignmentOf, lists[n].attribute) == k then lists[n].values else []
  }

  lemma {:induction false} UnderSnoc(front: seq<Listing>, l: Listing, assignmentOf: map<nat, nat>, k: nat)
    ensures Under(front + [l], assignmentOf, k) ==
            Under(front, assignmentOf, k) + if OrderKey(assignmentOf, l.attribute) == k then l.values else []
  {
    assert (front + [l])[..|front|] == front;
  }

  lemma {:induction false} UnderNone(lists: seq<Listing>, assignmentOf: map<nat, nat>, k: nat)
    requires forall i | 0 <= i < |lists| && lists[i].values != [] :: OrderKey(assignmentOf, lists[i].attribute) != k
    ensures Under(lists, assignmentOf, k) == []
  {
    if lists != [] {
      UnderNone(lists[..|lists| - 1], assignmentOf, k);
    }
  }

  lemma {:induction false} UnderAt(lists: seq<Listing>, assignmentOf: map<nat, nat>, i: nat)
    requires DistinctKeys(lists, assignmentOf) && i < |lists| && lists[i].values != []
    ensures Under(lists, assignmentOf, OrderKey(assignmentOf, lists[i].attribute)) == lists[i].values
  {
    var n, k := |lists| - 1, OrderKey(assignmentOf, lists[i].attribute);
    if i < n {
      UnderAt(lists[..n], assignmentOf, i);
      assert lists[i].values + [] == lists[i].values;
    } else {
      UnderNone(lists[..n], assignmentOf, k);
      assert [] + lists[i].values == lists[i].values;
    }
  }

  // ---- the rows to create

  function OwnerOf(assignmentOf: map<nat, nat>, owner: Option<nat>, attribute: nat): Option<nat> {
    if attribute in assignmentOf then Some(assignmentOf[attribute]) else owner
  }

  function NewRows(lists: seq<Listing>, assignmentOf: map<nat, nat>, owner: Option<nat>, newIds: set<nat>): set<NewRow> {
    set l, v | l in lists && v in l.values && v in newIds :: NewRow(OwnerOf(assignmentOf, owner, l.attribute), v)
  }

  lemma {:induction false} NewRowsSnoc(front: seq<Listing>, a: nat, vs: seq<nat>, v: nat, assignmentOf: map<nat, nat>, owner: Option<nat>, newIds: set<nat>)
    ensures NewRows(front + [Listing(a, vs + [v])], assignmentOf, owner, newIds) ==
            NewRows(front + [Listing(a, vs)], assignmentOf, owner, newIds) +
            if v in newIds then {NewRow(OwnerOf(assignmentOf, owner, a), v)} else {}
  {
    var old_, new_ := Listing(a, vs), Listing(a, vs + [v]);
    var before, after := front + [old_], front + [new_];
    assert forall l :: l in after <==> l in front || l == new_;
    assert forall l :: l in before <==> l in front || l == old_;
    assert forall x :: x in vs + [v] <==> x in vs || x == v;
  }

  lemma {:induction false} NewRowsOpen(front: seq<Listing>, a: nat, assignmentOf: map<nat, nat>, owner: Option<nat>, newIds: set<nat>)
    ensures NewRows(front + [Listing(a, [])], assignmentOf, owner, newIds) == NewRows(front, assignmentOf, owner, newIds)
  {
    assert forall l :: l in front + [Listing(a, [])] <==> l in front || l == Listing(a, []);
  }

  /** The dictionary and the list of rows built so far. */
  ghost predicate Collected(done: seq<Listing>, assignmentOf: map<nat, nat>, owner: Option<nat>, newIds: set<nat>, rows: seq<NewRow>, order: map<nat, seq<nat>>) {
    && (forall r :: r in rows <==> r in NewRows(done, assignmentOf, owner, newIds))
    && (forall k :: Get(order, k) == Under(done, assignmentOf, k))
  }

  lemma {:induction false} CollectOpen(front: seq<Listing>, a: nat, assignmentOf: map<nat, nat>, owner: Option<nat>, newIds: set<nat>, rows: seq<NewRow>, order: map<nat, seq<nat>>)
    requires Collected(front, assignmentOf, owner, newIds, rows, order)
    ensures Collected(front + [Listing(a, [])], assignmentOf, owner, newIds, rows, order)
  {
    NewRowsOpen(front, a, assignmentOf, owner, newIds);
    forall k
      ensures Under(front + [Listing(a, [])], assignmentOf, k) == Under(front, assignmentOf, k)
    {
      UnderSnoc(front, Listing(a, []), assignmentOf, k);
    }
  }

  lemma {:induction false} CollectNext(front: seq<Listing>, a: nat, vs: seq<nat>, v: nat, assignmentOf: map<nat, nat>, owner: Option<nat>, newIds: set<nat>,
                                       rows: seq<NewRow>, order: map<nat, seq<nat>>, rows': seq<NewRow>, order': map<nat, seq<nat>>)
    requires Collected(front + [Listing(a, vs)], assignmentOf, owner, newIds, rows, order)
    requires rows' == if v in newIds then rows + [NewRow(OwnerOf(assignmentOf, owner, a), v)] else rows
    requires order' == order[OrderKey(assignmentOf, a) := Get(order, OrderKey(assignmentOf, a)) + [v]]
    ensures Collected(front + [Listing(a, vs + [v])], assignmentOf, owner, newIds, rows', order')
  {
    NewRowsSnoc(front, a, vs, v, assignmentOf, owner, newIds);
    forall k
      ensures Get(order', k) == Under(front + [Listing(a, vs + [v])], assignmentOf, k)
    {
      UnderSnoc(front, Listing(a, vs), assignmentOf, k);
      UnderSnoc(front, Listing(a, vs + [v]), assignmentOf, k);
    }
  }

  lemma {:induction false} CollectedOrdered(lists: seq<Listing>, assignmentOf: map<nat, nat>, owner: Option<nat>, newIds: set<nat>, rows: seq<NewRow>, order: map<nat, seq<nat>>)
    requires DistinctKeys(lists, assignmentOf) && Collected(lists, assignmentOf, owner, newIds, rows, order)
    ensures Ordered(lists, assignmentOf, order)
  {
    forall i | 0 <= i < |lists| && lists[i].values != []
      ensures Get(order, OrderKey(assignmentOf, lists[i].attribute)) == lists[i].values
    {
      UnderAt(lists, assignmentOf, i);
    }
  }

  /** The loop over the values of one attribute. */
  method CollectListing(ghost front: seq<Listing>, l: Listing, assignmentOf: map<nat, nat>, owner: Option<nat>, newIds: set<nat>,
                        rows0: seq<NewRow>, order0: map<nat, seq<nat>>)
    returns (rows: seq<NewRow>, order: map<nat, seq<nat>>)
    requires assignmentOf == map[] || forall v | v in l.values :: v in newIds
    requires Collected(front, assignmentOf, owner, newIds, rows0, order0)
    ensures Collected(front + [l], assignmentOf, owner, newIds, rows, order)
  {
    rows, order := rows0, order0;
    var a, values := l.attribute, l.values;
    CollectOpen(front, a, assignmentOf, owner, newIds, rows, order);
    assert values[..0] == [];
    for j := 0 to |values|
      invariant Collected(front + [Listing(a, values[..j])], assignmentOf, owner, newIds, rows, order)
    {
      var v := values[j];
      ghost var rows1, order1 := rows, order;
      assert values[..j + 1] == values[..j] + [v];
      if v !in newIds {
        order := order[a := Get(order, a) + [v]];
      } else {
        rows := rows + [NewRow(if a in assignmentOf then Some(assignmentOf[a]) else owner, v)];
        if a in assignmentOf {
          order := order[assignmentOf[a] := Get(order, assignmentOf[a]) + [v]];
        } else {
          order := order[a := Get(order, a) + [v]];
        }
      }
      CollectNext(front, a, values[..j], v, assignmentOf, owner, newIds, rows1, order1, rows, order);
    }
    assert values[..|values|] == values && Listing(a, values) == l;
  }

  /** The loop over the dictionary. */
  method CollectRows(lists: seq<Listing>, assignmentOf: map<nat, nat>, owner: Option<nat>, newIds: set<nat>)
    returns (rows: seq<NewRow>, order: map<nat, seq<nat>>)
    requires assignmentOf == map[] || ValueIds(lists) <= newIds
    ensures Collected(lists, assignmentOf, owner, newIds, rows, order)
  {
    rows, order := [], map[];
    for i := 0 to |lists|
      invariant Collected(lists[..i], assignmentOf, owner, newIds, rows, order)
    {
      assert lists[i] in lists;
      rows, order := CollectListing(lists[..i], lists[i], assignmentOf, owner, newIds, rows, order);
      assert lists[..i + 1] == lists[..i] + [lists[i]];
    }
    assert lists[..|lists|] == lists;
  }

  /** Creating rows with ignore_conflicts: existing rows stay as they are, new ones have no position yet. */
  function Created(table: Table, rows: seq<NewRow>): Table {
    map k | k in table.Keys + (set r | r in rows && r.owner.Some? :: Key(r.owner.value, r.value)) ::
      if k in table then table[k] else None
  }

  /** From each listed value to its attribute; a later entry replaces an earlier one. */
  function ToAttribute(lists: seq<Listing>): map<nat, nat> {
    if lists == [] then map[]
    else
      var l := lists[|lists| - 1];
      ToAttribute(lists[..|lists| - 1]) + map v | v in l.values :: l.attribute
  }

  lemma {:induction false} ToAttributeIsOwn(values: map<nat, Value>, lists: seq<Listing>, v: nat)
    requires Owned(values, lists) && v in ValueIds(lists)
    ensures v in values && v in ToAttribute(lists) && ToAttribute(lists)[v] == values[v].attribute
  {
    var front, l := lists[..|lists| - 1], lists[|lists| - 1];
    if v !in l.values {
      var m :| m in lists && v in m.values;
      assert m in front;
      ToAttributeIsOwn(values, front, v);
    }
  }

  /** Between the two passes: the right rows are there, positions of the listed ones may be missing or stale. */
  ghost predicate Overwritten(values: map<nat, Value>, before: Table, after: Table, owner: nat, lists: seq<Listing>) {
    forall k ::
      if InScope(values, Attributes(lists), owner, k) then k in after <==> k.value in ListFor(lists, values[k.value].attribute)
      else (k in after <==> k in before) && (k in after ==> after[k] == before[k])
  }

  lemma {:induction false} CreatedOverwrites(values: map<nat, Value>, before: Table, kept: Table, owner: nat, lists: seq<Listing>, newIds: set<nat>, rows: seq<NewRow>)
    requires DistinctAttributes(lists) && Owned(values, lists)
    requires kept == map k | k in before && (InScope(values, Attributes(lists), owner, k) ==> k.value in ValueIds(lists)) :: before[k]
    requires newIds == ValueIds(lists) - (set k | k in kept && InScope(values, Attributes(lists), owner, k) :: k.value)
    requires forall r :: r in rows <==> r in NewRows(lists, map[], Some(owner), newIds)
    ensures Overwritten(values, before, Created(kept, rows), owner, lists)
  {
    var after := Created(kept, rows);
    forall k: Key
      ensures if InScope(values, Attributes(lists), owner, k) then k in after <==> k.value in ListFor(lists, values[k.value].attribute)
              else (k in after <==> k in before) && (k in after ==> after[k] == before[k])
    {
      NewKeyIn(lists, owner, newIds, rows, k);
      if k.value in values {
        ListedUnderOwn(values, lists, k.value);
      } else {
        ListedExist(values, lists);
      }
    }
  }

  lemma {:induction false} NewKeyIn(lists: seq<Listing>, owner: nat, newIds: set<nat>, rows: seq<NewRow>, k: Key)
    requires forall r :: r in rows <==> r in NewRows(lists, map[], Some(owner), newIds)
    ensures k in (set r | r in rows && r.owner.Some? :: Key(r.owner.value, r.value)) <==>
            k.owner == owner && k.value in newIds && k.value in ValueIds(lists)
  {
    if k.owner == owner && k.value in newIds && k.value in ValueIds(lists) {
      var l :| l in lists && k.value in l.values;
      assert NewRow(Some(owner), k.value) in rows;
    }
  }

  /** The value is in the list, and its position is the given one. */
  ghost predicate Position(list: seq<nat>, v: nat, position: Option<nat>) {
    v in list && position == Some(IndexIn(list, v))
  }

  /** The loop over the rows: each gets the index of its value in the list that is kept under the key of the row. */
  method FillPositions(table0: Table, rows: set<Key>, keyOf: map<Key, nat>, order: map<nat, seq<nat>>, ghost target: Table)
    returns (table: Table)
    requires Filled(table0, target, rows)
    requires forall k | k in rows :: k in keyOf && k in target && Position(Get(order, keyOf[k]), k.value, target[k])
    ensures table == target
  {
    table := table0;
    var todo := rows;
    while todo != {}
      invariant todo <= rows && Filled(table, target, todo)
      decreases |todo|
    {
      var k :| k in todo;
      var position := Some(IndexIn(Get(order, keyOf[k]), k.value));
      FillOne(table, target, todo, k, position);
      table := table[k := position];
      todo := todo - {k};
    }
    FilledAll(table, target);
  }

  /** All but the given rows are as in the target. */
  ghost predicate Filled(table: Table, target: Table, todo: set<Key>) {
    table.Keys == target.Keys && forall k | k in table && k !in todo :: table[k] == target[k]
  }

  lemma {:induction false} FillOne(table: Table, target: Table, todo: set<Key>, k: Key, position: Option<nat>)
    requires Filled(table, target, todo) && k in target && position == target[k]
    ensures Filled(table[k := position], target, todo - {k})
  {
  }

  lemma {:induction false} FilledAll(table: Table, target: Table)
    requires Filled(table, target, {})
    ensures table == target
  {
  }

  class AttributeTables {
    const values: map<nat, Value>
    var valueRows: Table

    /** Rows of the listed attributes that are not listed go, the missing ones come. */
    method OverwriteValues(owner: nat, lists: seq<Listing>) returns (order: map<nat, seq<nat>>)
      requires DistinctAttributes(lists) && Owned(values, lists)
      modifies this`valueRows
      ensures Overwritten(values, old(valueRows), valueRows, owner, lists)
      ensures Ordered(lists, map[], order)
    {
      var ids, attributes := ValueIds(lists), Attributes(lists);
      valueRows := map k | k in valueRows && (InScope(values, attributes, owner, k) ==> k.value in ids) :: valueRows[k];
      var newIds := ids - (set k | k in valueRows && InScope(values, attributes, owner, k) :: k.value);
      var rows: seq<NewRow>;
      rows, order := CollectRows(lists, map[], Some(owner), newIds);
      CreatedOverwrites(values, old(valueRows), valueRows, owner, lists, newIds, rows);
      valueRows := Created(valueRows, rows);
      CollectedOrdered(lists, map[], Some(owner), newIds, rows, order);
    }

    /** Every row of the listed attributes gets its position; neither look-up can fail. */
    method OrderAssigned(owner: nat, lists: seq<Listing>, order: map<nat, seq<nat>>, ghost before: Table)
      requires DistinctAttributes(lists) && Owned(values, lists)
      requires Overwritten(values, before, valueRows, owner, lists)
      requires Ordered(lists, map[], order)
      modifies this`valueRows
      ensures valueRows == Reassigned(values, before, owner, lists)
    {
      var attributeOf, attributes := ToAttribute(lists), Attributes(lists);
      ghost var target := Reassigned(values, before, owner, lists);
      SameRows(owner, lists, before);
      var todo := set k | k in valueRows && InScope(values, attributes, owner, k);
      forall k | k in todo
        ensures k.value in attributeOf && Position(Get(order, attributeOf[k.value]), k.value, target[k])
      {
        LookUps(values, lists, order, owner, before, k);
      }
      valueRows := FillPositions(valueRows, todo, map k | k in todo :: attributeOf[k.value], order, target);
    }

    lemma {:induction false} SameRows(owner: nat, lists: seq<Listing>, before: Table)
      requires DistinctAttributes(lists) && Owned(values, lists)
      requires Overwritten(values, before, valueRows, owner, lists)
      ensures valueRows.Keys == Reassigned(values, before, owner, lists).Keys
      ensures forall k | k in valueRows && !InScope(values, Attributes(lists), owner, k) :: valueRows[k] == Reassigned(values, before, owner, lists)[k]
    {
      forall k: Key
        ensures k in valueRows <==> k in Reassigned(values, before, owner, lists)
        ensures k in valueRows && !InScope(values, Attributes(lists), owner, k) ==> valueRows[k] == Reassigned(values, before, owner, lists)[k]
      {
        ReassignedAt(values, before, owner, lists, k);
      }
    }

    /** Assigning values to a product or a page: nothing happens if some value is not found. */
    method AssociateAttributeValues(owner: nat, wanted: seq<Wanted>) returns (r: Option<seq<Listing>>)
      requires DistinctWanted(wanted)
      modifies this`valueRows
      ensures r.Some? <==> forall i | 0 <= i < |wanted| :: AllExist(values, wanted[i])
      ensures r.None? ==> valueRows == old(valueRows)
      ensures r.Some? ==> Resolved(values, wanted, r.value) && valueRows == Reassigned(values, old(valueRows), owner, r.value)
    {
      r := ValidateAttributeOwnsValues(values, wanted);
      if r.Some? {
        ResolvedOwned(values, wanted, r.value);
        Associate(owner, r.value);
      }
    }

    method Associate(owner: nat, lists: seq<Listing>)
      requires DistinctAttributes(lists) && Owned(values, lists)
      modifies this`valueRows
      ensures valueRows == Reassigned(values, old(valueRows), owner, lists)
    {
      ghost var before := valueRows;
      var order := OverwriteValues(owner, lists);
      OrderAssigned(owner, lists, order, before);
    }
  }

  lemma {:induction false} LookUps(values: map<nat, Value>, lists: seq<Listing>, order: map<nat, seq<nat>>, owner: nat, before: Table, k: Key)
    requires DistinctAttributes(lists) && Owned(values, lists)
    requires Ordered(lists, map[], order)
    requires InScope(values, Attributes(lists), owner, k) && k in Reassigned(values, before, owner, lists)
    ensures k.value in ToAttribute(lists)
    ensures Position(Get(order, ToAttribute(lists)[k.value]), k.value, Reassigned(values, before, owner, lists)[k])
  {
    var a := values[k.value].attribute;
    ReassignedAt(values, before, owner, lists, k);
    ListForFrom(lists, a, k.value);
    ToAttributeIsOwn(values, lists, k.value);
    var l :| l in lists && l.attribute == a && k.value in l.values;
    var i :| 0 <= i < |lists| && lists[i] == l;
    ListForAt(lists, i);
  }

  // ---- variants

  /** Every listed attribute that has values has an assignment. */
  predicate Covered(assignmentOf: map<nat, nat>, lists: seq<Listing>) {
    forall l | l in lists :: l.values != [] ==> l.attribute in assignmentOf
  }

  lemma {:induction false} SameCover(links: map<nat, nat>, assignmentOf: map<nat, nat>, lists: seq<Listing>)
    requires assignmentOf.Keys == links.Keys * Attributes(lists)
    ensures Covered(links, lists) <==> Covered(assignmentOf, lists)
  {
  }

  lemma {:induction false} CoveredRows(assignmentOf: map<nat, nat>, lists: seq<Listing>, rows: seq<NewRow>)
    requires forall r :: r in rows <==> r in NewRows(lists, assignmentOf, None, ValueIds(lists))
    ensures (forall r | r in rows :: r.owner.Some?) <==> Covered(assignmentOf, lists)
  {
    if !Covered(assignmentOf, lists) {
      var l :| l in lists && l.values != [] && l.attribute !in assignmentOf;
      var v := l.values[0];
      assert v in l.values && v in ValueIds(lists);
      assert NewRow(None, v) in rows;
    }
  }

  lemma {:induction false} VariantNewKey(values: map<nat, Value>, assignmentOf: map<nat, nat>, lists: seq<Listing>, rows: seq<NewRow>, k: Key)
    requires Owned(values, lists) && Covered(assignmentOf, lists)
    requires forall r :: r in rows <==> r in NewRows(lists, assignmentOf, None, ValueIds(lists))
    ensures k in (set r | r in rows && r.owner.Some? :: Key(r.owner.value, r.value)) <==>
            UnderOwn(values, assignmentOf, k) && k.value in ValueIds(lists)
  {
    if UnderOwn(values, assignmentOf, k) && k.value in ValueIds(lists) {
      var l :| l in lists && k.value in l.values;
      assert NewRow(Some(k.owner), k.value) in rows;
    }
    if r: NewRow :| r in rows && r.owner.Some? && Key(r.owner.value, r.value) == k {
      var l :| l in lists && r.value in l.values && r == NewRow(OwnerOf(assignmentOf, None, l.attribute), r.value);
      assert l.attribute in assignmentOf;
    }
  }

  /** Between the two passes, for a variant. */
  ghost predicate VariantOverwritten(values: map<nat, Value>, before: Table, after: Table, assignmentOf: map<nat, nat>, lists: seq<Listing>) {
    forall k: Key ::
      if k.owner in assignmentOf.Values then
        k in after <==> UnderOwn(values, assignmentOf, k) && k.value in ListFor(lists, values[k.value].attribute)
      else
        (k in after <==> k in before) && (k in after ==> after[k] == before[k])
  }

  lemma {:induction false} VariantCreatedOverwrites(values: map<nat, Value>, before: Table, kept: Table, assignmentOf: map<nat, nat>, lists: seq<Listing>, rows: seq<NewRow>)
    requires DistinctAttributes(lists) && Owned(values, lists) && Covered(assignmentOf, lists)
    requires OwnValues(values, before, assignmentOf)
    requires kept == map k | k in before && (k.owner in assignmentOf.Values ==> k.value in ValueIds(lists)) :: before[k]
    requires forall r :: r in rows <==> r in NewRows(lists, assignmentOf, None, ValueIds(lists))
    ensures VariantOverwritten(values, before, Created(kept, rows), assignmentOf, lists)
  {
    var after := Created(kept, rows);
    forall k: Key
      ensures if k.owner in assignmentOf.Values then
                k in after <==> UnderOwn(values, assignmentOf, k) && k.value in ListFor(lists, values[k.value].attribute)
              else
                (k in after <==> k in before) && (k in after ==> after[k] == before[k])
    {
      VariantNewKey(values, assignmentOf, lists, rows, k);
      if k.owner in assignmentOf.Values && k.value in values {
        ListedUnderOwn(values, lists, k.value);
      }
    }
  }

  lemma {:induction false} VariantKeys(lists: seq<Listing>, assignmentOf: map<nat, nat>)
    requires DistinctAttributes(lists) && Injective(assignmentOf) && Covered(assignmentOf, lists)
    ensures DistinctKeys(lists, assignmentOf)
  {
    forall i, j | 0 <= i < j < |lists| && lists[i].values != [] && lists[j].values != []
      ensures OrderKey(assignmentOf, lists[i].attribute) != OrderKey(assignmentOf, lists[j].attribute)
    {
      assert lists[i] in lists && lists[j] in lists;
    }
  }

  lemma {:induction false} VariantLookUp(values: map<nat, Value>, lists: seq<Listing>, order: map<nat, seq<nat>>, assignmentOf: map<nat, nat>, before: Table, k: Key)
    requires DistinctAttributes(lists) && Owned(values, lists) && Covered(assignmentOf, lists) && Ordered(lists, assignmentOf, order)
    requires k.owner in assignmentOf.Values && k in VariantReassigned(values, before, assignmentOf, lists)
    ensures Position(Get(order, k.owner), k.value, VariantReassigned(values, before, assignmentOf, lists)[k])
    ensures k.value in ValueIds(lists)
  {
    var a := values[k.value].attribute;
    VariantReassignedAt(values, before, assignmentOf, lists, k);
    ListForFrom(lists, a, k.value);
    var l :| l in lists && l.attribute == a && k.value in l.values;
    var i :| 0 <= i < |lists| && lists[i] == l;
    ListForAt(lists, i);
  }

  lemma {:induction false} VariantSameRows(values: map<nat, Value>, before: Table, table: Table, assignmentOf: map<nat, nat>, lists: seq<Listing>)
    requires DistinctAttributes(lists) && Owned(values, lists)
    requires VariantOverwritten(values, before, table, assignmentOf, lists)
    ensures table.Keys == VariantReassigned(values, before, assignmentOf, lists).Keys
    ensures forall k | k in table && k.owner !in assignmentOf.Values :: table[k] == VariantReassigned(values, before, assignmentOf, lists)[k]
  {
    forall k: Key
      ensures k in table <==> k in VariantReassigned(values, before, assignmentOf, lists)
      ensures k in table && k.owner !in assignmentOf.Values ==> table[k] == VariantReassigned(values, before, assignmentOf, lists)[k]
    {
      VariantReassignedAt(values, before, assignmentOf, lists, k);
    }
  }

  class VariantTables {
    const values: map<nat, Value>
    /** The attribute of each link between an attribute and a product type. */
    const attributeOfLink: map<nat, nat>
    /** The assignment of each variant and link; the two are unique together. */
    var assignments: map<VariantLink, nat>
    var nextAssignment: nat
    var valueRows: Table

    /** Assignments are told apart by their ids, and every row is under an assignment for the attribute of its value. */
    ghost predicate Valid()
      reads this
    {
      ValidWith(valueRows)
    }

    ghost predicate ValidWith(rows: Table)
      reads this`assignments, this`nextAssignment
    {
      && (forall x | x in assignments :: assignments[x] < nextAssignment && x.link in attributeOfLink)
      && (forall x, y | x in assignments && y in assignments && assignments[x] == assignments[y] :: x == y)
      && (forall k | k in rows :: k.owner < nextAssignment)
      && (forall k, x | k in rows && x in assignments && assignments[x] == k.owner ::
            k.value in values && values[k.value].attribute == attributeOfLink[x.link])
    }

    /** Links of one product type by attribute. */
    ghost predicate LinksOf(links: map<nat, nat>) {
      forall a | a in links :: links[a] in attributeOfLink && attributeOfLink[links[a]] == a
    }

    /** An assignment for every given link; those that exist are used again. */
    method GetOrCreateAssignments(variant: nat, linkIds: set<nat>)
      requires Valid() && linkIds <= attributeOfLink.Keys
      modifies this`assignments, this`nextAssignment
      ensures Valid() && nextAssignment >= old(nextAssignment)
      ensures assignments.Keys == old(assignments).Keys + set l | l in linkIds :: VariantLink(variant, l)
      ensures forall x | x in old(assignments) :: assignments[x] == old(assignments)[x]
    {
      var todo := linkIds;
      while todo != {}
        invariant todo <= linkIds && Valid() && nextAssignment >= old(nextAssignment)
        invariant assignments.Keys == old(assignments).Keys + set l | l in linkIds - todo :: VariantLink(variant, l)
        invariant forall x | x in old(assignments) :: assignments[x] == old(assignments)[x]
        decreases |todo|
      {
        var l :| l in todo;
        AddIfMissing(VariantLink(variant, l));
        todo := todo - {l};
      }
    }

    method AddIfMissing(x: VariantLink)
      requires Valid() && x.link in attributeOfLink
      modifies this`assignments, this`nextAssignment
      ensures Valid() && nextAssignment >= old(nextAssignment)
      ensures assignments.Keys == old(assignments).Keys + {x}
      ensures forall y | y in old(assignments) :: assignments[y] == old(assignments)[y]
    {
      if x !in assignments {
        assignments := assignments[x := nextAssignment];
        nextAssignment := nextAssignment + 1;
      }
    }

    /** The assignments of the listed attributes that are linked to the product type. */
    method FindAssignments(variant: nat, links: map<nat, nat>, attributes: set<nat>) returns (assignmentOf: map<nat, nat>)
      requires Valid() && LinksOf(links)
      modifies this`assignments, this`nextAssignment
      ensures Valid() && assignmentOf.Keys == links.Keys * attributes && AssignmentsOf(variant, links, assignmentOf)
      ensures assignments.Keys == old(assignments).Keys + set a | a in assignmentOf :: VariantLink(variant, links[a])
      ensures forall x | x in old(assignments) :: assignments[x] == old(assignments)[x]
    {
      var linkIds := set a | a in links && a in attributes :: links[a];
      GetOrCreateAssignments(variant, linkIds);
      assert forall a | a in links && a in attributes :: links[a] in linkIds;
      assignmentOf := map a | a in links && a in attributes :: assignments[VariantLink(variant, links[a])];
    }

    /** Assigning values to a variant: it fails just when an attribute with values is not linked to the product type. */
    method Associate(variant: nat, links: map<nat, nat>, lists: seq<Listing>) returns (raised: bool, assignmentOf: map<nat, nat>)
      requires Valid() && LinksOf(links) && DistinctAttributes(lists) && Owned(values, lists)
      modifies this
      ensures raised <==> !Covered(links, lists)
      ensures assignmentOf.Keys == links.Keys * Attributes(lists) && AssignmentsOf(variant, links, assignmentOf)
      ensures assignments.Keys == old(assignments).Keys + set a | a in assignmentOf :: VariantLink(variant, links[a])
      ensures forall x | x in old(assignments) :: assignments[x] == old(assignments)[x]
      ensures !raised ==> Valid() && valueRows == VariantReassigned(values, old(valueRows), assignmentOf, lists)
    {
      assignmentOf := FindAssignments(variant, links, Attributes(lists));
      ghost var before := valueRows;
      FromLinks(variant, links, assignmentOf);
      SameCover(links, assignmentOf, lists);
      var order;
      raised, order := OverwriteValues(assignmentOf, lists);
      if !raised {
        OrderAssigned(assignmentOf, lists, order, before);
        StaysValid(variant, links, assignmentOf, lists, before);
      }
    }

    /** Assignments of one variant, by attribute. */
    ghost predicate AssignmentsOf(variant: nat, links: map<nat, nat>, assignmentOf: map<nat, nat>)
      reads this`assignments
    {
      forall a | a in assignmentOf ::
        a in links && VariantLink(variant, links[a]) in assignments && assignmentOf[a] == assignments[VariantLink(variant, links[a])]
    }

    lemma {:induction false} FromLinks(variant: nat, links: map<nat, nat>, assignmentOf: map<nat, nat>)
      requires Valid() && LinksOf(links) && AssignmentsOf(variant, links, assignmentOf)
      ensures OwnValues(values, valueRows, assignmentOf) && Injective(assignmentOf)
    {
    }

    lemma {:induction false} StaysValid(variant: nat, links: map<nat, nat>, assignmentOf: map<nat, nat>, lists: seq<Listing>, before: Table)
      requires ValidWith(before) && LinksOf(links) && AssignmentsOf(variant, links, assignmentOf)
      requires DistinctAttributes(lists) && Owned(values, lists)
      requires valueRows == VariantReassigned(values, before, assignmentOf, lists)
      ensures Valid()
    {
      forall k | k in valueRows
        ensures k.owner < nextAssignment
        ensures forall x | x in assignments && assignments[x] == k.owner :: k.value in values && values[k.value].attribute == attributeOfLink[x.link]
      {
        VariantReassignedAt(values, before, assignmentOf, lists, k);
      }
    }

    method OverwriteValues(assignmentOf: map<nat, nat>, lists: seq<Listing>) returns (raised: bool, order: map<nat, seq<nat>>)
      requires DistinctAttributes(lists) && Owned(values, lists) && Injective(assignmentOf) && OwnValues(values, valueRows, assignmentOf)
      modifies this`valueRows
      ensures raised <==> !Covered(assignmentOf, lists)
      ensures !raised ==> VariantOverwritten(values, old(valueRows), valueRows, assignmentOf, lists) && Ordered(lists, assignmentOf, order)
    {
      var ids := ValueIds(lists);
      valueRows := map k | k in valueRows && (k.owner in assignmentOf.Values ==> k.value in ids) :: valueRows[k];
      var rows: seq<NewRow>;
      rows, order := CollectRows(lists, assignmentOf, None, ids);
      raised := exists r :: r in rows && r.owner.None?;
      CoveredRows(assignmentOf, lists, rows);
      if !raised {
        VariantCreatedOverwrites(values, old(valueRows), valueRows, assignmentOf, lists, rows);
        valueRows := Created(valueRows, rows);
        VariantKeys(lists, assignmentOf);
        CollectedOrdered(lists, assignmentOf, None, ids, rows, order);
      }
    }

    method OrderAssigned(assignmentOf: map<nat, nat>, lists: seq<Listing>, order: map<nat, seq<nat>>, ghost before: Table)
      requires DistinctAttributes(lists) && Owned(values, lists) && Covered(assignmentOf, lists)
      requires VariantOverwritten(values, before, valueRows, assignmentOf, lists) && Ordered(lists, assignmentOf, order)
      modifies this`valueRows
      ensures valueRows == VariantReassigned(values, before, assignmentOf, lists)
    {
      ghost var target := VariantReassigned(values, before, assignmentOf, lists);
      VariantSameRows(values, before, valueRows, assignmentOf, lists);
      var todo := set k | k in valueRows && k.owner in assignmentOf.Values && k.value in ValueIds(lists);
      forall k | k in valueRows && k.owner in assignmentOf.Values
        ensures Position(Get(order, k.owner), k.value, target[k]) && k in todo
      {
        VariantLookUp(values, lists, order, assignmentOf, before, k);
      }
      valueRows := FillPositions(valueRows, todo, map k | k in todo :: k.owner, order, target);
    }
  }
}
