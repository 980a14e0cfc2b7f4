/**
 saleor/attribute/utils.py: the values listed for each attribute, and what the tables of assigned values should hold
 after a reassignment.
 */
module AttributeLists {
  import opened Wrappers

  /** A row of the table of attribute values; attribute and slug are unique together. */
  datatype Value = Value(attribute: nat, slug: string)

  /** One item of the dictionary from attributes to the values to assign. */
  datatype Listing = Listing(attribute: nat, values: seq<nat>)

  /** A row of a table of assigned values: owner and value are unique together, so a table is a map to sort orders. */
  datatype Key = Key(owner: nat, value: nat)

  type Table = map<Key, Option<nat>>

  ghost predicate DistinctAttributes(lists: seq<Listing>) {
    forall i, j | 0 <= i < j < |lists| :: lists[i].attribute != lists[j].attribute
  }

  /** Every listed value belongs to the attribute it is listed under. */
  ghost predicate Owned(values: map<nat, Value>, lists: seq<Listing>) {
    forall i, v | 0 <= i < |lists| && v in lists[i].values :: v in values && values[v].attribute == lists[i].attribute
  }

  function Attributes(lists: seq<Listing>): set<nat> {
    set l | l in lists :: l.attribute
  }

  function ValueIds(lists: seq<Listing>): set<nat> {
    set l, v | l in lists && v in l.values :: v
  }

  /** What is listed for an attribute: nothing if it is not a key of the dictionary. */
  function ListFor(lists: seq<Listing>, attribute: nat): seq<nat> {
    if lists == [] then []
    else if lists[0].attribute == attribute then lists[0].values
    else ListFor(lists[1..], attribute)
  }

  /** The position of the first occurrence. */
  function IndexIn(s: seq<nat>, v: nat): (i: nat)
    requires v in s
    ensures i < |s| && s[i] == v && v !in s[..i]
  {
    if s[0] == v then 0
    else
      var k := IndexIn(s[1..], v);
      assert s[..k + 1] == [s[0]] + s[1..][..k];
      k + 1
  }

  lemma {:induction false} ListForAt(lists: seq<Listing>, i: nat)
    requires DistinctAttributes(lists) && i < |lists|
    ensures ListFor(lists, lists[i].attribute) == lists[i].values
  {
    if i > 0 {
      assert lists[0].attribute != lists[i].attribute;
      ListForAt(lists[1..], i - 1);
    }
  }

  /** A value is listed exactly if it is in the list of its own attribute. */
  lemma {:induction false} ListedUnderOwn(values: map<nat, Value>, lists: seq<Listing>, v: nat)
    requires DistinctAttributes(lists) && Owned(values, lists) && v in values
    ensures v in ValueIds(lists) <==> v in ListFor(lists, values[v].attribute)
    ensures v in ValueIds(lists) ==> values[v].attribute in Attributes(lists)
  {
    if v in ValueIds(lists) {
      var l :| l in lists && v in l.values;
      var i :| 0 <= i < |lists| && lists[i] == l;
      ListForAt(lists, i);
    }
    if v in ListFor(lists, values[v].attribute) {
      ListForFrom(lists, values[v].attribute, v);
    }
  }

  lemma {:induction false} ListForFrom(lists: seq<Listing>, a: nat, v: nat)
    requires v in ListFor(lists, a)
    ensures a in Attributes(lists) && v in ValueIds(lists)
    ensures exists l :: l in lists && l.attribute == a && v in l.values
  {
    if lists[0].attribute != a {
      ListForFrom(lists[1..], a, v);
    } else {
      assert lists[0] in lists;
    }
  }

  /** The owned lists only mention rows of the table of values. */
  lemma {:induction false} ListedExist(values: map<nat, Value>, lists: seq<Listing>)
    requires Owned(values, lists)
    ensures ValueIds(lists) <= values.Keys
  {
  }

  // ---- products and pages

  /** Rows that a reassignment of these attributes is about. */
  predicate InScope(values: map<nat, Value>, attributes: set<nat>, owner: nat, k: Key) {
    k.owner == owner && k.value in values && values[k.value].attribute in attributes
  }

  /** For the listed attributes exactly the listed values, each at its position; every other row as before. */
  function Reassigned(values: map<nat, Value>, table: Table, owner: nat, lists: seq<Listing>): Table {
    map k |
      k in table.Keys + (set v | v in ValueIds(lists) :: Key(owner, v)) &&
      (InScope(values, Attributes(lists), owner, k) ==> k.value in ListFor(lists, values[k.value].attribute)) &&
      (!InScope(values, Attributes(lists), owner, k) ==> k in table) ::
      if InScope(values, Attributes(lists), owner, k) then Some(IndexIn(ListFor(lists, values[k.value].attribute), k.value))
      else table[k]
  }

  lemma {:induction false} ReassignedAt(values: map<nat, Value>, table: Table, owner: nat, lists: seq<Listing>, k: Key)
    requires DistinctAttributes(lists) && Owned(values, lists)
    ensures var r := Reassigned(values, table, owner, lists);
            if InScope(values, Attributes(lists), owner, k) then
              var list := ListFor(lists, values[k.value].attribute);
              (k in r <==> k.value in list) && (k in r ==> r[k] == Some(IndexIn(list, k.value)))
            else
              (k in r <==> k in table) && (k in r ==> r[k] == table[k])
  {
    if InScope(values, Attributes(lists), owner, k) {
      ListedUnderOwn(values, lists, k.value);
    }
  }

  /** The rows of a listed attribute, read in their sort order, are the list that was given. */
  lemma {:induction false} ReadsBack(values: map<nat, Value>, table: Table, owner: nat, lists: seq<Listing>, i: nat)
    requires DistinctAttributes(lists) && Owned(values, lists) && i < |lists|
    requires forall p, q | 0 <= p < q < |lists[i].values| :: lists[i].values[p] != lists[i].values[q]
    ensures var r, list := Reassigned(values, table, owner, lists), lists[i].values;
            && (forall p | 0 <= p < |list| :: Key(owner, list[p]) in r && r[Key(owner, list[p])] == Some(p))
            && (forall k | k in r && InScope(values, {lists[i].attribute}, owner, k) :: k.value in list)
  {
    var r, list := Reassigned(values, table, owner, lists), lists[i].values;
    ListForAt(lists, i);
    assert lists[i] in lists;
    forall p | 0 <= p < |list|
      ensures Key(owner, list[p]) in r && r[Key(owner, list[p])] == Some(p)
    {
      ReassignedAt(values, table, owner, lists, Key(owner, list[p]));
    }
    forall k | k in r && InScope(values, {lists[i].attribute}, owner, k)
      ensures k.value in list
    {
      ReassignedAt(values, table, owner, lists, k);
    }
  }

  /** The last call on the same attributes wins. */
  lemma {:induction false} LastCallWins(values: map<nat, Value>, table: Table, owner: nat, first: seq<Listing>, second: seq<Listing>)
    requires DistinctAttributes(first) && Owned(values, first) && DistinctAttributes(second) && Owned(values, second)
    requires Attributes(first) <= Attributes(second)
    ensures Reassigned(values, Reassigned(values, table, owner, first), owner, second) == Reassigned(values, table, owner, second)
  {
    var t1 := Reassigned(values, table, owner, first);
    var both, once := Reassigned(values, t1, owner, second), Reassigned(values, table, owner, second);
    forall k: Key
      ensures (k in both <==> k in once) && (k in both ==> both[k] == once[k])
    {
      ReassignedAt(values, table, owner, first, k);
      ReassignedAt(values, table, owner, second, k);
      ReassignedAt(values, t1, owner, second, k);
    }
  }

  /** Calls for different owners, or for different attributes, do not see each other. */
  lemma {:induction false} CallsCommute(values: map<nat, Value>, table: Table, o1: nat, l1: seq<Listing>, o2: nat, l2: seq<Listing>)
    requires DistinctAttributes(l1) && Owned(values, l1) && DistinctAttributes(l2) && Owned(values, l2)
    requires o1 != o2 || Attributes(l1) !! Attributes(l2)
    ensures Reassigned(values, Reassigned(values, table, o1, l1), o2, l2) == Reassigned(values, Reassigned(values, table, o2, l2), o1, l1)
  {
    var t1, t2 := Reassigned(values, table, o1, l1), Reassigned(values, table, o2, l2);
    var a, b := Reassigned(values, t1, o2, l2), Reassigned(values, t2, o1, l1);
    forall k: Key
      ensures (k in a <==> k in b) && (k in a ==> a[k] == b[k])
    {
      ReassignedAt(values, table, o1, l1, k);
      ReassignedAt(values, table, o2, l2, k);
      ReassignedAt(values, t1, o2, l2, k);
      ReassignedAt(values, t2, o1, l1, k);
    }
  }

  // ---- variants: the owner of a row is an assignment, one for each variant and attribute of its product type

  ghost predicate Injective(m: map<nat, nat>) {
    forall a, b | a in m && b in m && m[a] == m[b] :: a == b
  }

  /** Rows under one of the assignments hold values of the attribute of that assignment. */
  ghost predicate OwnValues(values: map<nat, Value>, table: Table, assignmentOf: map<nat, nat>) {
    forall k, a | k in table && a in assignmentOf && k.owner == assignmentOf[a] :: k.value in values && values[k.value].attribute == a
  }

  /** The row is under the assignment of the attribute of its value. */
  predicate UnderOwn(values: map<nat, Value>, assignmentOf: map<nat, nat>, k: Key) {
    k.value in values && values[k.value].attribute in assignmentOf && assignmentOf[values[k.value].attribute] == k.owner
  }

  function NewKeys(values: map<nat, Value>, assignmentOf: map<nat, nat>, lists: seq<Listing>): set<Key> {
    set v | v in ValueIds(lists) && v in values && values[v].attribute in assignmentOf :: Key(assignmentOf[values[v].attribute], v)
  }

  /** Under the given assignments exactly the listed values of their attributes, each at its position; every other row as before. */
  function VariantReassigned(values: map<nat, Value>, table: Table, assignmentOf: map<nat, nat>, lists: seq<Listing>): Table {
    map k |
      k in table.Keys + NewKeys(values, assignmentOf, lists) &&
      (if k.owner in assignmentOf.Values then UnderOwn(values, assignmentOf, k) && k.value in ListFor(lists, values[k.value].attribute)
       else k in table) ::
      if k.owner in assignmentOf.Values then Some(IndexIn(ListFor(lists, values[k.value].attribute), k.value)) else table[k]
  }

  lemma {:induction false} VariantReassignedAt(values: map<nat, Value>, table: Table, assignmentOf: map<nat, nat>, lists: seq<Listing>, k: Key)
    requires DistinctAttributes(lists) && Owned(values, lists)
    ensures var r := VariantReassigned(values, table, assignmentOf, lists);
            if k.owner in assignmentOf.Values then
              && (k in r <==> UnderOwn(values, assignmentOf, k) && k.value in ListFor(lists, values[k.value].attribute))
              && (k in r ==> r[k] == Some(IndexIn(ListFor(lists, values[k.value].attribute), k.value)))
            else
              (k in r <==> k in table) && (k in r ==> r[k] == table[k])
  {
    if k.owner in assignmentOf.Values && UnderOwn(values, assignmentOf, k) {
      ListedUnderOwn(values, lists, k.value);
    }
  }

  /** The rows of a listed attribute of a variant, read in their sort order, are the list that was given. */
  lemma {:induction false} VariantReadsBack(values: map<nat, Value>, table: Table, assignmentOf: map<nat, nat>, lists: seq<Listing>, i: nat)
    requires DistinctAttributes(lists) && Owned(values, lists) && Injective(assignmentOf)
    requires i < |lists| && lists[i].attribute in assignmentOf
    requires forall p, q | 0 <= p < q < |lists[i].values| :: lists[i].values[p] != lists[i].values[q]
    ensures var r, list, w := VariantReassigned(values, table, assignmentOf, lists), lists[i].values, assignmentOf[lists[i].attribute];
            && (forall p | 0 <= p < |list| :: Key(w, list[p]) in r && r[Key(w, list[p])] == Some(p))
            && (forall k | k in r && k.owner == w :: k.value in list)
  {
    var r, list, w := VariantReassigned(values, table, assignmentOf, lists), lists[i].values, assignmentOf[lists[i].attribute];
    ListForAt(lists, i);
    forall p | 0 <= p < |list|
      ensures Key(w, list[p]) in r && r[Key(w, list[p])] == Some(p)
    {
      assert list[p] in list;
      VariantReassignedAt(values, table, assignmentOf, lists, Key(w, list[p]));
    }
    forall k | k in r && k.owner == w
      ensures k.value in list
    {
      VariantReassignedAt(values, table, assignmentOf, lists, k);
    }
  }
}
