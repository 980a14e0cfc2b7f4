/**
 saleor/attribute/utils.py: checking that the wanted values belong to their attributes, and finding their rows.
 */
module AttributeOwnership {
  import opened Wrappers
  import opened AttributeLists

  /** What a caller asks for: values of an attribute by slug. */
  datatype Wanted = Wanted(attribute: nat, slugs: seq<string>)

  ghost predicate UniqueSlugs(values: map<nat, Value>) {
    forall v, w | v in values && w in values && values[v] == values[w] :: v == w
  }

  ghost predicate DistinctWanted(wanted: seq<Wanted>) {
    forall i, j | 0 <= i < j < |wanted| :: wanted[i].attribute != wanted[j].attribute
  }

  ghost predicate Exists(values: map<nat, Value>, attribute: nat, slug: string) {
    exists v :: v in values && values[v] == Value(attribute, slug)
  }

  ghost predicate AllExist(values: map<nat, Value>, w: Wanted) {
    forall s | s in w.slugs :: Exists(values, w.attribute, s)
  }

  /** The condition of the query. */
  predicate Matches(wanted: seq<Wanted>, x: Value) {
    exists w :: w in wanted && w.attribute == x.attribute && x.slug in w.slugs
  }

  /** The rows found for one item: the values with its slugs, in its order. */
  ghost predicate Resolves(values: map<nat, Value>, w: Wanted, l: Listing) {
    && l.attribute == w.attribute && |l.values| == |w.slugs|
    && forall j | 0 <= j < |w.slugs| :: l.values[j] in values && values[l.values[j]] == Value(w.attribute, w.slugs[j])
  }

  ghost predicate Resolved(values: map<nat, Value>, wanted: seq<Wanted>, lists: seq<Listing>) {
    |lists| == |wanted| && forall i | 0 <= i < |wanted| :: Resolves(values, wanted[i], lists[i])
  }

  function SlugsOf(found: map<nat, set<string>>, attribute: nat): set<string> {
    if attribute in found then found[attribute] else {}
  }

  /** The two dictionaries hold the same rows, all of them matching rows of the table. */
  ghost predicate Indexed(values: map<nat, Value>, wanted: seq<Wanted>, found: map<nat, set<string>>, rowOf: map<Value, nat>) {
    && (forall a, s :: s in SlugsOf(found, a) <==> Value(a, s) in rowOf)
    && (forall x | x in rowOf :: Matches(wanted, x) && rowOf[x] in values && values[rowOf[x]] == x)
  }

  /** The loop over the query result. */
  method IndexRows(values: map<nat, Value>, wanted: seq<Wanted>) returns (found: map<nat, set<string>>, rowOf: map<Value, nat>)
    ensures Indexed(values, wanted, found, rowOf)
    ensures forall v | v in values && Matches(wanted, values[v]) :: values[v] in rowOf
  {
    found, rowOf := map[], map[];
    var matching := set v | v in values && Matches(wanted, values[v]);
    var todo := matching;
    while todo != {}
      invariant todo <= matching && Indexed(values, wanted, found, rowOf)
      invariant forall v | v in matching - todo :: values[v] in rowOf
      decreases |todo|
    {
      var v :| v in todo;
      IndexOne(values, wanted, found, rowOf, v);
      var x := values[v];
      found := found[x.attribute := SlugsOf(found, x.attribute) + {x.slug}];
      rowOf := rowOf[x := v];
      todo := todo - {v};
    }
  }

  lemma {:induction false} IndexOne(values: map<nat, Value>, wanted: seq<Wanted>, found: map<nat, set<string>>, rowOf: map<Value, nat>, v: nat)
    requires Indexed(values, wanted, found, rowOf) && v in values && Matches(wanted, values[v])
    ensures var x := values[v]; Indexed(values, wanted, found[x.attribute := SlugsOf(found, x.attribute) + {x.slug}], rowOf[x := v])
  {
  }

  /** The slugs found for an item are its slugs exactly if they all exist. */
  lemma {:induction false} FoundExactly(values: map<nat, Value>, wanted: seq<Wanted>, found: map<nat, set<string>>, rowOf: map<Value, nat>, i: nat)
    requires DistinctWanted(wanted) && Indexed(values, wanted, found, rowOf) && i < |wanted|
    requires forall v | v in values && Matches(wanted, values[v]) :: values[v] in rowOf
    ensures SlugsOf(found, wanted[i].attribute) == (set s | s in wanted[i].slugs) <==> AllExist(values, wanted[i])
  {
    var w := wanted[i];
    var f := SlugsOf(found, w.attribute);
    forall s | s in f
      ensures s in w.slugs
    {
      var m :| m in wanted && m.attribute == w.attribute && s in m.slugs;
      var j :| 0 <= j < |wanted| && wanted[j] == m;
      assert i == j;
    }
    forall s | s in w.slugs
      ensures s in f <==> Exists(values, w.attribute, s)
    {
      assert w in wanted && Matches(wanted, Value(w.attribute, s));
      if s in f {
        assert values[rowOf[Value(w.attribute, s)]] == Value(w.attribute, s);
      }
    }
  }

  /** Fails exactly if some wanted slug is not among the values of its attribute; otherwise gives the rows. */
  method ValidateAttributeOwnsValues(values: map<nat, Value>, wanted: seq<Wanted>) returns (r: Option<seq<Listing>>)
    requires DistinctWanted(wanted)
    ensures r.Some? <==> forall i | 0 <= i < |wanted| :: AllExist(values, wanted[i])
    ensures r.Some? ==> Resolved(values, wanted, r.value)
  {
    var found, rowOf := IndexRows(values, wanted);
    var lists: seq<Listing> := [];
    for i := 0 to |wanted|
      invariant forall k | 0 <= k < i :: AllExist(values, wanted[k])
      invariant Resolved(values, wanted[..i], lists)
    {
      var w := wanted[i];
      FoundExactly(values, wanted, found, rowOf, i);
      if SlugsOf(found, w.attribute) != (set s | s in w.slugs) {
        return None;
      }
      assert forall j | 0 <= j < |w.slugs| :: w.slugs[j] in SlugsOf(found, w.attribute);
      var l := Listing(w.attribute, seq(|w.slugs|, j requires 0 <= j < |w.slugs| => rowOf[Value(w.attribute, w.slugs[j])]));
      assert Resolves(values, w, l);
      lists := lists + [l];
    }
    r := Some(lists);
  }

  /** What the check hands on is what the assignment relies on, and it is the only answer if slugs are unique. */
  lemma {:induction false} ResolvedOwned(values: map<nat, Value>, wanted: seq<Wanted>, lists: seq<Listing>)
    requires DistinctWanted(wanted) && Resolved(values, wanted, lists)
    ensures DistinctAttributes(lists) && Owned(values, lists)
  {
    forall i, v | 0 <= i < |lists| && v in lists[i].values
      ensures v in values && values[v].attribute == lists[i].attribute
    {
      assert Resolves(values, wanted[i], lists[i]);
    }
    forall i, j | 0 <= i < j < |lists|
      ensures lists[i].attribute != lists[j].attribute
    {
      assert Resolves(values, wanted[i], lists[i]) && Resolves(values, wanted[j], lists[j]);
    }
  }

  lemma {:induction false} ResolvedUnique(values: map<nat, Value>, wanted: seq<Wanted>, a: seq<Listing>, b: seq<Listing>)
    requires UniqueSlugs(values) && Resolved(values, wanted, a) && Resolved(values, wanted, b)
    ensures a == b
  {
    forall i | 0 <= i < |wanted|
      ensures a[i] == b[i]
    {
      assert Resolves(values, wanted[i], a[i]) && Resolves(values, wanted[i], b[i]);
      assert a[i].values == b[i].values;
    }
  }
}
