/**
 saleor/asgi/gzip_compression.py: whether a client accepts gzip, by the test of the wrapper and by section 12.5.3 of
 RFC 9110.
 */
module AcceptEncoding {
  import opened Wrappers
  import opened GzipResponse

  const WORD := "gzip"

  // ---- the field value (sections 5.6.3, 12.4.2 and 12.5.3 of RFC 9110)

  /** A weight with the white space around its semicolon; the letter may be of either case. */
  datatype Weight = Weight(before: string, after: string, letter: char, qvalue: string)

  /** A member of the list with the white space around it: a coding or "*" and perhaps a weight, or nothing at all. */
  datatype Member = Member(blank: string, coding: string, weight: Option<Weight>, trailing: string)

  predicate Blanks(s: string) {
    forall i | 0 <= i < |s| :: s[i] == ' ' || s[i] == '\t'
  }

  predicate Digit(c: char) {
    '0' <= c <= '9'
  }

  predicate QValue(s: string) {
    && 1 <= |s| <= 5 && (s[0] == '0' || s[0] == '1') && (|s| > 1 ==> s[1] == '.')
    && forall i | 2 <= i < |s| :: Digit(s[i]) && (s[0] == '1' ==> s[i] == '0')
  }

  predicate TokenChar(c: char) {
    '!' <= c <= '~' && c != ',' && c != ';' && c != '='
  }

  predicate ProperWeight(w: Weight) {
    Blanks(w.before) && Blanks(w.after) && (w.letter == 'q' || w.letter == 'Q') && QValue(w.qvalue)
  }

  predicate Proper(m: Member) {
    && Blanks(m.blank) && Blanks(m.trailing) && (m.coding == "" ==> m.weight.None?) && (forall i | 0 <= i < |m.coding| :: TokenChar(m.coding[i]))
    && (m.weight.Some? ==> ProperWeight(m.weight.value))
  }

  function WeightText(w: Option<Weight>): string {
    match w
    case None => ""
    case Some(v) => v.before + ";" + v.after + [v.letter] + "=" + v.qvalue
  }

  function MemberText(m: Member): string {
    m.blank + m.coding + WeightText(m.weight) + m.trailing
  }

  function FieldText(ms: seq<Member>): string {
    if ms == [] then "" else if |ms| == 1 then MemberText(ms[0]) else MemberText(ms[0]) + "," + FieldText(ms[1..])
  }

  // ---- what the field means

  /** A weight of zero: not acceptable. */
  predicate Refused(m: Member) {
    m.weight.Some? && forall i | 0 <= i < |m.weight.value.qvalue| :: m.weight.value.qvalue[i] == '0' || m.weight.value.qvalue[i] == '.'
  }

  /** Codings are case-insensitive, and x-gzip is the same as gzip. */
  predicate NamesGzip(m: Member) {
    Lower(m.coding) == WORD || Lower(m.coding) == "x-" + WORD
  }

  ghost predicate Lists(ms: seq<Member>) {
    exists m :: m in ms && NamesGzip(m)
  }

  ghost predicate ListsAccepted(ms: seq<Member>) {
    exists m :: m in ms && NamesGzip(m) && !Refused(m)
  }

  ghost predicate Wildcard(ms: seq<Member>) {
    exists m :: m in ms && m.coding == "*" && !Refused(m)
  }

  /** Gzip is acceptable if it is listed with a weight above zero, or not listed and covered by "*" with such a weight. */
  ghost predicate Acceptable(ms: seq<Member>) {
    if Lists(ms) then ListsAccepted(ms) else Wildcard(ms)
  }

  /** Every coding with the word in it is gzip in lower case, as those registered with IANA are. */
  ghost predicate Plain(ms: seq<Member>) {
    forall m | m in ms :: Contains(m.coding, WORD) <==> NamesGzip(m)
  }

  // ---- finding a word

  lemma {:induction false} ContainsAt(s: string, w: string)
    ensures Contains(s, w) <==> exists i :: 0 <= i <= |s| - |w| && OccursAt(s, w, i)
  {
    if |s| >= |w| {
      assert OccursAt(s, w, 0) <==> s[..|w|] == w;
      if s != "" {
        ContainsAt(s[1..], w);
        if exists i :: 0 <= i <= |s| - |w| && OccursAt(s, w, i) {
          var i :| 0 <= i <= |s| - |w| && OccursAt(s, w, i);
          if i > 0 {
            OccursTail(s, w, i);
          }
        }
        if exists i :: 0 <= i <= |s[1..]| - |w| && OccursAt(s[1..], w, i) {
          var i :| 0 <= i <= |s[1..]| - |w| && OccursAt(s[1..], w, i);
          OccursTail(s, w, i + 1);
        }
      }
    }
  }

  predicate OccursAt(s: string, w: string, i: int)
    requires 0 <= i <= |s| - |w|
  {
    s[i..i + |w|] == w
  }

  lemma {:induction false} OccursTail(s: string, w: string, i: int)
    requires 0 < i <= |s| - |w|
    ensures OccursAt(s, w, i) <==> OccursAt(s[1..], w, i - 1)
  {
    assert s[1..][i - 1..i - 1 + |w|] == s[i..i + |w|];
  }

  lemma {:induction false} OccursChar(s: string, w: string, i: int, k: int)
    requires 0 <= i <= |s| - |w| && OccursAt(s, w, i) && i <= k < i + |w|
    ensures s[k] in w
  {
    assert s[i..i + |w|][k - i] == s[k];
  }

  lemma {:induction false} OccursInFront(a: string, b: string, w: string, i: int)
    requires 0 <= i <= |a| - |w|
    ensures OccursAt(a + b, w, i) <==> OccursAt(a, w, i)
  {
    assert (a + b)[i..i + |w|] == a[i..i + |w|];
  }

  lemma {:induction false} OccursBehind(a: string, b: string, w: string, i: int)
    requires 0 <= i <= |b| - |w|
    ensures OccursAt(a + b, w, |a| + i) <==> OccursAt(b, w, i)
  {
    assert (a + b)[|a| + i..|a| + i + |w|] == b[i..i + |w|];
  }

  /** Text in front without the first character of the word does not matter. */
  lemma {:induction false} FreeInFront(p: string, s: string, w: string)
    requires w != "" && w[0] !in p
    ensures Contains(p + s, w) <==> Contains(s, w)
  {
    if p != "" {
      FreeInFront(p[1..], s, w);
      assert (p + s)[1..] == p[1..] + s;
      if |p + s| >= |w| {
        assert (p + s)[..|w|][0] == p[0];
      } else {
        ContainsAt(s, w);
      }
    } else {
      assert p + s == s;
    }
  }

  lemma {:induction false} LastChar(s: string, w: string, i: int)
    requires w != "" && 0 <= i <= |s| - |w| && OccursAt(s, w, i)
    ensures s[i + |w| - 1] == w[|w| - 1]
  {
    assert s[i..i + |w|][|w| - 1] == s[i + |w| - 1];
  }

  /** Text behind without the last character of the word does not matter. */
  lemma {:induction false} FreeBehind(s: string, t: string, w: string)
    requires w != "" && w[|w| - 1] !in t
    ensures Contains(s + t, w) <==> Contains(s, w)
  {
    ContainsAt(s + t, w);
    ContainsAt(s, w);
    if Contains(s + t, w) {
      var i :| 0 <= i <= |s + t| - |w| && OccursAt(s + t, w, i);
      var last := i + |w| - 1;
      if last < |s| {
        OccursInFront(s, t, w, i);
      } else {
        LastChar(s + t, w, i);
      }
    }
    if Contains(s, w) {
      var i :| 0 <= i <= |s| - |w| && OccursAt(s, w, i);
      OccursInFront(s, t, w, i);
    }
  }

  /** A word does not reach across a separator that it does not contain. */
  lemma {:induction false} AcrossSeparator(a: string, c: char, b: string, w: string)
    requires w != "" && c !in w
    ensures Contains(a + [c] + b, w) <==> Contains(a, w) || Contains(b, w)
  {
    var s := a + [c] + b;
    ContainsAt(s, w);
    ContainsAt(a, w);
    ContainsAt(b, w);
    assert s == a + ([c] + b) && s[|a|] == c;
    if Contains(s, w) {
      var i :| 0 <= i <= |s| - |w| && OccursAt(s, w, i);
      if i + |w| <= |a| {
        OccursInFront(a, [c] + b, w, i);
      } else if |a| < i {
        OccursBehind(a + [c], b, w, i - |a| - 1);
      } else {
        OccursChar(s, w, i, |a|);
      }
    }
    if Contains(a, w) {
      var i :| 0 <= i <= |a| - |w| && OccursAt(a, w, i);
      OccursInFront(a, [c] + b, w, i);
    }
    if Contains(b, w) {
      var j :| 0 <= j <= |b| - |w| && OccursAt(b, w, j);
      OccursBehind(a + [c], b, w, j);
    }
  }

  lemma {:induction false} WeightHasNoP(w: Weight)
    requires ProperWeight(w)
    ensures 'p' !in WeightText(Some(w))
  {
    assert forall i | 0 <= i < |w.qvalue| :: w.qvalue[i] == '.' || Digit(w.qvalue[i]);
  }

  lemma {:induction false} MemberHasWord(m: Member)
    requires Proper(m)
    ensures Contains(MemberText(m), WORD) <==> Contains(m.coding, WORD)
  {
    assert 'g' !in m.blank;
    if m.weight.Some? {
      WeightHasNoP(m.weight.value);
    }
    FreeBehind(m.blank + m.coding + WeightText(m.weight), m.trailing, WORD);
    FreeBehind(m.blank + m.coding, WeightText(m.weight), WORD);
    FreeInFront(m.blank, m.coding, WORD);
  }

  ghost predicate WordInCoding(ms: seq<Member>) {
    exists m :: m in ms && Contains(m.coding, WORD)
  }

  lemma {:induction false} FieldHasWord(ms: seq<Member>)
    requires forall m | m in ms :: Proper(m)
    ensures Contains(FieldText(ms), WORD) <==> WordInCoding(ms)
  {
    if ms != [] {
      var t := ms[1..];
      assert ms[0] in ms && forall m :: m in ms <==> m == ms[0] || m in t;
      MemberHasWord(ms[0]);
      if |ms| > 1 {
        FieldHasWord(t);
        AcrossSeparator(MemberText(ms[0]), ',', FieldText(t), WORD);
      }
    }
  }

  /**
   The test of the wrapper against the meaning of the field, for every list with any weights and white space. Gzip is
   sent against the wish of the client exactly if some coding holds the word and gzip is listed with weight zero only,
   or not listed and not covered by "*". It is withheld from a client that accepts it exactly if no coding holds the
   word and gzip is listed in another spelling, or not listed and covered by "*".
   */
  lemma {:induction false} AcceptsExactly(key: string, ms: seq<Member>, rest: seq<Header>)
    requires Lower(key) == "accept-encoding" && forall m | m in ms :: Proper(m)
    ensures var accepts := Accepts([Header(key, FieldText(ms))] + rest);
            && (accepts <==> WordInCoding(ms))
            && (accepts && !Acceptable(ms) <==>
                  WordInCoding(ms) && if Lists(ms) then forall m | m in ms && NamesGzip(m) :: Refused(m) else !Wildcard(ms))
            && (!accepts && Acceptable(ms) <==>
                  !WordInCoding(ms) && if Lists(ms) then ListsAccepted(ms) else Wildcard(ms))
  {
    FieldHasWord(ms);
    var headers := [Header(key, FieldText(ms))] + rest;
    assert headers[0] == Header(key, FieldText(ms));
    assert Accepts(headers) <==> WordInCoding(ms);
  }

  /**
   With registered codings only: sent although refused exactly if gzip is listed with weight zero only, and withheld
   although acceptable exactly if only "*" covers it.
   */
  lemma {:induction false} AcceptsPlain(key: string, ms: seq<Member>, rest: seq<Header>)
    requires Lower(key) == "accept-encoding" && (forall m | m in ms :: Proper(m)) && Plain(ms)
    ensures var accepts := Accepts([Header(key, FieldText(ms))] + rest);
            && (accepts && !Acceptable(ms) <==> Lists(ms) && forall m | m in ms && NamesGzip(m) :: Refused(m))
            && (!accepts && Acceptable(ms) <==> !Lists(ms) && Wildcard(ms))
  {
    AcceptsExactly(key, ms, rest);
    assert WordInCoding(ms) <==> Lists(ms);
  }
}
