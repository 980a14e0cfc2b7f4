/** How BlockStringValue() undoes the indentation and the blank lines that the printer adds. */
module BlockLayout {
  import opened Wrappers
  import opened TextLines
  import opened BlockScanner
  import opened BlockPrinter
  import opened BlockReader

  lemma {:induction false} SourceLinesWithoutReturns(s: string)
    requires '\r' !in s
    ensures SourceLines(s) == Lines(s)
  {
    if s != "" {
      SourceLinesWithoutReturns(s[1..]);
    }
  }

  lemma {:induction false} LeadingWhiteSpaceAfter(ind: string, line: string)
    requires Blank(ind)
    ensures LeadingWhiteSpace(ind + line) == |ind| + LeadingWhiteSpace(line)
  {
    if ind == "" {
      assert ind + line == line;
    } else {
      LeadingWhiteSpaceAfter(ind[1..], line);
      assert (ind + line)[1..] == ind[1..] + line;
    }
  }

  function Shifted(indent: Option<nat>, k: nat): Option<nat> {
    match indent case None => None case Some(m) => Some(k + m)
  }

  lemma {:induction false} CommonIndentPrefixed(ls: seq<string>, ind: string)
    requires Blank(ind)
    ensures CommonIndent(Prefixed(ls, ind)) ==
            Shifted(CommonIndent(ls), |ind|)
  {
    if ls != [] {
      CommonIndentPrefixed(ls[1..], ind);
      LeadingWhiteSpaceAfter(ind, ls[0]);
      CommonIndentStep(ind + ls[0], Prefixed(ls[1..], ind));
    }
  }

  lemma {:induction false} CommonIndentStep(h: string, t: seq<string>)
    ensures var indent := LeadingWhiteSpace(h);
            CommonIndent([h] + t) ==
            if indent == |h| then CommonIndent(t)
            else if CommonIndent(t).None? || indent < CommonIndent(t).value then Some(indent)
            else CommonIndent(t)
  {
    assert ([h] + t)[1..] == t;
  }

  lemma {:induction false} LeastIndent(ls: seq<string>, k: nat)
    requires k < |ls| && !Blank(ls[k])
    ensures CommonIndent(ls).Some? && CommonIndent(ls).value <= LeadingWhiteSpace(ls[k])
  {
    CommonIndentIsLeast(ls);
  }

  lemma {:induction false} CommonIndentBlankLast(ls: seq<string>)
    ensures CommonIndent(ls + [""]) == CommonIndent(ls)
  {
    if ls != [] {
      CommonIndentBlankLast(ls[1..]);
      assert (ls + [""])[1..] == ls[1..] + [""];
    } else {
      assert ls + [""] == [""];
      assert [""][1..] == [];
    }
  }

  /** The common indent is the least indent of the lines with text. */
  lemma {:induction false} CommonIndentIsLeast(ls: seq<string>)
    ensures CommonIndent(ls).None? <==> forall i | 0 <= i < |ls| :: Blank(ls[i])
    ensures CommonIndent(ls).Some? ==>
              && (forall i | 0 <= i < |ls| && !Blank(ls[i]) :: CommonIndent(ls).value <= LeadingWhiteSpace(ls[i]))
              && (exists i :: 0 <= i < |ls| && !Blank(ls[i]) && CommonIndent(ls).value == LeadingWhiteSpace(ls[i]))
  {
    if ls != [] {
      CommonIndentIsLeast(ls[1..]);
      assert forall i | 1 <= i < |ls| :: ls[i] == ls[1..][i - 1];
      assert ls[1..] == [] || ls[1..][0] == ls[1];
      if CommonIndent(ls).Some? && CommonIndent(ls) == CommonIndent(ls[1..]) {
        var j :| 0 <= j < |ls[1..]| && !Blank(ls[1..][j]) && CommonIndent(ls).value == LeadingWhiteSpace(ls[1..][j]);
        assert ls[j + 1] == ls[1..][j];
      }
    }
  }

  lemma {:induction false} FlushLineMeansNoIndent(ls: seq<string>)
    ensures HasFlushLine(ls) <==> CommonIndent(ls) == Some(0)
  {
    CommonIndentIsLeast(ls);
    if HasFlushLine(ls) {
      var i :| 0 <= i < |ls| && !Blank(ls[i]) && !Indented(ls[i]);
      assert LeadingWhiteSpace(ls[i]) == 0;
    }
    if CommonIndent(ls) == Some(0) {
      var i :| 0 <= i < |ls| && !Blank(ls[i]) && CommonIndent(ls).value == LeadingWhiteSpace(ls[i]);
      assert !Indented(ls[i]);
    }
  }

  lemma {:induction false} DropAfterPrefix(line: string, ind: string, m: nat)
    ensures DropIndent(ind + line, |ind| + m) == DropIndent(line, m)
  {
    if m <= |line| {
      assert (ind + line)[|ind| + m..] == line[m..];
    }
  }

  lemma {:induction false} DropIndentsPrefixed(ls: seq<string>, ind: string, m: nat)
    ensures DropIndents(Prefixed(ls, ind), |ind| + m) == DropIndents(ls, m)
  {
    if ls != [] {
      DropIndentsPrefixed(ls[1..], ind, m);
      DropAfterPrefix(ls[0], ind, m);
      assert Prefixed(ls, ind)[1..] == Prefixed(ls[1..], ind);
    }
  }

  lemma {:induction false} DropIndentsAt(ls: seq<string>, m: nat, k: nat)
    requires k < |ls|
    ensures DropIndents(ls, m)[k] == DropIndent(ls[k], m)
  {
    if k > 0 {
      DropIndentsAt(ls[1..], m, k - 1);
    }
  }

  lemma {:induction false} TrimFrontExact(b: seq<string>, t: seq<string>)
    requires |t| >= 1 && !Blank(t[0])
    requires |b| <= 1 && (|b| == 1 ==> Blank(b[0]))
    ensures TrimFront(b + t) == t
  {
    if |b| == 1 {
      assert (b + t)[1..] == t;
    } else {
      assert b + t == t;
    }
  }

  lemma {:induction false} TrimBackExact(t: seq<string>, a: seq<string>)
    requires |t| >= 1 && !Blank(t[|t| - 1])
    requires |a| <= 1 && (|a| == 1 ==> Blank(a[0]))
    ensures TrimBack(t + a) == t
  {
    if |a| == 1 {
      assert (t + a)[..|t|] == t;
    } else {
      assert t + a == t;
    }
  }

  /** Blank lines around a text that starts and ends with a non-blank line are all that is trimmed. */
  lemma {:induction false} TrimExact(b: seq<string>, m: seq<string>, a: seq<string>)
    requires |m| >= 1 && !Blank(m[0]) && !Blank(m[|m| - 1])
    requires |b| <= 1 && (|b| == 1 ==> Blank(b[0]))
    requires |a| <= 1 && (|a| == 1 ==> Blank(a[0]))
    ensures TrimBack(TrimFront(b + (m + a))) == m
  {
    TrimFrontExact(b, m + a);
    TrimBackExact(m, a);
  }

  function BlankLine(wanted: bool): seq<string> {
    if wanted then [""] else []
  }

  lemma {:induction false} LinesOfLayout(value: string, before: bool, after: bool)
    ensures Lines(Feed(before) + value + Feed(after)) == BlankLine(before) + Lines(value) + BlankLine(after)
  {
    if before {
      LinesConcat("", value);
      assert "" + "\n" + value == "\n" + value;
    } else {
      assert "" + value == value;
    }
    var t := Feed(before) + value;
    assert Lines(t) == BlankLine(before) + Lines(value);
    if after {
      LinesSnocFeed(t);
    } else {
      assert t + "" == t;
      assert Lines(t) + [] == Lines(t);
    }
  }

  lemma {:induction false} PrefixedConcat(p: seq<string>, q: seq<string>, ind: string)
    ensures Prefixed(p + q, ind) == Prefixed(p, ind) + Prefixed(q, ind)
  {
    if p == [] {
      assert p + q == q;
    } else {
      PrefixedConcat(p[1..], q, ind);
      PrefixedCons(p[0], p[1..] + q, ind);
      assert p + q == [p[0]] + (p[1..] + q);
      ConsConcat(ind + p[0], Prefixed(p[1..], ind), Prefixed(q, ind));
    }
  }

  lemma {:induction false} PrefixedCons(h: string, t: seq<string>, ind: string)
    ensures Prefixed([h] + t, ind) == [ind + h] + Prefixed(t, ind)
  {
    assert ([h] + t)[1..] == t;
  }

  lemma {:induction false} ConsConcat(h: string, p: seq<string>, q: seq<string>)
    ensures [h] + (p + q) == [h] + p + q
  {
  }

  lemma {:induction false} CommonIndentReindented(ls: seq<string>, after: bool, ind: string)
    requires Blank(ind)
    ensures CommonIndent(Prefixed(ls + BlankLine(after), ind)) ==
            Shifted(CommonIndent(ls), |ind|)
  {
    CommonIndentSpaced(ls, after);
    CommonIndentPrefixed(ls + BlankLine(after), ind);
  }

  lemma {:induction false} CommonIndentSpaced(ls: seq<string>, after: bool)
    ensures CommonIndent(ls + BlankLine(after)) == CommonIndent(ls)
  {
    if after {
      CommonIndentBlankLast(ls);
    } else {
      assert ls + [] == ls;
    }
  }

  lemma {:induction false} DropIndentsBlankLast(ls: seq<string>, after: bool, m: nat)
    ensures DropIndents(ls + BlankLine(after), m) == DropIndents(ls, m) + BlankLine(after)
  {
    if ls == [] {
      assert ls + BlankLine(after) == BlankLine(after);
    } else {
      DropIndentsBlankLast(ls[1..], after, m);
      assert (ls + BlankLine(after))[1..] == ls[1..] + BlankLine(after);
    }
  }

  /** The lines BlockStringValue() keeps of re-indented lines: only the indent the lines had themselves is lost. */
  function Kept(ls: seq<string>, after: bool, ind: string): seq<string> {
    match CommonIndent(ls)
    case None => Prefixed(ls, ind) + Prefixed(BlankLine(after), ind)
    case Some(m) => DropIndents(ls, m) + BlankLine(after)
  }

  lemma {:induction false} DedentBlankTail(ls: seq<string>, after: bool, ind: string)
    requires Blank(ind) && CommonIndent(ls).None?
    ensures DedentedTail(Prefixed(ls + BlankLine(after), ind)) == Kept(ls, after, ind)
  {
    CommonIndentReindented(ls, after, ind);
    PrefixedConcat(ls, BlankLine(after), ind);
  }

  lemma {:induction false} DedentTextTail(ls: seq<string>, after: bool, ind: string)
    requires Blank(ind) && CommonIndent(ls).Some?
    ensures DedentedTail(Prefixed(ls + BlankLine(after), ind)) == Kept(ls, after, ind)
  {
    CommonIndentReindented(ls, after, ind);
    var m := CommonIndent(ls).value;
    DropReindented(ls, after, ind, m);
    DedentedTailIs(Prefixed(ls + BlankLine(after), ind), |ind| + m, DropIndents(ls, m) + BlankLine(after));
  }

  lemma {:induction false} DropReindented(ls: seq<string>, after: bool, ind: string, m: nat)
    ensures DropIndents(Prefixed(ls + BlankLine(after), ind), |ind| + m) == DropIndents(ls, m) + BlankLine(after)
  {
    DropIndentsPrefixed(ls + BlankLine(after), ind, m);
    DropIndentsBlankLast(ls, after, m);
  }

  lemma {:induction false} DedentedTailIs(ls: seq<string>, k: nat, d: seq<string>)
    requires CommonIndent(ls) == Some(k) && DropIndents(ls, k) == d
    ensures DedentedTail(ls) == d
  {
  }

  lemma {:induction false} DedentReindented(first: string, ls: seq<string>, after: bool, ind: string)
    requires Blank(ind)
    ensures Dedented([first] + Prefixed(ls + BlankLine(after), ind)) == [first] + Kept(ls, after, ind)
  {
    if CommonIndent(ls).None? {
      DedentBlankTail(ls, after, ind);
    } else {
      DedentTextTail(ls, after, ind);
    }
    var tail := Prefixed(ls + BlankLine(after), ind);
    assert ([first] + tail)[1..] == tail;
  }

  /** Taking a positive common indent away changes the text. */
  lemma {:induction false} IndentLost(ls: seq<string>, k: nat, m: nat)
    requires k < |ls| && 0 < m <= |ls[k]|
    ensures DropIndents(ls, m) != ls
  {
    DropIndentsAt(ls, m, k);
  }

  lemma {:induction false} DropKeepsText(line: string, m: nat)
    requires !Blank(line) && m <= LeadingWhiteSpace(line)
    ensures !Blank(DropIndent(line, m))
  {
    var n := LeadingWhiteSpace(line);
    assert line[m..][n - m] == line[n];
  }

  lemma {:induction false} DropNothing(ls: seq<string>)
    ensures DropIndents(ls, 0) == ls
  {
    if ls != [] {
      DropNothing(ls[1..]);
      assert ls[0][0..] == ls[0];
    }
  }

  lemma {:induction false} JoinIsInjective(p: seq<string>, value: string)
    requires |p| >= 1 && forall i | 0 <= i < |p| :: OneLine(p[i])
    ensures Join(p) == value <==> p == Lines(value)
  {
    LinesJoin(p);
    JoinLines(value);
  }

  lemma {:induction false} DropStaysSingle(ls: seq<string>, m: nat)
    requires forall i | 0 <= i < |ls| :: OneLine(ls[i])
    ensures forall i | 0 <= i < |ls| :: OneLine(DropIndents(ls, m)[i])
  {
    forall i | 0 <= i < |ls|
      ensures OneLine(DropIndents(ls, m)[i])
    {
      DropIndentsAt(ls, m, i);
      assert OneLine(ls[i]);
    }
  }

  /** Dropping the common indent `m` gives the text back just when `m` is zero. */
  lemma {:induction false} DroppedIsValue(value: string, first: seq<string>, tail: seq<string>, m: nat)
    requires first + tail == Lines(value) && |tail| >= 1 && m <= |tail[|tail| - 1]|
    ensures Join(first + DropIndents(tail, m)) == value <==> m == 0
  {
    var d := first + DropIndents(tail, m);
    LinesAreSingle(value);
    assert forall i | 0 <= i < |tail| :: tail[i] == Lines(value)[|first| + i];
    assert forall i | 0 <= i < |first| :: first[i] == Lines(value)[i];
    DropStaysSingle(tail, m);
    JoinIsInjective(d, value);
    if m == 0 {
      DropNothing(tail);
    } else {
      IndentLost(tail, |tail| - 1, m);
      assert d[|first|..] == DropIndents(tail, m);
      assert Lines(value)[|first|..] == tail;
    }
  }

  function Trimmed(ls: seq<string>): string {
    Join(TrimBack(TrimFront(ls)))
  }

  /** The value read from lines whose common indent `m` has been dropped. */
  lemma {:induction false} TrimmedDrop(value: string, b: seq<string>, first: seq<string>, tail: seq<string>, m: nat, d: seq<string>, a: seq<string>)
    requires first + tail == Lines(value) && |tail| >= 1 && !Blank(tail[|tail| - 1]) && m <= LeadingWhiteSpace(tail[|tail| - 1])
    requires if first == [] then !Blank(tail[0]) && m <= LeadingWhiteSpace(tail[0]) else !Blank(first[0])
    requires d == first + DropIndents(tail, m)
    requires |b| <= 1 && (|b| == 1 ==> Blank(b[0]))
    requires |a| <= 1 && (|a| == 1 ==> Blank(a[0]))
    ensures Trimmed(b + (d + a)) == value <==> m == 0
  {
    DropKeepsText(tail[|tail| - 1], m);
    DropIndentsAt(tail, m, |tail| - 1);
    if first == [] {
      DropKeepsText(tail[0], m);
      DropIndentsAt(tail, m, 0);
    }
    TrimExact(b, d, a);
    DroppedIsValue(value, first, tail, m);
  }

  /** With a leading line feed, all lines take part in the common indent. */
  lemma {:induction false} ValueAfterLeadingFeed(value: string, after: bool, ind: string)
    requires Blank(ind) && value != "" && Printable(value)
    ensures Trimmed(Dedented([""] + Prefixed(Lines(value) + BlankLine(after), ind))) == value <==> HasFlushLine(Lines(value))
  {
    var ls := Lines(value);
    PrintableEnds(value);
    KeptAfterLeadingFeed(value, after, ind);
    DedentReindented("", ls, after, ind);
    FlushLineMeansNoIndent(ls);
  }

  lemma {:induction false} PrintableEnds(value: string)
    requires value != "" && Printable(value)
    ensures !Blank(Lines(value)[0]) && !Blank(Lines(value)[|Lines(value)| - 1])
  {
  }

  lemma {:induction false} KeptAfterLeadingFeed(value: string, after: bool, ind: string)
    requires !Blank(Lines(value)[0]) && !Blank(Lines(value)[|Lines(value)| - 1])
    ensures Trimmed([""] + Kept(Lines(value), after, ind)) == value <==> CommonIndent(Lines(value)) == Some(0)
  {
    var ls := Lines(value);
    LeastIndent(ls, 0);
    LeastIndent(ls, |ls| - 1);
    var b := [""];
    assert Blank(b[0]);
    DropAfterBlank(value, ls, CommonIndent(ls).value, b, BlankLine(after));
  }

  lemma {:induction false} DropAfterBlank(value: string, ls: seq<string>, m: nat, b: seq<string>, a: seq<string>)
    requires ls == Lines(value) && |ls| >= 1
    requires !Blank(ls[0]) && m <= LeadingWhiteSpace(ls[0]) && !Blank(ls[|ls| - 1]) && m <= LeadingWhiteSpace(ls[|ls| - 1])
    requires |b| <= 1 && (|b| == 1 ==> Blank(b[0]))
    requires |a| <= 1 && (|a| == 1 ==> Blank(a[0]))
    ensures Trimmed(b + (DropIndents(ls, m) + a)) == value <==> m == 0
  {
    NothingInFront(ls);
    NothingInFront(DropIndents(ls, m));
    TrimmedDrop(value, b, [], ls, m, DropIndents(ls, m), a);
  }

  lemma {:induction false} NothingInFront(s: seq<string>)
    ensures [] + s == s
  {
  }

  lemma {:induction false} OneLineValue(value: string, after: bool, ind: string)
    requires Blank(ind) && value != "" && Printable(value) && |Lines(value)| == 1
    ensures Trimmed(Dedented(Lines(value) + Prefixed(BlankLine(after), ind))) == value
  {
    var ls := Lines(value);
    var a := Prefixed(BlankLine(after), ind);
    assert [] + BlankLine(after) == BlankLine(after);
    assert ls == [ls[0]];
    DedentReindented(ls[0], [], after, ind);
    assert [] + a == a;
    assert [ls[0]] + Kept([], after, ind) == [] + (ls + a);
    TrimExact([], ls, a);
    JoinLines(value);
  }

  lemma {:induction false} ManyLinesValue(value: string, after: bool, ind: string)
    requires Blank(ind) && value != "" && Printable(value) && |Lines(value)| > 1
    ensures var ls := Lines(value);
            Trimmed(Dedented([ls[0]] + Prefixed(ls[1..] + BlankLine(after), ind))) == value <==> HasFlushLine(ls[1..])
  {
    var ls := Lines(value);
    var tail, a := ls[1..], BlankLine(after);
    assert tail[|tail| - 1] == ls[|ls| - 1];
    LeastIndent(tail, |tail| - 1);
    var m := CommonIndent(tail).value;
    var d := [ls[0]] + DropIndents(tail, m);
    TrimmedDrop(value, [], [ls[0]], tail, m, d, a);
    DedentReindented(ls[0], tail, after, ind);
    HeadRegrouped(ls[0], DropIndents(tail, m), a);
    FlushLineMeansNoIndent(tail);
  }

  lemma {:induction false} HeadRegrouped(h: string, p: seq<string>, q: seq<string>)
    ensures [h] + (p + q) == [] + ([h] + p + q)
  {
  }

  /** Without one, the first line keeps its indent and the others decide. */
  lemma {:induction false} ValueWithoutLeadingFeed(value: string, after: bool, ind: string)
    requires Blank(ind) && value != "" && Printable(value)
    ensures var ls := Lines(value);
            Trimmed(Dedented([ls[0]] + Prefixed(ls[1..] + BlankLine(after), ind))) == value
            <==> |ls| == 1 || HasFlushLine(ls[1..])
  {
    var ls := Lines(value);
    if |ls| == 1 {
      OneLineValue(value, after, ind);
      assert ls[1..] + BlankLine(after) == BlankLine(after);
      assert [ls[0]] == ls;
    } else {
      ManyLinesValue(value, after, ind);
    }
  }

  ghost predicate SurvivesLayout(value: string, before: bool) {
    var ls := Lines(value);
    if before then HasFlushLine(ls) else |ls| == 1 || HasFlushLine(ls[1..])
  }

  lemma {:induction false} LinesOfReindentedLayout(value: string, before: bool, after: bool, ind: string)
    requires Blank(ind) && '\r' !in value
    ensures SourceLines(Reindent(Feed(before) + value + Feed(after), ind)) == LayoutLines(Lines(value), before, after, ind)
  {
    var s := Feed(before) + value + Feed(after);
    LinesOfLayout(value, before, after);
    LinesReindent(s, ind);
    ReindentNoReturns(s, ind);
    SourceLinesWithoutReturns(Reindent(s, ind));
    LayoutLinesOf(Lines(value), before, after, ind);
  }

  function LayoutLines(ls: seq<string>, before: bool, after: bool, ind: string): (r: seq<string>)
    requires |ls| >= 1
    ensures |r| >= 1
  {
    if before then [""] + Prefixed(ls + BlankLine(after), ind)
    else [ls[0]] + Prefixed(ls[1..] + BlankLine(after), ind)
  }

  lemma {:induction false} LayoutLinesOf(ls: seq<string>, before: bool, after: bool, ind: string)
    requires |ls| >= 1
    ensures var all := BlankLine(before) + ls + BlankLine(after);
            LayoutLines(ls, before, after, ind) == [all[0]] + Prefixed(all[1..], ind)
  {
    var all := BlankLine(before) + ls + BlankLine(after);
    if before {
      assert all[1..] == ls + BlankLine(after);
    } else {
      assert all[1..] == ls[1..] + BlankLine(after);
    }
  }

  /** The raw text of a printed and re-indented block string has the printed text as its value just when no indent is lost. */
  lemma {:induction false} ValueOfLayout(value: string, before: bool, after: bool, ind: string)
    requires Blank(ind) && value != "" && Printable(value)
    ensures BlockStringValue(Reindent(Feed(before) + value + Feed(after), ind)) == value
            <==> SurvivesLayout(value, before)
  {
    NoReturns(value);
    LinesOfReindentedLayout(value, before, after, ind);
    if before {
      ValueAfterLeadingFeed(value, after, ind);
    } else {
      ValueWithoutLeadingFeed(value, after, ind);
    }
  }

  lemma {:induction false} NoReturns(value: string)
    requires CleanChars(value)
    ensures '\r' !in value
  {
    assert ForbiddenChar('\r');
  }

  lemma {:induction false} ReindentNoReturns(s: string, ind: string)
    requires '\r' !in s && '\r' !in ind
    ensures '\r' !in Reindent(s, ind)
  {
    if s != "" {
      ReindentNoReturns(s[1..], ind);
    }
  }
}
