/** Printing a text as a block string, re-indenting it, and reading it back. */
module BlockRoundTrip {
  import opened Wrappers
  import opened TextLines
  import opened BlockScanner
  import opened BlockPrinter
  import opened BlockReader
  import opened BlockLayout
  import opened BlockEscapes

  // ---- the lines Python sees, said of the characters of the text

  /** Python starts a second line: some break character has a character after it. */
  predicate BreaksInside(s: string) {
    |s| >= 2 && (IsPythonBreak(s[0]) || BreaksInside(s[1..]))
  }

  predicate IsPlainChar(c: char) {
    !IsPythonBreak(c) && !IsBlankChar(c)
  }

  /** A Python line after the first starts with a character that is neither space nor tab. */
  predicate PlainStart(s: string) {
    |s| >= 2 && ((IsPythonBreak(s[0]) && IsPlainChar(s[1])) || PlainStart(s[1..]))
  }

  ghost predicate PlainLine(line: string) {
    line != "" && !IsBlankChar(line[0])
  }

  ghost predicate HasPlainLine(ls: seq<string>) {
    exists i :: 0 <= i < |ls| && PlainLine(ls[i])
  }

  lemma {:induction false} HasPlainLineStep(h: string, t: seq<string>)
    ensures HasPlainLine([h] + t) <==> PlainLine(h) || HasPlainLine(t)
  {
    var ls := [h] + t;
    assert ls[0] == h;
    assert forall i | 0 <= i < |t| :: ls[i + 1] == t[i];
    if HasPlainLine(t) {
      var i :| 0 <= i < |t| && PlainLine(t[i]);
      assert PlainLine(ls[i + 1]);
    }
    if HasPlainLine(ls) {
      var i :| 0 <= i < |ls| && PlainLine(ls[i]);
      assert i == 0 || ls[i] == t[i - 1];
    }
  }

  lemma {:induction false} SplitLinesByChars(s: string)
    requires s != "" && '\r' !in s
    ensures |SplitLines(s)| > 1 <==> BreaksInside(s)
    ensures HasPlainLine(SplitLines(s)[1..]) <==> PlainStart(s)
    ensures PlainLine(SplitLines(s)[0]) <==> IsPlainChar(s[0])
  {
    var t := s[1..];
    if t == "" {
      assert SplitLines(s)[1..] == [];
    } else {
      SplitLinesByChars(t);
      var r := SplitLines(t);
      if IsPythonBreak(s[0]) {
        assert SplitLines(s)[1..] == r;
        assert r == [r[0]] + r[1..];
        HasPlainLineStep(r[0], r[1..]);
      } else {
        assert SplitLines(s)[1..] == r[1..];
      }
    }
  }

  lemma {:induction false} BreaksInsideStep(c: char, t: string)
    ensures BreaksInside([c] + t) <==> t != "" && (IsPythonBreak(c) || BreaksInside(t))
    ensures PlainStart([c] + t) <==> t != "" && ((IsPythonBreak(c) && IsPlainChar(t[0])) || PlainStart(t))
  {
    assert ([c] + t)[1..] == t;
  }

  lemma {:induction false} QuoteSteps(c: char, t: string)
    requires c == '\"' || c == '\\'
    ensures BreaksInside([c] + t) == BreaksInside(t) && PlainStart([c] + t) == PlainStart(t)
  {
    BreaksInsideStep(c, t);
  }

  /** Escaping changes neither where Python breaks lines nor how its lines start. */
  lemma {:induction false} EscapeKeepsBreaks(s: string)
    ensures BreaksInside(Escape(s)) == BreaksInside(s)
    ensures PlainStart(Escape(s)) == PlainStart(s)
    decreases |s|
  {
    if s == "" {
    } else if AtQuotes(s) {
      var t := s[3..];
      EscapeKeepsBreaks(t);
      var e := Escape(t);
      assert s == ['\"'] + (['\"'] + (['\"'] + t));
      assert Escape(s) == ['\\'] + (['\"'] + (['\"'] + (['\"'] + e)));
      QuoteSteps('\"', t);
      QuoteSteps('\"', ['\"'] + t);
      QuoteSteps('\"', ['\"'] + (['\"'] + t));
      QuoteSteps('\"', e);
      QuoteSteps('\"', ['\"'] + e);
      QuoteSteps('\"', ['\"'] + (['\"'] + e));
      QuoteSteps('\\', ['\"'] + (['\"'] + (['\"'] + e)));
    } else {
      EscapeKeepsBreaks(s[1..]);
      EscapeHead(s[1..]);
      BreaksInsideStep(s[0], s[1..]);
      BreaksInsideStep(s[0], Escape(s[1..]));
      assert [s[0]] + s[1..] == s;
    }
  }

  lemma {:induction false} EscapeNoReturns(s: string)
    requires '\r' !in s
    ensures '\r' !in Escape(s)
    decreases |s|
  {
    if s != "" {
      EscapeNoReturns(if AtQuotes(s) then s[3..] else s[1..]);
    }
  }

  /** The two line tests of the printer, said of the printed text itself. */
  lemma {:induction false} PrinterLineTests(value: string)
    requires '\r' !in value
    ensures |PrintedLines(Escape(value))| > 1 <==> BreaksInside(value)
    ensures ForceLeadingNewLine(Escape(value)) <==> BreaksInside(value) && !PlainStart(value)
  {
    var e := Escape(value);
    EscapeKeepsBreaks(value);
    EscapeNoReturns(value);
    EscapeHead(value);
    if value != "" {
      SplitLinesByChars(e);
      var ls := SplitLines(e);
      assert forall i | 1 <= i < |ls| :: ls[1..][i - 1] == ls[i];
      if !ForceLeadingNewLine(e) && |ls| > 1 {
        var i :| 1 <= i < |ls| && !(ls[i] == "" || IsBlankChar(ls[i][0]));
        assert PlainLine(ls[1..][i - 1]);
      }
    }
  }

  lemma {:induction false} LeadingNewLineTest(value: string, minimize: bool)
    requires '\r' !in value
    ensures BreaksInside(value) ==> (LeadingNewLine(value, minimize) <==> !minimize || !PlainStart(value))
    ensures !BreaksInside(value) && Indented(value) ==> !LeadingNewLine(value, minimize)
  {
    PrinterLineTests(value);
  }

  // ---- the exact condition of the round trip

  /**
   The text keeps its indent when printed. It can lose it only where Python's idea of a line, which has
   further break characters, differs from GraphQL's.
   */
  ghost predicate KeepsIndent(value: string, minimize: bool) {
    var ls := Lines(value);
    if |ls| == 1 then
      !Indented(value) || !BreaksInside(value) || (minimize && PlainStart(value))
    else
      !minimize || !PlainStart(value) || HasFlushLine(ls[1..])
  }

  lemma {:induction false} FeedBreaksInside(s: string)
    requires |Lines(s)| > 1 && s[|s| - 1] != '\n'
    ensures BreaksInside(s)
  {
    assert Lines("") == [""];
    assert |s| >= 2;
    if s[0] != '\n' {
      FeedBreaksInside(s[1..]);
    }
  }

  lemma {:induction false} FlushIndent(value: string)
    requires value != "" && Printable(value) && |Lines(value)| == 1
    ensures HasFlushLine(Lines(value)) <==> !Indented(value)
  {
    JoinLines(value);
    assert Lines(value) == [value];
  }

  lemma {:induction false} LastLineNotFeed(value: string)
    requires value != "" && Printable(value)
    ensures value[|value| - 1] != '\n'
  {
    var front := value[..|value| - 1];
    LinesSnocFeed(front);
    assert value == front + [value[|value| - 1]];
  }

  lemma {:induction false} SurvivesExactly(value: string, minimize: bool)
    requires value != "" && Printable(value)
    ensures SurvivesLayout(value, LeadingNewLine(value, minimize)) <==> KeepsIndent(value, minimize)
  {
    NoReturns(value);
    LeadingNewLineTest(value, minimize);
    if |Lines(value)| == 1 {
      FlushIndent(value);
    } else {
      LastLineNotFeed(value);
      FeedBreaksInside(value);
    }
  }

  // ---- reading the printed text

  /** The printed text, re-indented, in the order in which the reader meets it. */
  lemma {:induction false} PrintedShape(value: string, minimize: bool, ind: string)
    requires Blank(ind)
    ensures var b, a := Feed(LeadingNewLine(value, minimize)), Feed(TrailingNewLine(value, minimize));
            Reindent(PrintBlockString(value, minimize), ind) ==
            QUOTES + (Reindent(b, ind) + (Reindent(Escape(value), ind) + (Reindent(a, ind) + QUOTES)))
  {
    var b, a, e := Feed(LeadingNewLine(value, minimize)), Feed(TrailingNewLine(value, minimize)), Escape(value);
    ReindentOneLine(QUOTES, ind);
    ReindentConcat(a, QUOTES, ind);
    ReindentConcat(e, a + QUOTES, ind);
    ReindentConcat(b, e + (a + QUOTES), ind);
    ReindentConcat(QUOTES, b + (e + (a + QUOTES)), ind);
    Assoc3(QUOTES + b + e, a, QUOTES);
    Assoc3(QUOTES + b, e, a + QUOTES);
    Assoc3(QUOTES, b, e + (a + QUOTES));
  }

  lemma {:induction false} FeedReindented(wanted: bool, ind: string)
    ensures Reindent(Feed(wanted), ind) == if wanted then "\n" + ind else ""
  {
    if wanted {
      ReindentStep('\n', "", ind);
      assert "\n" + "" == "\n";
      assert ("\n" + ind) + "" == "\n" + ind;
    }
  }

  lemma {:induction false} BlankIsItsOwnEscape(b: string)
    requires forall i | 0 <= i < |b| :: b[i] != '\"'
    ensures Escape(b) == b
  {
    if b != "" {
      BlankIsItsOwnEscape(b[1..]);
      assert b == [b[0]] + b[1..];
    }
  }

  lemma {:induction false} ScanClosing(rest: string)
    ensures Scan(QUOTES + rest) == Some(Scanned("", rest))
  {
    assert (QUOTES + rest)[3..] == rest;
  }

  /** A line feed with indentation is read as itself. */
  lemma {:induction false} ScanFeed(wanted: bool, ind: string, tail: string)
    requires Blank(ind) && tail != ""
    ensures Scan(Reindent(Feed(wanted), ind) + tail) == Prepend(Reindent(Feed(wanted), ind), Scan(tail))
  {
    FeedReindented(wanted, ind);
    if wanted {
      var w := "\n" + ind;
      BlankIsItsOwnEscape(w);
      assert AllSource(w);
      EndsCleanBlankPrefix(ind, "");
      assert ind + "" == ind;
      EndsCleanStep('\n', ind);
      ScanEscape(w, tail);
    } else {
      assert "" + tail == tail;
      PrependNothing(Scan(tail));
    }
  }

  lemma {:induction false} TailFirst(value: string, minimize: bool, ind: string, rest: string)
    requires Blank(ind)
    ensures var tail := Reindent(Feed(TrailingNewLine(value, minimize)), ind) + (QUOTES + rest);
            tail != "" && (tail[0] != '\"' || EndsClean(Reindent(value, ind)))
  {
    FeedReindented(TrailingNewLine(value, minimize), ind);
    if !TrailingNewLine(value, minimize) {
      TrailingTestIsExact(value);
      EndsCleanReindent(value, ind);
    }
  }

  lemma {:induction false} ReindentSource(s: string, ind: string)
    requires Blank(ind)
    ensures AllSource(Reindent(s, ind)) <==> AllSource(s)
  {
    if s != "" {
      ReindentSource(s[1..], ind);
      var h := if s[0] == '\n' then "\n" + ind else [s[0]];
      AllSourceConcat(h, Reindent(s[1..], ind));
      AllSourceConcat([s[0]], s[1..]);
      assert [s[0]] + s[1..] == s;
      assert h[0] == s[0];
      assert AllSource(h) <==> SourceCharacter(s[0]);
      assert AllSource([s[0]]) <==> SourceCharacter([s[0]][0]);
    }
  }

  lemma {:induction false} AllSourceConcat(a: string, b: string)
    ensures AllSource(a + b) <==> AllSource(a) && AllSource(b)
  {
    var s := a + b;
    assert forall i | 0 <= i < |a| :: s[i] == a[i];
    if AllSource(s) {
      forall i | 0 <= i < |b|
        ensures SourceCharacter(b[i])
      {
        assert s[|a| + i] == b[i];
      }
    }
  }

  /** The reader stops at the printed closing quotes and hands over the re-indented raw text. */
  lemma {:induction false} ScanPrinted(value: string, minimize: bool, ind: string, rest: string)
    requires Blank(ind)
    ensures var b, a := LeadingNewLine(value, minimize), TrailingNewLine(value, minimize);
            Scan(Reindent(Feed(b), ind) + (Reindent(Escape(value), ind) + (Reindent(Feed(a), ind) + (QUOTES + rest)))) ==
            if AllSource(value) then Some(Scanned(Reindent(Feed(b) + value + Feed(a), ind), rest)) else None
  {
    var b, a := LeadingNewLine(value, minimize), TrailingNewLine(value, minimize);
    var bi, vi, ai := Reindent(Feed(b), ind), Reindent(value, ind), Reindent(Feed(a), ind);
    var tail := ai + (QUOTES + rest);
    TailFirst(value, minimize, ind, rest);
    EscapeReindent(value, ind);
    ReindentSource(value, ind);
    var middle := Escape(vi) + tail;
    ScanFeed(b, ind, middle);
    if AllSource(value) {
      ScanClosing(rest);
      ScanFeed(a, ind, QUOTES + rest);
      ScanEscape(vi, tail);
      PrependTwice(vi, ai, Some(Scanned("", rest)));
      PrependTwice(bi, vi + ai, Some(Scanned("", rest)));
      ReindentConcat(Feed(b), value, ind);
      ReindentConcat(Feed(b) + value, Feed(a), ind);
      Assoc3(bi, vi, ai);
      assert (bi + (vi + ai)) + "" == bi + (vi + ai);
    } else {
      var k :| 0 <= k < |vi| && !SourceCharacter(vi[k]);
      ScanStopsAtForeign(vi, tail, k);
    }
  }

  lemma {:induction false} ReadPrinted(value: string, minimize: bool, ind: string, rest: string)
    requires Blank(ind)
    ensures var b, a := LeadingNewLine(value, minimize), TrailingNewLine(value, minimize);
            ReadBlockString(Reindent(PrintBlockString(value, minimize), ind) + rest) ==
            if AllSource(value) then Some(ReadResult(BlockStringValue(Reindent(Feed(b) + value + Feed(a), ind)), rest)) else None
  {
    var bi := Reindent(Feed(LeadingNewLine(value, minimize)), ind);
    var ai := Reindent(Feed(TrailingNewLine(value, minimize)), ind);
    var ei := Reindent(Escape(value), ind);
    PrintedShape(value, minimize, ind);
    ScanPrinted(value, minimize, ind, rest);
    Regroup(bi, ei, ai, rest);
    var text := QUOTES + (bi + (ei + (ai + (QUOTES + rest))));
    assert text[3..] == bi + (ei + (ai + (QUOTES + rest)));
  }

  lemma {:induction false} Regroup(b: string, e: string, a: string, rest: string)
    ensures QUOTES + (b + (e + (a + QUOTES))) + rest == QUOTES + (b + (e + (a + (QUOTES + rest))))
  {
    Assoc3(QUOTES, b + (e + (a + QUOTES)), rest);
    Assoc3(b, e + (a + QUOTES), rest);
    Assoc3(e, a + QUOTES, rest);
    Assoc3(a, QUOTES, rest);
  }

  lemma {:induction false} EmptyValue(minimize: bool, ind: string)
    ensures BlockStringValue(Reindent(Feed(LeadingNewLine("", minimize)) + "" + Feed(TrailingNewLine("", minimize)), ind)) == ""
    ensures KeepsIndent("", minimize) && AllSource("")
  {
    assert !LeadingNewLine("", minimize) && !TrailingNewLine("", minimize);
    assert "" + "" + "" == "";
    assert Dedented([""]) == [""];
    assert TrimFront([""]) == [];
  }

  /**
   Round trip: whatever follows it, the printed and re-indented text of a printable value is read back as exactly
   that value, up to exactly the printed closing quotes, if and only if the value uses source characters only
   and keeps its indent.
   */
  lemma {:induction false} BlockStringRoundTrip(value: string, minimize: bool, ind: string, rest: string)
    requires Printable(value) && Blank(ind)
    ensures ReadBlockString(Reindent(PrintBlockString(value, minimize), ind) + rest) == Some(ReadResult(value, rest))
            <==> AllSource(value) && KeepsIndent(value, minimize)
  {
    ReadPrinted(value, minimize, ind, rest);
    if value == "" {
      EmptyValue(minimize, ind);
    } else {
      SurvivesExactly(value, minimize);
      ValueOfLayout(value, LeadingNewLine(value, minimize), TrailingNewLine(value, minimize), ind);
    }
  }

  /** The line feed is the only character of the text at which Python breaks lines. */
  ghost predicate OnlyFeedsBreak(s: string) {
    forall i | 0 <= i < |s| :: IsPythonBreak(s[i]) ==> s[i] == '\n'
  }

  lemma {:induction false} PlainStartIsFlush(s: string)
    requires OnlyFeedsBreak(s) && PlainStart(s)
    ensures HasFlushLine(Lines(s)[1..])
  {
    var t := s[1..];
    var r := Lines(t);
    if s[0] == '\n' {
      assert Lines(s)[1..] == r;
      if IsPlainChar(s[1]) {
        assert t[0] == s[1];
        LinesStep(t[0], t[1..]);
        assert [t[0]] + t[1..] == t;
        assert r[0][0] == s[1];
        assert !Blank(r[0]) && !Indented(r[0]);
      } else {
        PlainStartIsFlush(t);
        var i :| 0 <= i < |r[1..]| && !Blank(r[1..][i]) && !Indented(r[1..][i]);
        assert r[i + 1] == r[1..][i];
      }
    } else {
      assert s[0] == s[0] && !IsPythonBreak(s[0]);
      PlainStartIsFlush(t);
      assert Lines(s)[1..] == r[1..];
    }
  }

  lemma {:induction false} NoFeedNoBreak(s: string)
    requires OnlyFeedsBreak(s) && |Lines(s)| == 1
    ensures !BreaksInside(s)
  {
    if |s| >= 2 {
      NoFeedNoBreak(s[1..]);
    }
  }

  /** With no further break characters in the text, the indent is always kept. */
  lemma {:induction false} OrdinaryTextKeepsIndent(value: string, minimize: bool)
    requires OnlyFeedsBreak(value)
    ensures KeepsIndent(value, minimize)
  {
    if |Lines(value)| == 1 {
      NoFeedNoBreak(value);
    } else if PlainStart(value) {
      PlainStartIsFlush(value);
    }
  }

  const TWO_PYTHON_LINES := " a\U{2028}b"

  lemma {:induction false} TwoPythonLines()
    ensures Lines(TWO_PYTHON_LINES) == [TWO_PYTHON_LINES]
    ensures Printable(TWO_PYTHON_LINES) && AllSource(TWO_PYTHON_LINES) && BreaksInside(TWO_PYTHON_LINES)
  {
    var value := TWO_PYTHON_LINES;
    LinesOfOneLine(value);
    assert value[1] == 'a';
    assert value[1..][1..] == ['\U{2028}', 'b'];
  }

  /** A line separator makes Python see two lines where GraphQL sees one: the leading space is lost. */
  lemma {:induction false} IndentLostAtLineSeparator()
    ensures Printable(TWO_PYTHON_LINES) && AllSource(TWO_PYTHON_LINES)
    ensures ReadBlockString(PrintBlockString(TWO_PYTHON_LINES, false)) != Some(ReadResult(TWO_PYTHON_LINES, ""))
  {
    TwoPythonLines();
    var printed := PrintBlockString(TWO_PYTHON_LINES, false);
    BlockStringRoundTrip(TWO_PYTHON_LINES, false, "", "");
    ReindentByNothing(printed);
    assert printed + "" == printed;
    assert !KeepsIndent(TWO_PYTHON_LINES, false);
  }

  lemma {:induction false} ReindentByNothing(s: string)
    ensures Reindent(s, "") == s
  {
    if s != "" {
      ReindentByNothing(s[1..]);
      assert s == [s[0]] + s[1..];
    }
  }
}
