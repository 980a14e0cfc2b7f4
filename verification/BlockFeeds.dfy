/** Where the printer puts its two line feeds, said of the text alone. */
module BlockFeeds {
  import opened TextLines
  import opened BlockPrinter
  import opened BlockEscapes
  import opened BlockRoundTrip

  /** How many quotes the text ends in. */
  function QuotesAtEnd(s: string): (n: nat)
    ensures n <= |s|
  {
    if s == "" || s[|s| - 1] != '\"' then 0 else 1 + QuotesAtEnd(s[..|s| - 1])
  }

  /** A quote in front counts only if quotes are all there is. */
  lemma {:induction false} QuotesPastChar(w: string)
    requires w != ""
    ensures QuotesAtEnd(w) == if w[0] == '\"' && QuotesAtEnd(w[1..]) == |w| - 1 then |w| else QuotesAtEnd(w[1..])
    decreases |w|
  {
    var t := w[1..];
    if t == "" {
      assert w[..0] == "";
    } else {
      assert t[|t| - 1] == w[|w| - 1];
      if w[|w| - 1] == '\"' {
        assert w[..|w| - 1][1..] == t[..|t| - 1];
        QuotesPastChar(w[..|w| - 1]);
      }
    }
  }

  lemma {:induction false} QuotesPastQuotes(w: string)
    requires AtQuotes(w)
    ensures QuotesAtEnd(w) == if QuotesAtEnd(w[3..]) == |w| - 3 then |w| else QuotesAtEnd(w[3..])
  {
    QuotesPastChar(w);
    QuotesPastChar(w[1..]);
    QuotesPastChar(w[1..][1..]);
    assert w[1..][1..][1..] == w[3..];
  }

  predicate QuotesByThrees(w: string) {
    QuotesAtEnd(w) > 0 && QuotesAtEnd(w) % 3 == 0
  }

  lemma {:induction false} ThreesPastQuotes(w: string)
    requires AtQuotes(w) && w[3..] != ""
    ensures QuotesByThrees(w) <==> QuotesByThrees(w[3..])
  {
    QuotesPastQuotes(w);
  }

  lemma {:induction false} ThreesPastChar(w: string)
    requires !AtQuotes(w) && |w| > 1
    ensures QuotesByThrees(w) <==> QuotesByThrees(w[1..])
  {
    QuotesPastChar(w);
    if QuotesAtEnd(w) == |w| {
      AllQuotes(w);
    }
  }

  lemma {:induction false} EscapedEndPastQuotes(w: string)
    requires AtQuotes(w) && w[3..] != ""
    ensures EndsInEscapedQuotes(Escape(w)) <==> EndsInEscapedQuotes(Escape(w[3..]))
  {
    EscapeLast(w[3..]);
    EndsBeyondQuotes(Escape(w[3..]));
    assert Escape(w) == ESCAPED_QUOTES + Escape(w[3..]);
  }

  lemma {:induction false} EscapedEndPastChar(w: string)
    requires !AtQuotes(w) && |w| > 1
    ensures EndsInEscapedQuotes(Escape(w)) <==> EndsInEscapedQuotes(Escape(w[1..]))
  {
    EndsBeyondChar(w[0], w[1..]);
    assert Escape(w) == [w[0]] + Escape(w[1..]);
  }

  lemma {:induction false} JustQuotes(w: string)
    requires AtQuotes(w) && w[3..] == ""
    ensures EndsInEscapedQuotes(Escape(w)) && QuotesByThrees(w)
  {
    JustQuotesByThrees(w);
    EscapedQuotesEnd(w);
  }

  lemma {:induction false} JustQuotesByThrees(w: string)
    requires AtQuotes(w) && w[3..] == ""
    ensures QuotesByThrees(w)
  {
    QuotesPastQuotes(w);
    assert QuotesAtEnd(w[3..]) == 0;
  }

  lemma {:induction false} EscapedQuotesEnd(w: string)
    requires AtQuotes(w) && w[3..] == ""
    ensures EndsInEscapedQuotes(Escape(w))
  {
    ClosedQuotes(w);
    assert EndsIn(w, '\"');
  }

  /** The escaped text ends in an escaped triple quote exactly if the quotes at its end go by threes. */
  lemma {:induction false} EscapedEnd(w: string)
    ensures EndsInEscapedQuotes(Escape(w)) <==> QuotesByThrees(w)
    decreases |w|
  {
    if |w| <= 1 {
      EscapeLength(w);
    } else if !AtQuotes(w) {
      ThreesPastChar(w);
      EscapedEndPastChar(w);
      EscapedEnd(w[1..]);
    } else if w[3..] == "" {
      JustQuotes(w);
    } else {
      ThreesPastQuotes(w);
      EscapedEndPastQuotes(w);
      EscapedEnd(w[3..]);
    }
  }

  lemma {:induction false} AllQuotes(w: string)
    requires QuotesAtEnd(w) == |w|
    ensures |w| >= 3 ==> AtQuotes(w)
  {
    if |w| >= 3 {
      QuotesPastChar(w);
      QuotesPastChar(w[1..]);
      QuotesPastChar(w[1..][1..]);
    }
  }

  /** Left open: a backslash at the end, or quotes there that do not go by threes. */
  predicate LeftOpen(value: string) {
    QuotesAtEnd(value) % 3 != 0 || EndsIn(value, '\\')
  }

  /** Worth several lines: a break inside, more than 70 characters, or a quote or backslash at the end. */
  predicate Wide(value: string) {
    BreaksInside(value) || |value| > 70 || EndsIn(value, '\"') || EndsIn(value, '\\')
  }

  lemma {:induction false} TrailingTest(value: string)
    ensures ForceTrailingNewLine(value) <==> LeftOpen(value)
  {
    EscapedEnd(value);
  }

  lemma {:induction false} MultipleLinesTest(value: string, minimize: bool)
    requires '\r' !in value
    ensures PrintAsMultipleLines(value, minimize) <==> !minimize && Wide(value)
  {
    PrinterLineTests(value);
    EscapedEnd(value);
  }

  /**
   Where the line feeds go. The one behind the text is there if the text is wide and not minimized, or is left open. The
   one in front is there if the text is wide and not minimized, unless it is on one line and starts with a blank, or if
   every further line of it is empty or starts with a blank.
   */
  lemma {:induction false} FeedsExactly(value: string, minimize: bool)
    requires '\r' !in value
    ensures var before := (!minimize && Wide(value) && (BreaksInside(value) || value == "" || !IsBlankChar(value[0])))
                          || (BreaksInside(value) && !PlainStart(value));
            var after := (!minimize && Wide(value)) || LeftOpen(value);
            PrintBlockString(value, minimize) ==
            "\"\"\"" + (if before then "\n" else "") + Escape(value) + (if after then "\n" else "") + "\"\"\""
  {
    MultipleLinesTest(value, minimize);
    TrailingTest(value);
    PrinterLineTests(value);
  }

  /** Without breaks, blanks in front, and quotes or a backslash at the end, three lines are printed from 71 characters on. */
  lemma {:induction false} ThreeLinesExactly(value: string)
    requires '\r' !in value && !BreaksInside(value) && value != "" && !IsBlankChar(value[0])
    requires value[|value| - 1] != '\"' && value[|value| - 1] != '\\'
    ensures PrintBlockString(value, false) ==
            if |value| > 70 then "\"\"\"\n" + Escape(value) + "\n\"\"\"" else "\"\"\"" + Escape(value) + "\"\"\""
    ensures PrintBlockString(value, true) == "\"\"\"" + Escape(value) + "\"\"\""
  {
    FeedsExactly(value, false);
    FeedsExactly(value, true);
    PadsTo(Escape(value));
  }

  lemma {:induction false} PadsTo(e: string)
    ensures "\"\"\"" + "\n" + e + "\n" + "\"\"\"" == "\"\"\"\n" + e + "\n\"\"\""
    ensures "\"\"\"" + "" + e + "" + "\"\"\"" == "\"\"\"" + e + "\"\"\""
  {
    assert "\"\"\"" + "\n" == "\"\"\"\n";
    assert "\n" + "\"\"\"" == "\n\"\"\"";
    assert "\"\"\"\n" + e + "\n" + "\"\"\"" == "\"\"\"\n" + e + ("\n" + "\"\"\"");
    assert "\"\"\"" + "" == "\"\"\"";
    assert "\"\"\"" + e + "" == "\"\"\"" + e;
  }
}
