/** The escaping of triple quotes is undone by the reader, and the closing quotes are found where they were printed. */
module BlockEscapes {
  import opened Wrappers
  import opened TextLines
  import opened BlockPrinter
  import opened BlockReader

  ghost predicate AllSource(s: string) {
    forall i | 0 <= i < |s| :: SourceCharacter(s[i])
  }

  lemma {:induction false} EscapeStep(c: char, t: string)
    requires !AtQuotes([c] + t)
    ensures Escape([c] + t) == [c] + Escape(t)
  {
    assert ([c] + t)[1..] == t;
  }

  lemma {:induction false} EscapeQuotes(t: string)
    ensures Escape(QUOTES + t) == ESCAPED_QUOTES + Escape(t)
  {
    assert AtQuotes(QUOTES + t);
    assert (QUOTES + t)[3..] == t;
  }

  lemma {:induction false} EscapeHead(s: string)
    ensures Escape(s) == "" <==> s == ""
    ensures s != "" ==> Escape(s)[0] == if AtQuotes(s) then '\\' else s[0]
  {
  }

  /** Escape never puts three quotes at its start: at most two, followed by something else or nothing. */
  lemma {:induction false} EscapeStartsPlain(w: string, tail: string)
    requires tail != "" && (tail[0] != '\"' || EndsClean(w)) && !(w == "" && tail[0] == '\"')
    ensures !AtQuotes(Escape(w) + tail)
  {
    var e := Escape(w) + tail;
    EscapeHead(w);
    if w == "" {
      assert e == tail;
    } else if AtQuotes(w) {
      assert e[0] == '\\';
    } else if w[0] == '\"' {
      var w1 := w[1..];
      EscapeHead(w1);
      assert Escape(w) == [w[0]] + Escape(w1);
      if w1 == "" {
        assert e[1] == tail[0];
      } else if AtQuotes(w1) || w1[0] != '\"' {
        assert e[1] == Escape(w1)[0];
      } else {
        var w2 := w1[1..];
        EscapeHead(w2);
        assert Escape(w1) == [w1[0]] + Escape(w2);
        if w2 == "" {
          assert e[2] == tail[0];
        } else {
          assert e[2] == Escape(w2)[0];
          assert w[2] == w2[0];
          assert w[..3] == [w[0], w[1], w[2]];
        }
      }
    }
  }

  /** No quote and no backslash is left open at the end of the text. */
  ghost predicate EndsClean(w: string) {
    if w == "" then true
    else if AtQuotes(w) then EndsClean(w[3..])
    else if |w| == 1 then w[0] != '\"' && w[0] != '\\'
    else EndsClean(w[1..])
  }

  lemma {:induction false} NotAtEscape(w: string, tail: string)
    requires w != "" && !AtQuotes(w) && tail != "" && (tail[0] != '\"' || EndsClean(w))
    ensures !AtEscapedQuotes(Escape(w) + tail)
  {
    if w[0] == '\\' {
      var rest := Escape(w[1..]) + tail;
      assert Escape(w) + tail == [w[0]] + rest;
      EscapeStartsPlain(w[1..], tail);
    }
  }

  function Prepend(p: string, r: Option<Scanned>): Option<Scanned> {
    match r case None => None case Some(t) => Some(Scanned(p + t.raw, t.rest))
  }

  lemma {:induction false} ScanChar(c: char, t: string)
    requires SourceCharacter(c) && !AtEscapedQuotes([c] + t) && !AtQuotes([c] + t)
    ensures Scan([c] + t) == Prepend([c], Scan(t))
  {
    assert ([c] + t)[1..] == t;
  }

  lemma {:induction false} ScanEscapedQuotes(t: string)
    ensures Scan(ESCAPED_QUOTES + t) == Prepend(QUOTES, Scan(t))
  {
    assert AtEscapedQuotes(ESCAPED_QUOTES + t);
    assert (ESCAPED_QUOTES + t)[4..] == t;
  }

  lemma {:induction false} PrependTwice(p: string, q: string, r: Option<Scanned>)
    ensures Prepend(p, Prepend(q, r)) == Prepend(p + q, r)
  {
    if r.Some? {
      Assoc3(p, q, r.value.raw);
    }
  }

  lemma {:induction false} PrependNothing(r: Option<Scanned>)
    ensures Prepend("", r) == r
  {
    if r.Some? {
      assert "" + r.value.raw == r.value.raw;
    }
  }

  /** Un-escaping undoes Escape, and no closing delimiter is seen inside the escaped text. */
  lemma {:induction false} ScanEscape(w: string, tail: string)
    requires AllSource(w)
    requires tail != "" && (tail[0] != '\"' || EndsClean(w))
    ensures Scan(Escape(w) + tail) == Prepend(w, Scan(tail))
    decreases |w|
  {
    if w == "" {
      assert Escape(w) + tail == tail;
      PrependNothing(Scan(tail));
    } else if AtQuotes(w) {
      var t := w[3..];
      ScanEscape(t, tail);
      Assoc3(ESCAPED_QUOTES, Escape(t), tail);
      ScanEscapedQuotes(Escape(t) + tail);
      assert w == QUOTES + t;
      PrependTwice(QUOTES, t, Scan(tail));
    } else {
      var t := w[1..];
      NotAtEscape(w, tail);
      EscapeStartsPlain(w, tail);
      ScanEscape(t, tail);
      Assoc3([w[0]], Escape(t), tail);
      ScanChar(w[0], Escape(t) + tail);
      assert w == [w[0]] + t;
      PrependTwice([w[0]], t, Scan(tail));
    }
  }

  /** A character outside the source alphabet makes the text unreadable. */
  lemma {:induction false} ScanStopsAtForeign(w: string, tail: string, k: nat)
    requires k < |w| && !SourceCharacter(w[k])
    requires tail != "" && (tail[0] != '\"' || EndsClean(w))
    ensures Scan(Escape(w) + tail) == None
    decreases |w|
  {
    if AtQuotes(w) {
      var t := w[3..];
      assert w[0] == w[..3][0] && w[1] == w[..3][1] && w[2] == w[..3][2];
      assert t[k - 3] == w[k];
      ScanStopsAtForeign(t, tail, k - 3);
      Assoc3(ESCAPED_QUOTES, Escape(t), tail);
      ScanEscapedQuotes(Escape(t) + tail);
    } else {
      var t := w[1..];
      NotAtEscape(w, tail);
      EscapeStartsPlain(w, tail);
      assert Escape(w) + tail == [w[0]] + (Escape(t) + tail);
      if k == 0 {
        assert ([w[0]] + (Escape(t) + tail))[0] == w[0];
      } else {
        assert t[k - 1] == w[k];
        ScanStopsAtForeign(t, tail, k - 1);
        if SourceCharacter(w[0]) {
          ScanChar(w[0], Escape(t) + tail);
        }
      }
    }
  }

  /** The printer forces a trailing line feed exactly if the text would leave a quote or backslash open. */
  lemma {:induction false} TrailingTestIsExact(w: string)
    ensures EndsClean(w) <==> !ForceTrailingNewLine(w)
  {
    TrailingTestFor(w);
    if w != "" {
      EscapeLast(w);
    }
  }

  /** Escaping keeps the last character. */
  lemma {:induction false} EscapeLast(w: string)
    requires w != ""
    ensures Escape(w) != "" && Escape(w)[|Escape(w)| - 1] == w[|w| - 1]
    decreases |w|
  {
    var t := if AtQuotes(w) then w[3..] else w[1..];
    if t != "" {
      EscapeLast(t);
    }
  }

  /** What the printer tests, said of the end of the text. */
  ghost predicate Closed(w: string) {
    EndsInEscapedQuotes(Escape(w)) || (!EndsIn(w, '\"') && !EndsIn(w, '\\'))
  }

  lemma {:induction false} TrailingTestFor(w: string)
    ensures EndsClean(w) <==> Closed(w)
    decreases |w|
  {
    if AtQuotes(w) {
      if w[3..] == "" {
        ClosedQuotes(w);
      } else {
        ClosedPastQuotes(w);
        TrailingTestFor(w[3..]);
      }
    } else if |w| > 1 {
      ClosedPastChar(w);
      TrailingTestFor(w[1..]);
    } else {
      ClosedShort(w);
    }
  }

  lemma {:induction false} ClosedQuotes(w: string)
    requires AtQuotes(w) && w[3..] == ""
    ensures EndsClean(w) && Closed(w)
  {
    var e := Escape(w);
    assert e == ESCAPED_QUOTES + Escape("");
    assert e == ESCAPED_QUOTES && e[|e| - 4..] == e;
  }

  /** The last character is that of any part at the end. */
  lemma {:induction false} SameEnd(w: string, k: nat, c: char)
    requires k < |w|
    ensures EndsIn(w, c) <==> EndsIn(w[k..], c)
  {
    assert w[k..][|w| - k - 1] == w[|w| - 1];
  }

  lemma {:induction false} EndsBeyondQuotes(s: string)
    requires s != ""
    ensures EndsInEscapedQuotes(ESCAPED_QUOTES + s) <==> EndsInEscapedQuotes(s)
  {
    if EndsInEscapedQuotes(ESCAPED_QUOTES + s) {
      EndsWithin(s);
    }
    if EndsInEscapedQuotes(s) {
      EndsFurther(ESCAPED_QUOTES, s);
    }
  }

  lemma {:induction false} ClosedPastQuotes(w: string)
    requires AtQuotes(w) && w[3..] != ""
    ensures Closed(w) <==> Closed(w[3..])
  {
    SameEnd(w, 3, '\"');
    SameEnd(w, 3, '\\');
    EscapeLast(w[3..]);
    EndsBeyondQuotes(Escape(w[3..]));
    assert Escape(w) == ESCAPED_QUOTES + Escape(w[3..]);
  }

  lemma {:induction false} EndsBeyondChar(c: char, t: string)
    requires t != ""
    ensures EndsInEscapedQuotes([c] + Escape(t)) <==> EndsInEscapedQuotes(Escape(t))
  {
    if EndsInEscapedQuotes([c] + Escape(t)) {
      EndsWithinChar(c, t);
    }
    if EndsInEscapedQuotes(Escape(t)) {
      EndsFurther([c], Escape(t));
    }
  }

  lemma {:induction false} ClosedPastChar(w: string)
    requires |w| > 1 && !AtQuotes(w)
    ensures Closed(w) <==> Closed(w[1..])
  {
    SameEnd(w, 1, '\"');
    SameEnd(w, 1, '\\');
    EndsBeyondChar(w[0], w[1..]);
    assert Escape(w) == [w[0]] + Escape(w[1..]);
  }

  lemma {:induction false} ClosedShort(w: string)
    requires |w| <= 1
    ensures EndsClean(w) <==> Closed(w)
  {
    EscapeLength(w);
    assert !EndsInEscapedQuotes(Escape(w));
  }

  lemma {:induction false} EndsFurther(p: string, s: string)
    requires EndsInEscapedQuotes(s)
    ensures EndsInEscapedQuotes(p + s)
  {
    assert (p + s)[|p + s| - 4..] == s[|s| - 4..];
  }

  lemma {:induction false} EndsWithinChar(c: char, t: string)
    requires EndsInEscapedQuotes([c] + Escape(t)) && t != ""
    ensures EndsInEscapedQuotes(Escape(t))
  {
    var e, et := [c] + Escape(t), Escape(t);
    if |et| == 3 {
      assert e[1] == et[0] && e[2] == et[1] && e[3] == et[2];
      assert (et + " ")[..3] == et;
      EscapeStartsPlain(t, " ");
      assert false;
    }
    assert e[|e| - 4..] == et[|et| - 4..];
  }

  /** After an escaped triple quote, another one at the end lies wholly in what follows. */
  lemma {:induction false} EndsWithin(t: string)
    requires t != "" && EndsInEscapedQuotes(ESCAPED_QUOTES + t)
    ensures EndsInEscapedQuotes(t)
  {
    var e := ESCAPED_QUOTES + t;
    assert e[|e| - 4..][0] == e[|t|] == '\\';
    if |t| >= 4 {
      assert e[|e| - 4..] == t[|t| - 4..];
    }
  }

  lemma {:induction false} EscapeLength(t: string)
    ensures |Escape(t)| >= |t|
    ensures |Escape(t)| < 4 ==> |Escape(t)| == |t|
    decreases |t|
  {
    if t != "" {
      if AtQuotes(t) {
        EscapeLength(t[3..]);
      } else {
        EscapeLength(t[1..]);
      }
    }
  }

  lemma {:induction false} EscapeBlankPrefix(b: string, s: string)
    requires Blank(b)
    ensures Escape(b + s) == b + Escape(s)
  {
    if b == "" {
      assert b + s == s;
      assert b + Escape(s) == Escape(s);
    } else {
      EscapeBlankPrefix(b[1..], s);
      assert b + s == [b[0]] + (b[1..] + s);
      assert !AtQuotes(b + s) by {
        assert (b + s)[0] == b[0];
      }
      EscapeStep(b[0], b[1..] + s);
      Assoc3([b[0]], b[1..], Escape(s));
      assert [b[0]] + b[1..] == b;
    }
  }

  lemma {:induction false} ReindentStarts(s: string, ind: string)
    requires Blank(ind)
    ensures AtQuotes(Reindent(s, ind)) <==> AtQuotes(s)
  {
    ReindentFirst(s, ind, 0);
    if |s| >= 1 && s[0] == '\"' {
      ReindentFirst(s[1..], ind, 0);
      var r1 := Reindent(s[1..], ind);
      assert Reindent(s, ind) == [s[0]] + r1;
      if |s| >= 2 && s[1] == '\"' {
        ReindentFirst(s[2..], ind, 0);
        assert s[1..][1..] == s[2..];
        var r2 := Reindent(s[2..], ind);
        assert r1 == [s[1]] + r2;
        assert Reindent(s, ind) == [s[0], s[1]] + r2;
        if |s| >= 3 && s[2] == '\"' {
          assert s[..3] == [s[0], s[1], s[2]];
          assert Reindent(s, ind)[..3] == [s[0], s[1], s[2]];
        }
      }
    }
  }

  lemma {:induction false} ReindentFirst(s: string, ind: string, z: nat)
    requires z == 0
    ensures Reindent(s, ind) == "" <==> s == ""
    ensures s != "" ==> Reindent(s, ind)[0] == s[0]
  {
  }

  /** Re-indenting and escaping do not disturb each other. */
  lemma {:induction false} EscapeReindent(s: string, ind: string)
    requires Blank(ind)
    ensures Escape(Reindent(s, ind)) == Reindent(Escape(s), ind)
    decreases |s|
  {
    if s == "" {
    } else if AtQuotes(s) {
      var t := s[3..];
      EscapeReindent(t, ind);
      assert s == QUOTES + t;
      ReindentConcat(QUOTES, t, ind);
      ReindentOneLine(QUOTES, ind);
      EscapeQuotes(Reindent(t, ind));
      EscapeQuotes(t);
      ReindentConcat(ESCAPED_QUOTES, Escape(t), ind);
      ReindentOneLine(ESCAPED_QUOTES, ind);
    } else {
      var t := s[1..];
      EscapeReindent(t, ind);
      ReindentStarts(s, ind);
      ReindentStep(s[0], Escape(t), ind);
      var r := Reindent(t, ind);
      if s[0] == '\n' {
        EscapeStep('\n', ind + r);
        EscapeBlankPrefix(ind, r);
        Assoc3("\n", ind, Escape(r));
        Assoc3("\n", ind, r);
      } else {
        EscapeStep(s[0], r);
      }
    }
  }

  lemma {:induction false} EndsCleanReindent(s: string, ind: string)
    requires Blank(ind) && EndsClean(s)
    ensures EndsClean(Reindent(s, ind))
    decreases |s|
  {
    if s == "" {
    } else if AtQuotes(s) {
      var t := s[3..];
      EndsCleanReindent(t, ind);
      assert s == QUOTES + t;
      ReindentConcat(QUOTES, t, ind);
      ReindentOneLine(QUOTES, ind);
      assert (QUOTES + Reindent(t, ind))[3..] == Reindent(t, ind);
      assert AtQuotes(QUOTES + Reindent(t, ind));
    } else {
      var t := s[1..];
      assert EndsClean(t);
      EndsCleanReindent(t, ind);
      ReindentStarts(s, ind);
      var r := Reindent(t, ind);
      if s[0] == '\n' {
        EndsCleanBlankPrefix(ind, r);
        assert Reindent(s, ind) == ['\n'] + (ind + r);
        EndsCleanStep('\n', ind + r);
      } else {
        ReindentFirst(t, ind, 0);
        EndsCleanStep(s[0], r);
      }
    }
  }

  lemma {:induction false} EndsCleanStep(c: char, t: string)
    requires !AtQuotes([c] + t) && EndsClean(t) && (t != "" || (c != '\"' && c != '\\'))
    ensures EndsClean([c] + t)
  {
    assert ([c] + t)[1..] == t;
  }

  lemma {:induction false} EndsCleanBlankPrefix(b: string, s: string)
    requires Blank(b) && EndsClean(s)
    ensures EndsClean(b + s)
  {
    if b == "" {
      assert b + s == s;
    } else {
      EndsCleanBlankPrefix(b[1..], s);
      assert b + s == [b[0]] + (b[1..] + s);
      assert (b + s)[0] == b[0];
      EndsCleanStep(b[0], b[1..] + s);
    }
  }
}
