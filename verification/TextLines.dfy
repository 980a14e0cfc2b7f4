/** Lines of a text: splitting at line feeds, gluing back, and the two white-space characters of GraphQL. */
module TextLines {

  predicate IsBlankChar(c: char) {
    c == ' ' || c == '\t'
  }

  /** Only spaces and tabs (the empty line included). */
  predicate Blank(line: string) {
    forall i | 0 <= i < |line| :: IsBlankChar(line[i])
  }

  predicate Indented(line: string) {
    line != "" && IsBlankChar(line[0])
  }

  /** The pieces between line feeds; there is always at least one. */
  function Lines(s: string): (ls: seq<string>)
    ensures |ls| >= 1
  {
    if s == "" then [""]
    else
      var rest := Lines(s[1..]);
      if s[0] == '\n' then [""] + rest else [[s[0]] + rest[0]] + rest[1..]
  }

  function Join(ls: seq<string>): string {
    if ls == [] then ""
    else if |ls| == 1 then ls[0]
    else ls[0] + "\n" + Join(ls[1..])
  }

  ghost predicate OneLine(line: string) {
    '\n' !in line
  }

  lemma {:induction false} LinesStep(c: char, t: string)
    ensures Lines([c] + t) == if c == '\n' then [""] + Lines(t) else [[c] + Lines(t)[0]] + Lines(t)[1..]
  {
    assert ([c] + t)[1..] == t;
  }

  lemma {:induction false} LinesConcat(a: string, b: string)
    ensures Lines(a + "\n" + b) == Lines(a) + Lines(b)
  {
    if a == "" {
      assert a + "\n" + b == ['\n'] + b;
      LinesStep('\n', b);
    } else {
      var t := a[1..] + "\n" + b;
      LinesConcat(a[1..], b);
      assert a + "\n" + b == [a[0]] + t;
      LinesStep(a[0], t);
      HeadOfConcat(a[0], Lines(a[1..]), Lines(b));
    }
  }

  lemma {:induction false} HeadOfConcat(c: char, p: seq<string>, q: seq<string>)
    requires |p| >= 1
    ensures [[c] + (p + q)[0]] + (p + q)[1..] == [[c] + p[0]] + p[1..] + q
    ensures [""] + (p + q) == [""] + p + q
  {
  }

  /** Appending one character other than a line feed makes the last line longer by it. */
  lemma {:induction false} LinesSnoc(s: string, c: char)
    requires c != '\n'
    ensures Lines(s + [c]) == LastExtended(Lines(s), c)
  {
    if s == "" {
      assert s + [c] == [c] + "";
      LinesStep(c, "");
      assert [c] + "" == "" + [c];
    } else {
      LinesSnoc(s[1..], c);
      assert s + [c] == [s[0]] + (s[1..] + [c]);
      LinesStep(s[0], s[1..] + [c]);
      LastExtendedHead(Lines(s[1..]), s[0], c);
    }
  }

  ghost function LastExtended(ls: seq<string>, c: char): (r: seq<string>)
    requires |ls| >= 1
    ensures |r| == |ls|
  {
    ls[..|ls| - 1] + [ls[|ls| - 1] + [c]]
  }

  lemma {:induction false} LastExtendedHead(ls: seq<string>, h: char, c: char)
    requires |ls| >= 1
    ensures LastExtended([""] + ls, c) == [""] + LastExtended(ls, c)
    ensures LastExtended([[h] + ls[0]] + ls[1..], c) == [[h] + LastExtended(ls, c)[0]] + LastExtended(ls, c)[1..]
  {
    if |ls| == 1 {
      assert [h] + (ls[0] + [c]) == ([h] + ls[0]) + [c];
    }
  }

  lemma {:induction false} LinesSnocFeed(s: string)
    ensures Lines(s + "\n") == Lines(s) + [""]
  {
    LinesConcat(s, "");
    assert s + "\n" + "" == s + "\n";
  }

  lemma {:induction false} LinesAreSingle(s: string)
    ensures forall i | 0 <= i < |Lines(s)| :: OneLine(Lines(s)[i])
  {
    if s != "" {
      LinesAreSingle(s[1..]);
    }
  }

  /** The line breaks decide the text: splitting then gluing gives it back. */
  lemma {:induction false} JoinLines(s: string)
    ensures Join(Lines(s)) == s
  {
    if s != "" {
      JoinLines(s[1..]);
      var r := Lines(s[1..]);
      if s[0] == '\n' {
        assert ([""] + r)[1..] == r;
        assert Join([""] + r) == "" + "\n" + Join(r);
        assert s == "" + "\n" + s[1..];
      } else {
        JoinHead(s[0], r);
        assert s == [s[0]] + s[1..];
      }
    }
  }

  lemma {:induction false} JoinStep(h: string, t: seq<string>)
    requires |t| >= 1
    ensures Join([h] + t) == h + "\n" + Join(t)
  {
    assert ([h] + t)[1..] == t;
  }

  lemma {:induction false} JoinHead(c: char, ls: seq<string>)
    requires |ls| >= 1
    ensures Join([[c] + ls[0]] + ls[1..]) == [c] + Join(ls)
  {
    if |ls| > 1 {
      JoinStep([c] + ls[0], ls[1..]);
      Assoc([c], ls[0], "\n", Join(ls[1..]));
    }
  }

  lemma {:induction false} Assoc(a: string, b: string, c: string, d: string)
    ensures (a + b) + c + d == a + (b + c + d)
  {
  }

  lemma {:induction false} Assoc3(a: string, b: string, c: string)
    ensures (a + b) + c == a + (b + c)
  {
  }

  lemma {:induction false} LinesOfOneLine(s: string)
    requires OneLine(s)
    ensures Lines(s) == [s]
  {
    if s != "" {
      LinesOfOneLine(s[1..]);
      assert [s[0]] + s[1..] == s;
    }
  }

  /** Gluing then splitting gives back any non-empty list of single lines. */
  lemma {:induction false} LinesJoin(ls: seq<string>)
    requires |ls| >= 1
    requires forall i | 0 <= i < |ls| :: OneLine(ls[i])
    ensures Lines(Join(ls)) == ls
  {
    LinesOfOneLine(ls[0]);
    if |ls| > 1 {
      LinesJoin(ls[1..]);
      LinesConcat(ls[0], Join(ls[1..]));
    } else {
      assert ls == [ls[0]];
    }
  }

  /** Python's str.replace("\n", "\n" + indentation). */
  function Reindent(s: string, indentation: string): string {
    if s == "" then ""
    else (if s[0] == '\n' then "\n" + indentation else [s[0]]) + Reindent(s[1..], indentation)
  }

  lemma {:induction false} ReindentStep(c: char, t: string, ind: string)
    ensures Reindent([c] + t, ind) == (if c == '\n' then "\n" + ind else [c]) + Reindent(t, ind)
  {
    assert ([c] + t)[1..] == t;
  }

  lemma {:induction false} ReindentConcat(a: string, b: string, ind: string)
    ensures Reindent(a + b, ind) == Reindent(a, ind) + Reindent(b, ind)
  {
    if a == "" {
      assert a + b == b;
    } else {
      ReindentConcat(a[1..], b, ind);
      ReindentStep(a[0], a[1..] + b, ind);
      assert a + b == [a[0]] + (a[1..] + b);
      Assoc3(if a[0] == '\n' then "\n" + ind else [a[0]], Reindent(a[1..], ind), Reindent(b, ind));
    }
  }

  lemma {:induction false} ReindentOneLine(a: string, ind: string)
    requires OneLine(a)
    ensures Reindent(a, ind) == a
  {
    if a != "" {
      ReindentOneLine(a[1..], ind);
    }
  }

  function Prefixed(ls: seq<string>, ind: string): (r: seq<string>)
    ensures |r| == |ls|
  {
    if ls == [] then [] else [ind + ls[0]] + Prefixed(ls[1..], ind)
  }

  /** Re-indenting a text puts the indentation before every line but the first. */
  lemma {:induction false} LinesReindent(s: string, ind: string)
    requires OneLine(ind)
    ensures Lines(Reindent(s, ind)) == [Lines(s)[0]] + Prefixed(Lines(s)[1..], ind)
  {
    if s != "" {
      var t, r := Reindent(s[1..], ind), Lines(s[1..]);
      LinesReindent(s[1..], ind);
      if s[0] == '\n' {
        assert ("\n" + ind) + t == ['\n'] + (ind + t);
        LinesStep('\n', ind + t);
        LinesPrefix(ind, t);
        assert Lines(s)[1..] == r;
      } else {
        LinesStep(s[0], t);
      }
    }
  }

  lemma {:induction false} LinesPrefix(p: string, s: string)
    requires OneLine(p)
    ensures Lines(p + s) == [p + Lines(s)[0]] + Lines(s)[1..]
  {
    if p == "" {
      assert p + s == s;
      assert p + Lines(s)[0] == Lines(s)[0];
    } else {
      LinesPrefix(p[1..], s);
      assert p + s == [p[0]] + (p[1..] + s);
      LinesStep(p[0], p[1..] + s);
      Assoc3([p[0]], p[1..], Lines(s)[0]);
      assert [p[0]] + p[1..] == p;
    }
  }
}
