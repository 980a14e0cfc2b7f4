/** saleor/graphql/schema_printer.py: which texts may be printed as a GraphQL block string. */
module BlockScanner {
  import opened TextLines

  predicate ForbiddenChar(c: char) {
    c <= '\U{000F}' && c != '\n' && c != '\t'
  }

  ghost predicate CleanChars(s: string) {
    forall i | 0 <= i < |s| :: !ForbiddenChar(s[i])
  }

  lemma {:induction false} CleanCharsAre(s: string)
    ensures CleanChars(s) <==> forall i | 0 <= i < |s| :: s[i] == '\n' || s[i] == '\t' || s[i] >= '\U{0010}'
  {
    assert forall i | 0 <= i < |s| :: ForbiddenChar(s[i]) <==> s[i] != '\n' && s[i] != '\t' && s[i] < '\U{0010}';
  }

  /** Some line carries text at its very start, so that no common indent can be taken away. */
  ghost predicate HasFlushLine(ls: seq<string>) {
    exists i :: 0 <= i < |ls| && !Blank(ls[i]) && !Indented(ls[i])
  }

  /** What the flags of the scanner amount to, said of the lines of the whole text. */
  ghost predicate Printable(value: string) {
    value == "" ||
    var ls := Lines(value);
    && CleanChars(value)
    && !Blank(ls[0])
    && !Blank(ls[|ls| - 1])
    && (|ls| == 1 || HasFlushLine(ls))
  }

  /** The four flags after the lines `ls` of a prefix. */
  ghost predicate FlagsOf(ls: seq<string>, isEmptyLine: bool, hasIndent: bool, hasCommonIndent: bool, seenNonEmptyLine: bool)
    requires |ls| >= 1
  {
    && isEmptyLine == Blank(ls[|ls| - 1])
    && hasIndent == Indented(ls[|ls| - 1])
    && hasCommonIndent == !HasFlushLine(ls)
    && seenNonEmptyLine == (|ls| > 1)
    && (|ls| > 1 ==> !Blank(ls[0]))
  }

  lemma {:induction false} FlagsAfterFeed(ls: seq<string>, e: bool, h: bool, c: bool, n: bool)
    requires |ls| >= 1 && FlagsOf(ls, e, h, c, n)
    requires !(e && !n)
    ensures FlagsOf(ls + [""], true, false, c, true)
  {
    var ls' := ls + [""];
    assert forall i | 0 <= i < |ls| :: ls'[i] == ls[i];
    assert ls'[|ls|] == "";
  }

  lemma {:induction false} FlushWithLast(ls: seq<string>, last: string)
    requires |ls| >= 1
    ensures HasFlushLine(ls[..|ls| - 1] + [last]) ==
            (HasFlushLine(ls[..|ls| - 1]) || (!Blank(last) && !Indented(last)))
  {
    var front := ls[..|ls| - 1];
    var ls' := front + [last];
    assert forall i | 0 <= i < |front| :: ls'[i] == front[i];
    assert ls'[|front|] == last;
  }

  lemma {:induction false} BlankSnoc(line: string, c: char)
    ensures Blank(line + [c]) == (Blank(line) && IsBlankChar(c))
    ensures Indented(line + [c]) == if line == "" then IsBlankChar(c) else Indented(line)
  {
    assert (line + [c])[|line|] == c;
    assert forall i | 0 <= i < |line| :: (line + [c])[i] == line[i];
  }

  lemma {:induction false} FlagsAfterChar(ls: seq<string>, c: char, e: bool, h: bool, m: bool, n: bool)
    requires |ls| >= 1 && FlagsOf(ls, e, h, m, n)
    ensures var ls' := LastExtended(ls, c);
            && (IsBlankChar(c) ==> FlagsOf(ls', e, h || e, m, n))
            && (!IsBlankChar(c) ==> FlagsOf(ls', false, h, m && h, n))
  {
    var last := ls[|ls| - 1];
    BlankSnoc(last, c);
    assert ls == ls[..|ls| - 1] + [last];
    FlushWithLast(ls, last);
    FlushWithLast(ls, last + [c]);
    if last != "" && !Indented(last) {
      assert !IsBlankChar(last[0]);
      assert !Blank(last);
    }
    if last == "" {
      assert Blank(last);
    }
    assert |ls| > 1 ==> (ls[..|ls| - 1] + [last + [c]])[0] == ls[0];
  }

  /** A blank first line of a prefix that ends in a line feed is the first line of the whole text. */
  lemma {:induction false} FirstLineIsFinal(value: string, i: nat)
    requires i < |value| && value[i] == '\n' && |Lines(value[..i])| == 1
    ensures Lines(value)[0] == Lines(value[..i])[0]
  {
    LinesConcat(value[..i], value[i + 1..]);
    assert value == value[..i] + "\n" + value[i + 1..];
  }

  /** The one-pass scan with four flags decides exactly `Printable`. */
  method IsPrintableAsBlockString(value: string) returns (printable: bool)
    ensures printable <==> Printable(value)
  {
    if value == "" {
      return true;
    }
    var isEmptyLine, hasIndent, hasCommonIndent, seenNonEmptyLine := true, false, true, false;
    assert value[..0] == "";
    for i := 0 to |value|
      invariant CleanChars(value[..i])
      invariant FlagsOf(Lines(value[..i]), isEmptyLine, hasIndent, hasCommonIndent, seenNonEmptyLine)
    {
      var c := value[i];
      ghost var ls := Lines(value[..i]);
      assert value[..i + 1] == value[..i] + [c];
      if c == '\n' {
        if isEmptyLine && !seenNonEmptyLine {
          FirstLineIsFinal(value, i);
          return false; // has leading new line
        }
        LinesSnocFeed(value[..i]);
        FlagsAfterFeed(ls, isEmptyLine, hasIndent, hasCommonIndent, seenNonEmptyLine);
        seenNonEmptyLine := true;
        isEmptyLine := true;
        hasIndent := false;
      } else if c == ' ' || c == '\t' {
        LinesSnoc(value[..i], c);
        FlagsAfterChar(ls, c, isEmptyLine, hasIndent, hasCommonIndent, seenNonEmptyLine);
        hasIndent := hasIndent || isEmptyLine;
      } else if c <= '\U{000F}' {
        assert ForbiddenChar(value[i]);
        return false;
      } else {
        LinesSnoc(value[..i], c);
        FlagsAfterChar(ls, c, isEmptyLine, hasIndent, hasCommonIndent, seenNonEmptyLine);
        hasCommonIndent := hasCommonIndent && hasIndent;
        isEmptyLine := false;
      }
    }
    assert value[..|value|] == value;
    if isEmptyLine {
      return false; // has trailing empty lines
    }
    if hasCommonIndent && seenNonEmptyLine {
      return false; // has internal indent
    }
    return true;
  }
}
