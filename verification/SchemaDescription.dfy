/** saleor/graphql/schema_printer.py: descriptions in the printed schema. */
module SchemaDescription {
  import opened Wrappers
  import opened TextLines
  import opened BlockScanner
  import opened BlockPrinter
  import opened BlockReader
  import opened BlockEscapes
  import opened BlockRoundTrip
  import opened BlockLayout
  import opened BlockFeeds

  const DEPRECATED_IN_3X_INPUT := "\n\nDEPRECATED: this field will be removed."

  predicate IsPrefix(p: string, s: string) {
    |p| <= |s| && s[..|p|] == p
  }

  /** First position at which `p` occurs in `s`. */
  function IndexOf(s: string, p: string): (r: Option<nat>)
    ensures r.Some? ==> r.value <= |s| && IsPrefix(p, s[r.value..])
    ensures forall i | 0 <= i < (if r.Some? then r.value else |s| + 1) :: !IsPrefix(p, s[i..])
  {
    if IsPrefix(p, s) then assert s[0..] == s; Some(0)
    else if s == "" then assert s[0..] == s; None
    else
      var r := IndexOf(s[1..], p);
      assert s[0..] == s;
      assert forall i | 0 < i <= |s| :: s[1..][i - 1..] == s[i..];
      match r case None => None case Some(k) => Some(k + 1)
  }

  /** The characters Python's str.rstrip removes. */
  predicate IsPythonSpace(c: char) {
    || '\t' <= c <= '\r'
    || '\U{001C}' <= c <= ' '
    || c in {'\U{0085}', '\U{00A0}', '\U{1680}', '\U{2028}', '\U{2029}', '\U{202F}', '\U{205F}', '\U{3000}'}
    || '\U{2000}' <= c <= '\U{200A}'
  }

  function RightStrip(s: string): (r: string)
    ensures r <= s
    ensures r == "" || !IsPythonSpace(r[|r| - 1])
    ensures forall i | |r| <= i < |s| :: IsPythonSpace(s[i])
  {
    if s != "" && IsPythonSpace(s[|s| - 1]) then RightStrip(s[..|s| - 1]) else s
  }

  function Cut(description: string): string {
    match IndexOf(description, DEPRECATED_IN_3X_INPUT)
    case None => description
    case Some(pos) => description[..pos]
  }

  function Cleaned(description: string): string {
    RightStrip(Cut(description))
  }

  function Prefix(indentation: string, firstInBlock: bool): string {
    if indentation != "" && !firstInBlock then "\n" + indentation else indentation
  }

  /** The printed description; `literal` stands for the library's printer of ordinary strings. */
  ghost function DescriptionText(description: Option<string>, indentation: string, firstInBlock: bool, literal: string -> string): string {
    match description
    case None => ""
    case Some(text) =>
      var d := Cleaned(text);
      var block := if Printable(d) then PrintBlockString(d, false) else literal(d);
      Prefix(indentation, firstInBlock) + Reindent(block, indentation) + "\n"
  }

  /** The block string of a description: on lines of its own if it is wide, except that a single line keeps its blanks in front. */
  function DescriptionBlock(d: string): string {
    var before := Wide(d) && (BreaksInside(d) || d == "" || !IsBlankChar(d[0]));
    "\"\"\"" + (if before then "\n" else "") + Escape(d) + (if Wide(d) then "\n" else "") + "\"\"\""
  }

  /** An empty line in front unless it is the first in its block or at the left margin; every line at the indentation. */
  ghost predicate DescriptionLaidOut(text: string, d: string, indentation: string, firstInBlock: bool, literal: string -> string) {
    var block := if Printable(d) then DescriptionBlock(d) else literal(d);
    var start := if firstInBlock || indentation == "" then "" else "\n";
    text == start + indentation + Reindent(block, indentation) + "\n"
  }

  lemma {:induction false} DescriptionIsLaidOut(description: string, indentation: string, firstInBlock: bool, literal: string -> string)
    ensures DescriptionLaidOut(DescriptionText(Some(description), indentation, firstInBlock, literal), Cleaned(description), indentation, firstInBlock, literal)
  {
    var d := Cleaned(description);
    if Printable(d) {
      DescriptionBlockPrinted(d);
    }
    assert "" + indentation == indentation;
  }

  lemma {:induction false} DescriptionBlockPrinted(d: string)
    requires Printable(d)
    ensures PrintBlockString(d, false) == DescriptionBlock(d)
  {
    NoReturns(d);
    FeedsExactly(d, false);
  }

  method PrintDescription(description: Option<string>, indentation: string, firstInBlock: bool, literal: string -> string)
    returns (text: string)
    ensures text == DescriptionText(description, indentation, firstInBlock, literal)
    ensures description.None? ==> text == ""
    ensures description.Some? ==> DescriptionLaidOut(text, Cleaned(description.value), indentation, firstInBlock, literal)
  {
    if description.Some? {
      DescriptionIsLaidOut(description.value, indentation, firstInBlock, literal);
    }
    if description.None? {
      return "";
    }
    var d := description.value;
    var pos := IndexOf(d, DEPRECATED_IN_3X_INPUT);
    if pos.Some? {
      d := d[..pos.value];
    }
    d := RightStrip(d);
    var block;
    var printable := IsPrintableAsBlockString(d);
    if printable {
      block := PrintBlockString(d, false);
    } else {
      block := literal(d);
    }
    text := Prefix(indentation, firstInBlock) + Reindent(block, indentation) + "\n";
  }

  /** What is printed is the description up to the first deprecation mark, without the white space before it. */
  lemma {:induction false} CleanedIsWhatPrecedesTheMark(description: string)
    ensures exists end: nat ::
              && end <= |description|
              && Cleaned(description) <= description[..end]
              && (forall i | |Cleaned(description)| <= i < end :: IsPythonSpace(description[i]))
              && (end == |description| || IsPrefix(DEPRECATED_IN_3X_INPUT, description[end..]))
              && (forall i | 0 <= i < end :: !IsPrefix(DEPRECATED_IN_3X_INPUT, description[i..]))
  {
    var end := CutEnd(description);
    StrippedPart(description, end);
  }

  lemma {:induction false} CutEnd(description: string) returns (end: nat)
    ensures end <= |description| && Cut(description) == description[..end]
    ensures end == |description| || IsPrefix(DEPRECATED_IN_3X_INPUT, description[end..])
    ensures forall i | 0 <= i < end :: !IsPrefix(DEPRECATED_IN_3X_INPUT, description[i..])
  {
    var pos := IndexOf(description, DEPRECATED_IN_3X_INPUT);
    end := if pos.Some? then pos.value else |description|;
  }

  lemma {:induction false} StrippedPart(description: string, end: nat)
    requires end <= |description| && Cut(description) == description[..end]
    ensures Cleaned(description) <= description[..end]
    ensures forall i | |Cleaned(description)| <= i < end :: IsPythonSpace(description[i])
  {
    var cut := description[..end];
    assert forall i | |Cleaned(description)| <= i < end :: cut[i] == description[i];
  }

  /** Past the prefix, the printed description reads back as the cleaned text and leaves just the final line feed. */
  lemma {:induction false} DescriptionReadsBack(description: string, indentation: string, firstInBlock: bool, literal: string -> string)
    requires Blank(indentation) && Printable(Cleaned(description))
    ensures var text := DescriptionText(Some(description), indentation, firstInBlock, literal);
            var skip := |Prefix(indentation, firstInBlock)|;
            var d := Cleaned(description);
            && skip <= |text| && (forall i | 0 <= i < skip :: text[i] == '\n' || IsBlankChar(text[i]))
            && (ReadBlockString(text[skip..]) == Some(ReadResult(d, "\n"))
                <==> AllSource(d) && (Indented(d) && |Lines(d)| == 1 ==> !BreaksInside(d)))
  {
    var d := Cleaned(description);
    var p, block := Prefix(indentation, firstInBlock), Reindent(PrintBlockString(d, false), indentation);
    PastPrefix(p, block);
    assert forall i | 0 <= i < |p| :: p[i] == '\n' || IsBlankChar(p[i]);
    BlockStringRoundTrip(d, false, indentation, "\n");
  }

  lemma {:induction false} PastPrefix(p: string, block: string)
    ensures (p + block + "\n")[|p|..] == block + "\n"
    ensures forall i | 0 <= i < |p| :: (p + block + "\n")[i] == p[i]
  {
  }
}
