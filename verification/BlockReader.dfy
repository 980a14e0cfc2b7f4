/**
 A reader of GraphQL block strings, written from section 2.9.4 "String Value" of the GraphQL
 specification (October 2021): the lexical rule for block strings and the algorithm BlockStringValue().
 */
module BlockReader {
  import opened Wrappers
  import opened TextLines
  import opened BlockPrinter

  /** Section 2.1.1 of the GraphQL specification (October 2021); supplementary characters count as pairs of code units in range. */
  predicate SourceCharacter(c: char) {
    c == '\t' || c == '\n' || c == '\r' || c >= ' '
  }

  datatype Scanned = Scanned(raw: string, rest: string)

  /** Raw text up to the first unescaped triple quote, with the escape undone, and what follows the quotes. */
  function Scan(s: string): Option<Scanned> {
    if s == "" then None
    else if AtEscapedQuotes(s) then
      match Scan(s[4..])
      case None => None
      case Some(t) => Some(Scanned(QUOTES + t.raw, t.rest))
    else if AtQuotes(s) then Some(Scanned("", s[3..]))
    else if !SourceCharacter(s[0]) then None
    else
      match Scan(s[1..])
      case None => None
      case Some(t) => Some(Scanned([s[0]] + t.raw, t.rest))
  }

  /** Lines between the line terminators LF, CR LF and CR. */
  function SourceLines(s: string): (ls: seq<string>)
    ensures |ls| >= 1
  {
    if s == "" then [""]
    else if s[0] == '\r' && |s| > 1 && s[1] == '\n' then [""] + SourceLines(s[2..])
    else
      var rest := SourceLines(s[1..]);
      if s[0] == '\n' || s[0] == '\r' then [""] + rest else [[s[0]] + rest[0]] + rest[1..]
  }

  /** Number of leading white-space characters. */
  function LeadingWhiteSpace(line: string): (n: nat)
    ensures n <= |line|
    ensures n < |line| <==> !Blank(line)
    ensures forall i | 0 <= i < n :: IsBlankChar(line[i])
    ensures n < |line| ==> !IsBlankChar(line[n])
  {
    if line == "" || !IsBlankChar(line[0]) then 0
    else
      var n := LeadingWhiteSpace(line[1..]);
      assert forall i | 0 < i < |line| :: line[i] == line[1..][i - 1];
      1 + n
  }

  /** The smallest indent of the lines with text; none when every line is blank. */
  function CommonIndent(ls: seq<string>): Option<nat> {
    if ls == [] then None
    else
      var rest := CommonIndent(ls[1..]);
      var indent := LeadingWhiteSpace(ls[0]);
      if indent == |ls[0]| then rest
      else if rest.None? || indent < rest.value then Some(indent)
      else rest
  }

  function DropIndent(line: string, indent: nat): string {
    if indent <= |line| then line[indent..] else ""
  }

  function DropIndents(ls: seq<string>, indent: nat): (r: seq<string>)
    ensures |r| == |ls|
  {
    if ls == [] then [] else [DropIndent(ls[0], indent)] + DropIndents(ls[1..], indent)
  }

  function TrimFront(ls: seq<string>): seq<string> {
    if ls != [] && Blank(ls[0]) then TrimFront(ls[1..]) else ls
  }

  function TrimBack(ls: seq<string>): seq<string> {
    if ls != [] && Blank(ls[|ls| - 1]) then TrimBack(ls[..|ls| - 1]) else ls
  }

  function DedentedTail(ls: seq<string>): (r: seq<string>)
    ensures |r| == |ls|
  {
    match CommonIndent(ls)
    case None => ls
    case Some(indent) => DropIndents(ls, indent)
  }

  /** Every line but the first loses the common indent of those lines. */
  function Dedented(ls: seq<string>): (r: seq<string>)
    requires |ls| >= 1
    ensures |r| == |ls|
  {
    [ls[0]] + DedentedTail(ls[1..])
  }

  function BlockStringValue(raw: string): string {
    Join(TrimBack(TrimFront(Dedented(SourceLines(raw)))))
  }

  datatype ReadResult = ReadResult(value: string, rest: string)

  /** The value of a block string at the start of `text`, and the text after its closing quotes. */
  function ReadBlockString(text: string): Option<ReadResult> {
    if !AtQuotes(text) then None
    else
      match Scan(text[3..])
      case None => None
      case Some(t) => Some(ReadResult(BlockStringValue(t.raw), t.rest))
  }
}
