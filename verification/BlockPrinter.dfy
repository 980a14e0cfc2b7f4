/** saleor/graphql/schema_printer.py: printing a text as a GraphQL block string. */
module BlockPrinter {
  import opened TextLines

  const QUOTES := "\"\"\""
  const ESCAPED_QUOTES := "\\\"\"\""
  const LONG_VALUE := 70

  /** The text starts with three quotes. */
  predicate AtQuotes(s: string) {
    |s| >= 3 && s[0] == '\"' && s[1] == '\"' && s[2] == '\"'
  }

  /** The text starts with a backslash and three quotes. */
  predicate AtEscapedQuotes(s: string) {
    |s| >= 4 && s[0] == '\\' && s[1] == '\"' && s[2] == '\"' && s[3] == '\"'
  }

  predicate EndsInEscapedQuotes(s: string) {
    |s| >= 4 && AtEscapedQuotes(s[|s| - 4..])
  }

  predicate EndsIn(s: string, c: char) {
    s != "" && s[|s| - 1] == c
  }

  /** Python's value.replace on triple quotes: leftmost, non-overlapping. */
  function Escape(s: string): string {
    if s == "" then ""
    else if AtQuotes(s) then ESCAPED_QUOTES + Escape(s[3..])
    else [s[0]] + Escape(s[1..])
  }

  /** The characters at which Python's str.splitlines breaks a line. */
  predicate IsPythonBreak(c: char) {
    || '\n' <= c <= '\r'
    || '\U{001C}' <= c <= '\U{001E}'
    || c == '\U{0085}' || c == '\U{2028}' || c == '\U{2029}'
  }

  /** Python's str.splitlines: a trailing break opens no further line, and CR LF is one break. */
  function SplitLines(s: string): (ls: seq<string>)
    ensures ls == [] <==> s == ""
  {
    if s == "" then []
    else if IsPythonBreak(s[0]) then
      [""] + SplitLines(if s[0] == '\r' && |s| > 1 && s[1] == '\n' then s[2..] else s[1..])
    else
      var rest := SplitLines(s[1..]);
      if rest == [] then [[s[0]]] else [[s[0]] + rest[0]] + rest[1..]
  }

  function PrintedLines(escaped: string): (ls: seq<string>)
    ensures |ls| >= 1
  {
    if SplitLines(escaped) == [] then [""] else SplitLines(escaped)
  }

  predicate ForceLeadingNewLine(escaped: string) {
    var ls := PrintedLines(escaped);
    |ls| > 1 && forall i | 1 <= i < |ls| :: ls[i] == "" || IsBlankChar(ls[i][0])
  }

  predicate ForceTrailingNewLine(value: string) {
    || (EndsIn(value, '\"') && !EndsInEscapedQuotes(Escape(value)))
    || EndsIn(value, '\\')
  }

  predicate PrintAsMultipleLines(value: string, minimize: bool) {
    var escaped := Escape(value);
    && !minimize
    && (|| |PrintedLines(escaped)| != 1
        || |value| > LONG_VALUE
        || ForceTrailingNewLine(value)
        || ForceLeadingNewLine(escaped)
        || EndsInEscapedQuotes(escaped))
  }

  /** Whether a line feed goes between the opening quotes and the text. */
  predicate LeadingNewLine(value: string, minimize: bool) {
    var escaped := Escape(value);
    var skipLeadingNewLine := |PrintedLines(escaped)| == 1 && value != "" && IsBlankChar(value[0]);
    || (PrintAsMultipleLines(value, minimize) && !skipLeadingNewLine)
    || ForceLeadingNewLine(escaped)
  }

  predicate TrailingNewLine(value: string, minimize: bool) {
    PrintAsMultipleLines(value, minimize) || ForceTrailingNewLine(value)
  }

  function Feed(wanted: bool): string {
    if wanted then "\n" else ""
  }

  function PrintBlockString(value: string, minimize: bool): string {
    QUOTES + Feed(LeadingNewLine(value, minimize)) + Escape(value) + Feed(TrailingNewLine(value, minimize)) + QUOTES
  }
}
