/** The seed's text handling: comma-separated sheets and HTML escaping. */
module SeedText {

  /** What String.prototype.trim removes. */
  predicate IsSpace(c: char) {
    || '\t' <= c <= '\r' || c == ' ' || c == '\U{00A0}' || c == '\U{1680}'
    || '\U{2000}' <= c <= '\U{200A}' || c == '\U{2028}' || c == '\U{2029}'
    || c == '\U{202F}' || c == '\U{205F}' || c == '\U{3000}' || c == '\U{FEFF}'
  }

  const WHITE_SPACE := "\t\n\U{000B}\U{000C}\r \U{00A0}\U{1680}\U{2000}\U{2001}\U{2002}\U{2003}\U{2004}\U{2005}"
    + "\U{2006}\U{2007}\U{2008}\U{2009}\U{200A}\U{2028}\U{2029}\U{202F}\U{205F}\U{3000}\U{FEFF}"

  lemma SpaceIsOneOfThese(c: char)
    ensures IsSpace(c) <==> c in WHITE_SPACE
  {
    assert |WHITE_SPACE| == 25;
  }

  function TrimStart(s: string): string {
    if s != [] && IsSpace(s[0]) then TrimStart(s[1..]) else s
  }

  function TrimEnd(s: string): string {
    if s != [] && IsSpace(s[|s| - 1]) then TrimEnd(s[..|s| - 1]) else s
  }

  function Trim(s: string): string {
    TrimEnd(TrimStart(s))
  }

  predicate Contains(s: string, c: char) {
    exists i :: 0 <= i < |s| && s[i] == c
  }

  // ---- The text of markup ----------------------------------------------------------------------------

  /** Where the first '>' is. */
  function TagEnd(s: string): (n: nat)
    requires Contains(s, '>')
    ensures n < |s| && s[n] == '>' && forall i | 0 <= i < n :: s[i] != '>'
  {
    if s[0] == '>' then 0
    else
      assert Contains(s[1..], '>') by {
        var i :| 0 <= i < |s| && s[i] == '>';
        assert s[1..][i - 1] == '>';
      }
      TagEnd(s[1..]) + 1
  }

  /** Each run from a '<' to the next '>' becomes a space; a '<' with no '>' after it stays. */
  function WithoutTags(html: string): string
    decreases |html|
  {
    if html == [] then ""
    else if html[0] == '<' && Contains(html[1..], '>') then " " + WithoutTags(html[1..][TagEnd(html[1..]) + 1..])
    else [html[0]] + WithoutTags(html[1..])
  }

  lemma TrimStartIsShorter(s: string)
    ensures |TrimStart(s)| <= |s|
  {
  }

  /** Each run of white space becomes one space. */
  function Collapse(s: string): string
    decreases |s|
  {
    if s == [] then ""
    else if IsSpace(s[0]) then
      TrimStartIsShorter(s[1..]);
      " " + Collapse(TrimStart(s[1..]))
    else [s[0]] + Collapse(s[1..])
  }

  function StripTags(html: string): string {
    Trim(Collapse(WithoutTags(html)))
  }

  // ---- Sheets ------------------------------------------------------------------------------------------

  function Split(s: string, sep: char): (parts: seq<string>)
    ensures parts != []
  {
    if s == [] then [""]
    else if s[0] == sep then [""] + Split(s[1..], sep)
    else
      var rest := Split(s[1..], sep);
      [[s[0]] + rest[0]] + rest[1..]
  }

  function Join(parts: seq<string>, sep: char): string {
    if parts == [] then ""
    else if |parts| == 1 then parts[0]
    else parts[0] + [sep] + Join(parts[1..], sep)
  }

  type Row = map<string, string>

  /** Object.fromEntries: a repeated header keeps its last cell, a missing cell is "". */
  function RowOf(headers: seq<string>, cells: seq<string>): Row {
    if headers == [] then map[]
    else
      var n := |headers| - 1;
      RowOf(headers[..n], cells)[headers[n] := if n < |cells| then Trim(cells[n]) else ""]
  }

  function TrimAll(cells: seq<string>): seq<string> {
    seq(|cells|, i requires 0 <= i < |cells| => Trim(cells[i]))
  }

  function RowsOf(headers: seq<string>, lines: seq<string>): (rows: seq<Row>)
    ensures |rows| == |lines|
    ensures forall i | 0 <= i < |lines| :: rows[i] == RowOf(headers, Split(lines[i], ','))
  {
    if lines == [] then []
    else RowsOf(headers, lines[..|lines| - 1]) + [RowOf(headers, Split(lines[|lines| - 1], ','))]
  }

  function ParseLines(lines: seq<string>): seq<Row>
    requires lines != []
  {
    if lines[0] == "" then [] else RowsOf(TrimAll(Split(lines[0], ',')), lines[1..])
  }

  function ParseCsv(text: string): seq<Row> {
    ParseLines(Split(Trim(text), '\n'))
  }

  function PrintLines(sheet: seq<seq<string>>): seq<string> {
    seq(|sheet|, i requires 0 <= i < |sheet| => Join(sheet[i], ','))
  }

  function PrintCsv(sheet: seq<seq<string>>): string {
    Join(PrintLines(sheet), '\n')
  }

  // ---- Round trip ------------------------------------------------------------------------------

  predicate CleanCell(s: string) {
    !Contains(s, ',') && !Contains(s, '\n') && (s == [] || (!IsSpace(s[0]) && !IsSpace(s[|s| - 1])))
  }

  predicate CleanCells(cells: seq<string>) {
    forall i | 0 <= i < |cells| :: CleanCell(cells[i])
  }

  predicate Blank(cells: seq<string>) {
    Join(cells, ',') == ""
  }

  lemma {:induction false} SplitPrefix(a: string, rest: string, sep: char)
    requires !Contains(a, sep)
    ensures Split(a, sep) == [a]
    ensures Split(a + [sep] + rest, sep) == [a] + Split(rest, sep)
  {
    var whole := a + [sep] + rest;
    if a == [] {
      assert whole[1..] == rest;
    } else {
      assert forall i | 0 <= i < |a[1..]| :: a[1..][i] == a[i + 1];
      SplitPrefix(a[1..], rest, sep);
      assert whole[1..] == a[1..] + [sep] + rest;
      assert a == [a[0]] + a[1..];
    }
  }

  lemma {:induction false} SplitOfJoin(parts: seq<string>, sep: char)
    requires parts != [] && forall i | 0 <= i < |parts| :: !Contains(parts[i], sep)
    ensures Split(Join(parts, sep), sep) == parts
  {
    if |parts| == 1 {
      SplitPrefix(parts[0], "", sep);
    } else {
      SplitOfJoin(parts[1..], sep);
      SplitPrefix(parts[0], Join(parts[1..], sep), sep);
    }
  }

  lemma TrimOfClean(s: string)
    requires s == [] || (!IsSpace(s[0]) && !IsSpace(s[|s| - 1]))
    ensures Trim(s) == s
  {
  }

  /** A printed line has no line break and, unless it is empty, no outer white space. */
  lemma {:induction false} JoinOfCleanCells(cells: seq<string>)
    requires CleanCells(cells)
    ensures var s := Join(cells, ',');
            !Contains(s, '\n') && (s == [] || (!IsSpace(s[0]) && !IsSpace(s[|s| - 1])))
  {
    if |cells| > 1 {
      JoinOfCleanCells(cells[1..]);
      assert CleanCell(cells[0]);
    } else if |cells| == 1 {
      assert CleanCell(cells[0]);
    }
  }

  lemma {:induction false} JoinEnds(lines: seq<string>, sep: char)
    requires lines != []
    ensures lines[0] <= Join(lines, sep)
    ensures |lines[|lines| - 1]| <= |Join(lines, sep)|
    ensures Join(lines, sep)[|Join(lines, sep)| - |lines[|lines| - 1]|..] == lines[|lines| - 1]
  {
    if |lines| > 1 {
      JoinEnds(lines[1..], sep);
    }
  }

  predicate PlainLine(s: string) {
    !Contains(s, '\n') && (s == [] || (!IsSpace(s[0]) && !IsSpace(s[|s| - 1])))
  }

  lemma SameEnds(text: string, first: string, last: string)
    requires first != "" && first <= text
    requires last != "" && |last| <= |text| && text[|text| - |last|..] == last
    ensures text[0] == first[0] && text[|text| - 1] == last[|last| - 1]
  {
    assert text[|text| - |last|..][|last| - 1] == text[|text| - 1];
  }

  lemma TrimKeepsPrintedText(lines: seq<string>)
    requires lines != [] && PlainLine(lines[0]) && PlainLine(lines[|lines| - 1])
    requires lines[0] != "" && lines[|lines| - 1] != ""
    ensures Trim(Join(lines, '\n')) == Join(lines, '\n')
  {
    JoinEnds(lines, '\n');
    var text := Join(lines, '\n');
    SameEnds(text, lines[0], lines[|lines| - 1]);
    TrimOfClean(text);
  }

  lemma PrintedLine(cells: seq<string>)
    requires cells != [] && CleanCells(cells)
    ensures PlainLine(Join(cells, ',')) && Split(Join(cells, ','), ',') == cells && TrimAll(cells) == cells
  {
    JoinOfCleanCells(cells);
    forall k | 0 <= k < |cells| ensures !Contains(cells[k], ',') && Trim(cells[k]) == cells[k] {
      assert CleanCell(cells[k]);
      TrimOfClean(cells[k]);
    }
    SplitOfJoin(cells, ',');
  }

  ghost predicate LinesOf(lines: seq<string>, sheet: seq<seq<string>>) {
    && |lines| == |sheet|
    && forall i | 0 <= i < |lines| :: PlainLine(lines[i]) && Split(lines[i], ',') == sheet[i]
  }

  lemma PrintedLines(sheet: seq<seq<string>>)
    requires forall i | 0 <= i < |sheet| :: sheet[i] != [] && CleanCells(sheet[i])
    ensures LinesOf(PrintLines(sheet), sheet)
  {
    forall i | 0 <= i < |sheet|
      ensures PlainLine(PrintLines(sheet)[i]) && Split(PrintLines(sheet)[i], ',') == sheet[i]
    {
      PrintedLine(sheet[i]);
    }
  }

  lemma SplitOfLines(lines: seq<string>, sheet: seq<seq<string>>)
    requires sheet != [] && LinesOf(lines, sheet) && lines[0] != "" && lines[|lines| - 1] != ""
    ensures Split(Trim(Join(lines, '\n')), '\n') == lines
  {
    TrimKeepsPrintedText(lines);
    SplitOfJoin(lines, '\n');
  }

  lemma ParseOfLines(lines: seq<string>, sheet: seq<seq<string>>)
    requires sheet != [] && LinesOf(lines, sheet) && lines[0] != "" && TrimAll(sheet[0]) == sheet[0]
    ensures |ParseLines(lines)| == |sheet| - 1
    ensures forall i | 0 <= i < |sheet| - 1 :: ParseLines(lines)[i] == RowOf(sheet[0], sheet[i + 1])
  {
    var rows := ParseLines(lines);
    forall i | 0 <= i < |sheet| - 1 ensures rows[i] == RowOf(sheet[0], sheet[i + 1]) {
      assert lines[1..][i] == lines[i + 1];
    }
  }

  predicate LastOfItsName(headers: seq<string>, k: int) {
    0 <= k < |headers| && headers[k] !in headers[k + 1..]
  }

  /** Reading one cell of a parsed row, under a header no later column repeats. */
  lemma {:induction false} CellOfRow(headers: seq<string>, cells: seq<string>, k: nat)
    requires LastOfItsName(headers, k) && CleanCells(cells)
    ensures headers[k] in RowOf(headers, cells)
    ensures RowOf(headers, cells)[headers[k]] == if k < |cells| then cells[k] else ""
  {
    var n := |headers| - 1;
    if k == n {
      if n < |cells| {
        assert CleanCell(cells[n]);
        TrimOfClean(cells[n]);
      }
    } else {
      assert headers[k + 1..][n - k - 1] == headers[n];
      assert headers[..n][k + 1..] == headers[k + 1..][..n - k - 1];
      CellOfRow(headers[..n], cells, k);
    }
  }

  /**
   A printed sheet parses back to its rows, cell by cell, when no cell holds a comma, a line break or outer
   white space and neither the header line nor the last line is blank. A row shorter than the header reads as
   empty cells, a longer one as its first cells, and of two columns with one header the last is read.
   */
  lemma ParseOfPrint(sheet: seq<seq<string>>)
    requires sheet != [] && forall i | 0 <= i < |sheet| :: sheet[i] != [] && CleanCells(sheet[i])
    requires !Blank(sheet[0]) && !Blank(sheet[|sheet| - 1])
    ensures var rows := ParseCsv(PrintCsv(sheet));
            && |rows| == |sheet| - 1
            && forall i, k | 0 <= i < |rows| && LastOfItsName(sheet[0], k) ::
                 && sheet[0][k] in rows[i]
                 && rows[i][sheet[0][k]] == if k < |sheet[i + 1]| then sheet[i + 1][k] else ""
  {
    var lines, rows := PrintLines(sheet), ParseCsv(PrintCsv(sheet));
    PrintedLines(sheet);
    PrintedLine(sheet[0]);
    SplitOfLines(lines, sheet);
    ParseOfLines(lines, sheet);
    forall i, k | 0 <= i < |rows| && LastOfItsName(sheet[0], k)
      ensures sheet[0][k] in rows[i]
      ensures rows[i][sheet[0][k]] == if k < |sheet[i + 1]| then sheet[i + 1][k] else ""
    {
      CellOfRow(sheet[0], sheet[i + 1], k);
    }
  }

  // ---- HTML ------------------------------------------------------------------------------------

  function EscapeChar(c: char): string {
    match c
    case '&' => "&amp;"
    case '<' => "&lt;"
    case '>' => "&gt;"
    case '"' => "&quot;"
    case '\'' => "&#39;"
    case _ => [c]
  }

  function EscapeHtml(s: string): string {
    if s == [] then "" else EscapeChar(s[0]) + EscapeHtml(s[1..])
  }

  function Unescape(t: string): string {
    if t == [] then ""
    else if "&amp;" <= t then "&" + Unescape(t[5..])
    else if "&lt;" <= t then "<" + Unescape(t[4..])
    else if "&gt;" <= t then ">" + Unescape(t[4..])
    else if "&quot;" <= t then "\"" + Unescape(t[6..])
    else if "&#39;" <= t then "'" + Unescape(t[5..])
    else [t[0]] + Unescape(t[1..])
  }

  lemma UnescapePlain(c: char, rest: string)
    requires c != '&'
    ensures Unescape([c] + rest) == [c] + Unescape(rest)
  {
    var t := [c] + rest;
    assert t[0] == c && t[1..] == rest;
  }

  lemma UnescapeEntity(c: char, rest: string)
    requires c in "&<>\"'"
    ensures Unescape(EscapeChar(c) + rest) == [c] + Unescape(rest)
  {
    var e := EscapeChar(c);
    var t := e + rest;
    assert t[..|e|] == e && t[|e|..] == rest;
    assert t[1] == e[1] && t[2] == e[2];
  }

  lemma UnescapeOne(c: char, rest: string)
    ensures Unescape(EscapeChar(c) + rest) == [c] + Unescape(rest)
  {
    if c in "&<>\"'" {
      UnescapeEntity(c, rest);
    } else {
      UnescapePlain(c, rest);
    }
  }

  /** Escaping loses nothing, so no two texts escape alike. */
  lemma {:induction false} UnescapeOfEscape(s: string)
    ensures Unescape(EscapeHtml(s)) == s
  {
    if s != [] {
      UnescapeOne(s[0], EscapeHtml(s[1..]));
      UnescapeOfEscape(s[1..]);
      assert s == [s[0]] + s[1..];
    }
  }

  /** Escaped text cannot open a tag or close an attribute. */
  lemma {:induction false} EscapedIsInert(s: string, i: nat)
    requires i < |EscapeHtml(s)|
    ensures EscapeHtml(s)[i] !in "<>\"'"
  {
    var head := EscapeChar(s[0]);
    if i >= |head| {
      EscapedIsInert(s[1..], i - |head|);
    }
  }
}
