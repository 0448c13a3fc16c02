/**
  The results export: cells hardened against spreadsheet formulas, quoted as section 2 of RFC 4180
  asks, and read back by a parser of that grammar.
*/
module CsvExport {
  import opened Options
  import opened Dates
  import opened DisplayText

  // ---- sanitising ----

  /** Controls a spreadsheet trims off a cell, minus tab and the line breaks. */
  predicate IsExportControl(c: char) {
    c <= '\U{8}' || c == '\U{B}' || c == '\U{C}' || '\U{E}' <= c <= '\U{1F}' || '\U{7F}' <= c <= '\U{9F}'
  }

  function Clean(v: string): string {
    Keep(Keep(v, c => !IsFormat(c)), c => !IsExportControl(c))
  }

  /** Formula starters, their fullwidth and Unicode forms, and the delimiters that also act as one. */
  predicate Sigil(c: char) {
    c in {'=', '+', '-', '@', '|', '\t', '\r', '\n', '\U{FF1D}', '\U{FF0B}', '\U{FF0D}', '\U{FF20}', '\U{2212}'}
  }

  /** White space, then a sigil. */
  predicate Formula(s: string) {
    s != "" && (Sigil(s[0]) || (IsJsSpace(s[0]) && Formula(s[1..])))
  }

  function Sanitise(v: string): string {
    if Formula(Clean(v)) then "'" + Clean(v) else Clean(v)
  }

  /** A cleaned cell is clean: it holds no invisible character and no export control. */
  predicate IsClean(s: string) {
    forall c :: c in s ==> !IsFormat(c) && !IsExportControl(c)
  }

  lemma CleanIsClean(v: string)
    ensures IsClean(Clean(v))
    ensures IsClean(v) ==> Clean(v) == v
  {
    var once := Keep(v, c => !IsFormat(c));
    forall c | c in Clean(v) ensures !IsFormat(c) && !IsExportControl(c) { assert c in once; }
  }

  /** No exported cell reads as a formula, whatever hides in front of its sigil. */
  lemma NeverAFormula(v: string)
    ensures !Formula(Sanitise(v)) && IsClean(Sanitise(v))
  {
    CleanIsClean(v);
    var s := Sanitise(v);
    forall c | c in s ensures !IsFormat(c) && !IsExportControl(c) { assert c == '\'' || c in Clean(v); }
  }

  /** Sanitising a sanitised cell changes nothing. */
  lemma SanitiseTwice(v: string)
    ensures Sanitise(Sanitise(v)) == Sanitise(v)
  {
    NeverAFormula(v);
    CleanIsClean(Sanitise(v));
  }

  /** Cleaning keeps every visible character, in order, and nothing else. */
  lemma {:induction false} CleanExactly(v: string, c: char)
    ensures Clean("") == ""
    ensures Clean([c] + v) == (if IsFormat(c) || IsExportControl(c) then "" else [c]) + Clean(v)
  {
    hide IsFormat, IsExportControl;
    assert ([c] + v)[0] == c && ([c] + v)[1..] == v;
    var once := Keep(v, c => !IsFormat(c));
    if !IsFormat(c) {
      assert Keep([c] + v, c => !IsFormat(c)) == [c] + once;
      assert ([c] + once)[0] == c && ([c] + once)[1..] == once;
    }
  }

  /** The controls dropped are all of C0, DEL and C1 but tab and the line breaks. */
  lemma ControlsExactly(c: char)
    ensures IsExportControl(c) <==>
      (c as int < 32 || 127 <= c as int <= 159) && c != '\t' && c != '\n' && c != '\r'
  {
  }

  /** s opens a formula: white space, then one of the thirteen sigils, at i. */
  predicate FormulaAt(s: string, i: nat) {
    && i < |s| && (forall j :: 0 <= j < i ==> IsJsSpace(s[j]))
    && s[i] in ['=', '+', '-', '@', '|', '\t', '\r', '\n', '\U{FF1D}', '\U{FF0B}', '\U{FF0D}', '\U{FF20}', '\U{2212}']
  }

  lemma {:induction false} FormulaExactly(s: string)
    ensures Formula(s) <==> exists i: nat :: FormulaAt(s, i)
  {
    hide IsJsSpace;
    if s != "" {
      FormulaExactly(s[1..]);
      assert Sigil(s[0]) ==> FormulaAt(s, 0);
      if i: nat :| FormulaAt(s[1..], i) && IsJsSpace(s[0]) {
        forall j | 0 <= j < i + 1 ensures IsJsSpace(s[j]) { if j > 0 { assert IsJsSpace(s[1..][j - 1]); } }
        assert FormulaAt(s, i + 1);
      }
      if i: nat :| FormulaAt(s, i) && !Sigil(s[0]) {
        assert i > 0;
        forall j | 0 <= j < i - 1 ensures IsJsSpace(s[1..][j]) { assert IsJsSpace(s[j + 1]); }
        assert FormulaAt(s[1..], i - 1);
      }
    }
  }

  /** A cell is its cleaned text, behind an apostrophe exactly when that text opens a formula. */
  lemma SanitiseExactly(v: string)
    ensures Sanitise(v) == if exists i: nat :: FormulaAt(Clean(v), i) then "'" + Clean(v) else Clean(v)
  {
    hide Formula, FormulaAt, Clean;
    FormulaExactly(Clean(v));
  }

  // ---- cells ----

  predicate NeedsQuotes(s: string) {
    exists i :: 0 <= i < |s| && s[i] in {'"', ',', '\t', '\r', '\n'}
  }

  function DoubleQuotes(s: string): string {
    if s == "" then ""
    else (if s[0] == '"' then "\"\"" else [s[0]]) + DoubleQuotes(s[1..])
  }

  function Quoted(s: string): string {
    if NeedsQuotes(s) then "\"" + DoubleQuotes(s) + "\"" else s
  }

  function CsvCell(v: string): string {
    Quoted(Sanitise(v))
  }

  // ---- rows ----

  datatype Effective = PASS | FAIL | ERROR | INFO | MANUAL | INCONSISTENT | NOT_APPLICABLE

  /** A check result as the export reads it; missing fields are empty. */
  datatype Check = Check(name: string, description: string, status: Effective, severity: string)

  function StatusText(s: Effective): string {
    match s
    case PASS => "PASS"
    case FAIL => "FAIL"
    case ERROR => "ERROR"
    case INFO => "INFO"
    case MANUAL => "MANUAL"
    case INCONSISTENT => "INCONSISTENT"
    case NOT_APPLICABLE => "NOT-APPLICABLE"
  }

  /** The filter status: an actively waived failure reads WAIVED. */
  function FilterStatus(c: Check, waived: set<string>): string {
    if c.status == FAIL && c.name != "" && c.name in waived then "WAIVED" else StatusText(c.status)
  }

  function FirstLine(s: string): string {
    if s == "" || s[0] == '\n' then "" else [s[0]] + FirstLine(s[1..])
  }

  function Title(c: Check): string {
    var name := if c.name == "" then "unknown" else c.name;
    var first := Trim(FirstLine(c.description));
    if first == "" then name else first
  }

  /** The five values of a row before they are made safe. */
  function Values(c: Check, waived: set<string>): (r: seq<string>)
    ensures |r| == 5
  {
    var status := FilterStatus(c, waived);
    [c.name, Title(c), status, if c.severity == "" then "unknown" else c.severity,
     if status == "WAIVED" then "true" else "false"]
  }

  function JoinWith(parts: seq<string>, sep: string): string {
    if parts == [] then ""
    else if |parts| == 1 then parts[0]
    else parts[0] + sep + JoinWith(parts[1..], sep)
  }

  function Cells(values: seq<string>): (r: seq<string>)
    ensures |r| == |values|
  {
    if values == [] then [] else [CsvCell(values[0])] + Cells(values[1..])
  }

  function Line(c: Check, waived: set<string>): string {
    JoinWith(Cells(Values(c, waived)), ",")
  }

  const HEADER := "name" + "," + "title" + "," + "status" + "," + "severity" + "," + "waived"
  const COLUMNS := ["name", "title", "status", "severity", "waived"]
  const BOM := "\U{FEFF}"

  function Lines(checks: seq<Check>, waived: set<string>): (r: seq<string>)
    ensures |r| == |checks| && forall i :: 0 <= i < |r| ==> r[i] == Line(checks[i], waived)
  {
    seq(|checks|, i requires 0 <= i < |checks| => Line(checks[i], waived))
  }

  method CsvLine(c: Check, waived: set<string>) returns (line: string)
    ensures line == Line(c, waived)
  {
    hide CsvCell, Line;
    var status := FilterStatus(c, waived);
    FiveCells(c, waived);
    line := CsvCell(c.name) + "," + CsvCell(Title(c)) + "," + CsvCell(status) + ","
      + CsvCell(if c.severity == "" then "unknown" else c.severity) + ","
      + CsvCell(if status == "WAIVED" then "true" else "false");
  }

  /** Fills a pre-sized array of lines, header first. */
  method ResultsCsv(checks: seq<Check>, waived: set<string>) returns (csv: string)
    ensures csv == BOM + JoinWith([HEADER] + Lines(checks, waived), "\r\n") && csv[0] == '\U{FEFF}'
  {
    hide Line, JoinWith;
    var lines := new string[|checks| + 1](_ => "");
    lines[0] := HEADER;
    for i := 0 to |checks|
      invariant lines[0] == HEADER
      invariant forall k :: 0 <= k < i ==> lines[k + 1] == Line(checks[k], waived)
    {
      var line := CsvLine(checks[i], waived);
      lines[i + 1] := line;
    }
    assert lines[..] == [HEADER] + Lines(checks, waived);
    csv := BOM + JoinWith(lines[..], "\r\n");
  }

  lemma JoinFive(a: string, b: string, c: string, d: string, e: string)
    ensures JoinWith([a, b, c, d, e], ",") == a + "," + b + "," + c + "," + d + "," + e
  {
    hide JoinWith;
    JoinMore(d, [e]);
    JoinMore(c, [d, e]);
    JoinMore(b, [c, d, e]);
    JoinMore(a, [b, c, d, e]);
    assert [d] + [e] == [d, e] && [c] + [d, e] == [c, d, e];
    assert [b] + [c, d, e] == [b, c, d, e] && [a] + [b, c, d, e] == [a, b, c, d, e];
    assert a + "," + (b + "," + (c + "," + (d + "," + e))) == a + "," + b + "," + c + "," + d + "," + e;
  }

  lemma JoinMore(x: string, rest: seq<string>)
    requires rest != []
    ensures JoinWith([x] + rest, ",") == x + "," + JoinWith(rest, ",")
    ensures |rest| == 1 ==> JoinWith(rest, ",") == rest[0]
  {
    assert ([x] + rest)[1..] == rest;
  }

  lemma FiveCells(c: Check, waived: set<string>)
    ensures var v := Values(c, waived);
            Line(c, waived) == CsvCell(v[0]) + "," + CsvCell(v[1]) + "," + CsvCell(v[2]) + "," + CsvCell(v[3]) + "," + CsvCell(v[4])
  {
    hide CsvCell, Values, JoinWith;
    var v := Values(c, waived);
    CellsAre(v);
    JoinFive(CsvCell(v[0]), CsvCell(v[1]), CsvCell(v[2]), CsvCell(v[3]), CsvCell(v[4]));
    assert Cells(v) == [CsvCell(v[0]), CsvCell(v[1]), CsvCell(v[2]), CsvCell(v[3]), CsvCell(v[4])];
  }

  lemma {:induction false} CellsAre(v: seq<string>)
    ensures forall i :: 0 <= i < |v| ==> Cells(v)[i] == CsvCell(v[i])
  {
    hide CsvCell;
    if v != [] { CellsAre(v[1..]); }
  }

  lemma CellsStep(v: seq<string>)
    requires v != []
    ensures JoinWith(Cells(v), ",") == if |v| == 1 then CsvCell(v[0]) else CsvCell(v[0]) + "," + JoinWith(Cells(v[1..]), ",")
  {
    assert Cells(v)[1..] == Cells(v[1..]);
  }

  // ---- a parser of the RFC's grammar ----

  /** The rest of a quoted field: its text and what follows the closing quote. */
  function TakeQuoted(s: string): Option<(string, string)> {
    if s == "" then None
    else if s[0] != '"' then
      var r := TakeQuoted(s[1..]);
      if r.None? then None else Some(([s[0]] + r.value.0, r.value.1))
    else if |s| > 1 && s[1] == '"' then
      var r := TakeQuoted(s[2..]);
      if r.None? then None else Some((['"'] + r.value.0, r.value.1))
    else Some(("", s[1..]))
  }

  predicate Bare(c: char) {
    c != '"' && c != ',' && c != '\r' && c != '\n'
  }

  function TakeBare(s: string): (string, string) {
    if s == "" || !Bare(s[0]) then ("", s)
    else ([s[0]] + TakeBare(s[1..]).0, TakeBare(s[1..]).1)
  }

  function TakeField(s: string): Option<(string, string)> {
    if s != "" && s[0] == '"' then TakeQuoted(s[1..]) else Some(TakeBare(s))
  }

  /** One record, up to a line break or the end. */
  function TakeRecord(s: string): Option<(seq<string>, string)>
    decreases |s|
  {
    var f := TakeField(s);
    if f.None? then None
    else if f.value.1 == "" || "\r\n" <= f.value.1 then Some(([f.value.0], f.value.1))
    else if f.value.1[0] != ',' || |f.value.1| > |s| then None
    else
      var r := TakeRecord(f.value.1[1..]);
      if r.None? then None else Some(([f.value.0] + r.value.0, r.value.1))
  }

  /** All records; a line break at the very end starts no further one. */
  function ParseCsv(s: string): Option<seq<seq<string>>>
    decreases |s|
  {
    var r := TakeRecord(s);
    if r.None? then None
    else if r.value.1 == "" || r.value.1 == "\r\n" then Some([r.value.0])
    else if !("\r\n" <= r.value.1) || |r.value.1| > |s| then None
    else
      var more := ParseCsv(r.value.1[2..]);
      if more.None? then None else Some([r.value.0] + more.value)
  }

  // ---- round trip ----

  /** A field ends at the end, at a comma or at a line break. */
  predicate Ends(rest: string) {
    rest == "" || rest[0] == ',' || "\r\n" <= rest
  }

  lemma {:induction false} QuotedComesBack(s: string, rest: string)
    requires rest == "" || rest[0] != '"'
    ensures TakeQuoted(DoubleQuotes(s) + "\"" + rest) == Some((s, rest))
  {
    var text := DoubleQuotes(s) + "\"" + rest;
    if s == "" {
      assert text == "\"" + rest && text[1..] == rest;
    } else {
      QuotedComesBack(s[1..], rest);
      var tail := DoubleQuotes(s[1..]) + "\"" + rest;
      assert s == [s[0]] + s[1..];
      if s[0] == '"' {
        assert text == "\"\"" + tail && text[2..] == tail;
      } else {
        assert text == [s[0]] + tail && text[1..] == tail;
      }
    }
  }

  lemma {:induction false} BareComesBack(s: string, rest: string)
    requires (forall c :: c in s ==> Bare(c)) && (rest == "" || !Bare(rest[0]))
    ensures TakeBare(s + rest) == (s, rest)
  {
    if s == "" {
      assert s + rest == rest;
    } else {
      assert s == [s[0]] + s[1..] && (s + rest)[1..] == s[1..] + rest && s[0] in s;
      BareComesBack(s[1..], rest);
    }
  }

  lemma QuotedCell(s: string, rest: string)
    requires Ends(rest)
    ensures TakeField("\"" + DoubleQuotes(s) + "\"" + rest) == Some((s, rest))
  {
    hide TakeQuoted, DoubleQuotes;
    QuotedComesBack(s, rest);
    var text := "\"" + DoubleQuotes(s) + "\"" + rest;
    assert text[1..] == DoubleQuotes(s) + "\"" + rest;
  }

  lemma BareCell(s: string, rest: string)
    requires Ends(rest) && !NeedsQuotes(s)
    ensures TakeField(s + rest) == Some((s, rest))
  {
    hide TakeBare, TakeQuoted;
    forall c | c in s ensures Bare(c) {
      var i :| 0 <= i < |s| && s[i] == c;
    }
    BareComesBack(s, rest);
    assert s != "" ==> (s + rest)[0] == s[0] && s[0] in s;
  }

  /** Any cell text is read back exactly, quotes, commas, tabs and line breaks included. */
  lemma CellComesBack(s: string, rest: string)
    requires Ends(rest)
    ensures TakeField(Quoted(s) + rest) == Some((s, rest))
  {
    hide TakeField, NeedsQuotes, Ends;
    if NeedsQuotes(s) { QuotedCell(s, rest); } else { BareCell(s, rest); }
  }

  function Sanitised(values: seq<string>): (r: seq<string>)
    ensures |r| == |values| && forall i :: 0 <= i < |r| ==> r[i] == Sanitise(values[i])
  {
    seq(|values|, i requires 0 <= i < |values| => Sanitise(values[i]))
  }

  /** A field at the end of its record, and a field in front of more of it. */
  lemma TakeRecordStep(s: string, first: string, rest: string)
    requires TakeField(s) == Some((first, rest))
    ensures rest == "" || "\r\n" <= rest ==> TakeRecord(s) == Some(([first], rest))
    ensures rest != "" && rest[0] == ',' && |rest| <= |s| ==>
      TakeRecord(s) == if TakeRecord(rest[1..]).None? then None
                       else Some(([first] + TakeRecord(rest[1..]).value.0, TakeRecord(rest[1..]).value.1))
  {
    hide TakeField;
  }

  lemma {:induction false} RecordComesBack(values: seq<string>, rest: string)
    requires values != [] && (rest == "" || "\r\n" <= rest)
    ensures TakeRecord(JoinWith(Cells(values), ",") + rest) == Some((Sanitised(values), rest))
    decreases |values|
  {
    hide Sanitise, Quoted, TakeField, TakeRecord, JoinWith, Cells;
    CellsStep(values);
    var first := Sanitise(values[0]);
    var text := JoinWith(Cells(values), ",") + rest;
    if |values| == 1 {
      CellComesBack(first, rest);
      TakeRecordStep(text, first, rest);
      assert Sanitised(values) == [first];
    } else {
      var tail := JoinWith(Cells(values[1..]), ",") + rest;
      RecordComesBack(values[1..], rest);
      CellComesBack(first, "," + tail);
      assert text == Quoted(first) + ("," + tail);
      assert ("," + tail)[1..] == tail;
      TakeRecordStep(text, first, "," + tail);
      assert Sanitised(values) == [first] + Sanitised(values[1..]);
    }
  }

  function Records(checks: seq<Check>, waived: set<string>): (r: seq<seq<string>>)
    ensures |r| == |checks| && forall i :: 0 <= i < |r| ==> r[i] == Sanitised(Values(checks[i], waived))
  {
    seq(|checks|, i requires 0 <= i < |checks| => Sanitised(Values(checks[i], waived)))
  }

  /** A line never is, and never ends as, a bare line break. */
  lemma LineIsNotEmpty(c: Check, waived: set<string>)
    ensures Line(c, waived) != "" && Line(c, waived) != "\r\n"
  {
    hide CsvCell;
    FiveCells(c, waived);
    var v := Values(c, waived);
    assert Line(c, waived)[|CsvCell(v[0])|] == ',';
  }

  lemma LineComesBack(c: Check, waived: set<string>, rest: string)
    requires rest == "" || "\r\n" <= rest
    ensures TakeRecord(Line(c, waived) + rest) == Some((Sanitised(Values(c, waived)), rest))
  {
    hide TakeRecord, Values;
    RecordComesBack(Values(c, waived), rest);
  }

  /** A record, a line break and a non-empty remainder parse to the record and the remainder's. */
  lemma ParseStep(first: string, record: seq<string>, tail: string)
    requires TakeRecord(first + ("\r\n" + tail)) == Some((record, "\r\n" + tail)) && tail != ""
    ensures ParseCsv(first + ("\r\n" + tail))
         == if ParseCsv(tail).None? then None else Some([record] + ParseCsv(tail).value)
  {
    hide TakeRecord;
    assert ("\r\n" + tail)[2..] == tail && "\r\n" <= "\r\n" + tail && "\r\n" + tail != "\r\n";
  }

  lemma JoinStep(lines: seq<string>)
    requires |lines| > 1
    ensures JoinWith(lines, "\r\n") == lines[0] + ("\r\n" + JoinWith(lines[1..], "\r\n"))
  {
  }

  lemma {:induction false} LinesComeBack(checks: seq<Check>, waived: set<string>)
    requires checks != []
    ensures ParseCsv(JoinWith(Lines(checks, waived), "\r\n")) == Some(Records(checks, waived))
    ensures JoinWith(Lines(checks, waived), "\r\n") != ""
    decreases |checks|
  {
    hide Line, Values, Sanitised, TakeRecord, ParseCsv, JoinWith;
    var lines := Lines(checks, waived);
    var first := Line(checks[0], waived);
    LineIsNotEmpty(checks[0], waived);
    if |checks| == 1 {
      LineComesBack(checks[0], waived, "");
      OneLine(first, Sanitised(Values(checks[0], waived)));
      assert lines == [first];
      assert Records(checks, waived) == [Sanitised(Values(checks[0], waived))];
    } else {
      LinesComeBack(checks[1..], waived);
      assert lines[1..] == Lines(checks[1..], waived);
      JoinStep(lines);
      var tail := JoinWith(lines[1..], "\r\n");
      LineComesBack(checks[0], waived, "\r\n" + tail);
      ParseStep(first, Sanitised(Values(checks[0], waived)), tail);
      assert Records(checks, waived) == [Sanitised(Values(checks[0], waived))] + Records(checks[1..], waived);
    }
  }

  lemma OneLine(first: string, record: seq<string>)
    requires TakeRecord(first + "") == Some((record, ""))
    ensures JoinWith([first], "\r\n") == first && ParseCsv(first) == Some([record])
  {
    hide TakeRecord;
    assert first + "" == first;
  }

  lemma HeaderIsARecord(rest: string)
    requires rest == "" || "\r\n" <= rest
    ensures TakeRecord(HEADER + rest) == Some((COLUMNS, rest))
  {
    HeaderCells();
    RecordComesBack(COLUMNS, rest);
  }

  predicate Plain(c: char) {
    'a' <= c <= 'z' || 'A' <= c <= 'Z' || c == '-'
  }

  lemma PlainChar(c: char)
    requires Plain(c)
    ensures !IsFormat(c) && !IsExportControl(c) && c !in {'"', ',', '\t', '\r', '\n'}
    ensures c != '-' ==> !Sigil(c) && !IsJsSpace(c)
  {
  }

  /** Words of letters and dashes need no protection. */
  lemma PlainCell(s: string)
    requires s != "" && s[0] != '-' && forall i :: 0 <= i < |s| ==> Plain(s[i])
    ensures CsvCell(s) == s == Sanitise(s)
  {
    hide Plain, IsFormat, IsExportControl, IsJsSpace, Sigil, Clean;
    forall c | c in s ensures !IsFormat(c) && !IsExportControl(c) {
      var i :| 0 <= i < |s| && s[i] == c;
      PlainChar(c);
    }
    CleanIsClean(s);
    PlainChar(s[0]);
    forall i | 0 <= i < |s| ensures s[i] !in {'"', ',', '\t', '\r', '\n'} { PlainChar(s[i]); }
  }

  lemma {:induction false} PlainCells(values: seq<string>)
    requires forall v :: v in values ==> CsvCell(v) == v == Sanitise(v)
    ensures Cells(values) == values && Sanitised(values) == values
  {
    hide CsvCell, Sanitise;
    if values != [] {
      assert values == [values[0]] + values[1..] && values[0] in values;
      PlainCells(values[1..]);
    }
    assert forall i :: 0 <= i < |values| ==> values[i] in values;
  }

  lemma HeaderCells()
    ensures JoinWith(Cells(COLUMNS), ",") == HEADER && Sanitised(COLUMNS) == COLUMNS
  {
    hide CsvCell, Sanitise, JoinWith;
    PlainCell("name");
    PlainCell("title");
    PlainCell("status");
    PlainCell("severity");
    PlainCell("waived");
    PlainCells(COLUMNS);
    JoinFive("name", "title", "status", "severity", "waived");
  }

  /** line is the text's first line: all of it before the first line feed. */
  predicate IsFirstLine(text: string, line: string) {
    line <= text && '\n' !in line && (|line| == |text| || text[|line|] == '\n')
  }

  lemma OpensAlike(text: string, line: string)
    requires line <= text && line != ""
    ensures line[0] == text[0] && line[0] in line
  {
  }

  lemma {:induction false} FirstLineExactly(s: string, line: string)
    ensures IsFirstLine(s, line) <==> line == FirstLine(s)
  {
    if s == "" || s[0] == '\n' {
      if IsFirstLine(s, line) && line != "" {
        OpensAlike(s, line);
      }
    } else {
      FirstLineExactly(s[1..], FirstLine(s[1..]));
      assert s == [s[0]] + s[1..];
      if IsFirstLine(s, line) {
        assert line != "";
        assert line == [line[0]] + line[1..] && line[0] == s[0] && line[1..] <= s[1..];
        FirstLineExactly(s[1..], line[1..]);
      }
    }
  }

  /** What a row says of a check, field by field. */
  ghost predicate Describes(r: seq<string>, c: Check, waived: set<string>) {
    var excused := c.status.FAIL? && c.name != "" && c.name in waived;
    && |r| == 5
    && r[0] == Sanitise(c.name)
    && (forall line :: IsFirstLine(c.description, line) ==>
          r[1] == Sanitise(if Trim(line) != "" then Trim(line) else if c.name != "" then c.name else "unknown"))
    && r[2] == (if excused then "WAIVED"
                else match c.status
                     case PASS => "PASS"
                     case FAIL => "FAIL"
                     case ERROR => "ERROR"
                     case INFO => "INFO"
                     case MANUAL => "MANUAL"
                     case INCONSISTENT => "INCONSISTENT"
                     case NOT_APPLICABLE => "NOT-APPLICABLE")
    && r[3] == Sanitise(if c.severity != "" then c.severity else "unknown")
    && r[4] == (if excused then "true" else "false")
  }

  lemma ValuesDescribe(c: Check, waived: set<string>)
    ensures Describes(Sanitised(Values(c, waived)), c, waived)
  {
    hide Sanitise, CsvCell, Trim;
    PlainCell("true");
    PlainCell("false");
    PlainCell("WAIVED");
    PlainCell(StatusText(c.status));
    forall line | IsFirstLine(c.description, line) ensures line == FirstLine(c.description) {
      FirstLineExactly(c.description, line);
    }
  }

  /**
    After the BOM the export parses to one header and one five-field record per result: the name,
    the title from the description's first line, the status with waived failures told apart, the
    severity, and whether the row is waived, each made safe.
  */
  lemma ExportRoundTrips(checks: seq<Check>, waived: set<string>)
    ensures ParseCsv(JoinWith([HEADER] + Lines(checks, waived), "\r\n"))
         == Some([["name", "title", "status", "severity", "waived"]] + Records(checks, waived))
    ensures |Records(checks, waived)| == |checks|
    ensures forall i :: 0 <= i < |checks| ==> Describes(Records(checks, waived)[i], checks[i], waived)
    ensures forall i :: 0 <= i < |checks| ==>
      var r := Records(checks, waived)[i];
      |r| == 5 && r[4] in {"true", "false"} && (r[4] == "true" <==> r[2] == "WAIVED")
  {
    hide TakeRecord, ParseCsv, JoinWith, Values, Describes;
    var all := [HEADER] + Lines(checks, waived);
    assert all[1..] == Lines(checks, waived);
    if checks == [] {
      HeaderIsARecord("");
      OneLine(HEADER, COLUMNS);
      assert all == [HEADER] && [COLUMNS] + Records(checks, waived) == [COLUMNS];
    } else {
      LinesComeBack(checks, waived);
      var tail := JoinWith(Lines(checks, waived), "\r\n");
      HeaderIsARecord("\r\n" + tail);
      JoinStep(all);
      ParseStep(HEADER, COLUMNS, tail);
    }
    forall i | 0 <= i < |checks|
      ensures var r := Records(checks, waived)[i];
              |r| == 5 && r[4] in {"true", "false"} && (r[4] == "true" <==> r[2] == "WAIVED")
    {
      StatusIsPlain(checks[i], waived);
    }
    forall i | 0 <= i < |checks| ensures Describes(Records(checks, waived)[i], checks[i], waived) {
      ValuesDescribe(checks[i], waived);
    }
  }

  lemma StatusIsPlain(c: Check, waived: set<string>)
    ensures var v := Values(c, waived);
            && Sanitise(v[2]) == v[2] && Sanitise(v[4]) == v[4] && v[4] in {"true", "false"}
            && (v[4] == "true" <==> v[2] == "WAIVED")
  {
    hide Sanitise, CsvCell;
    PlainCell("true");
    PlainCell("false");
    PlainCell("WAIVED");
    PlainCell(StatusText(c.status));
  }
}
