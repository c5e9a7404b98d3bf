/** Parsing what was serialized (rules 5 to 7 in section 2 of RFC 4180). */
module CsvRoundTrip {
  import opened Prelude
  import opened Csv

  predicate Plain(c: char) {
    c != '"' && c != ',' && c != '\n'
  }

  lemma Stepped(c: char, rest: string, s: Scanner)
    requires !(s.quoted && c == '"')
    ensures Scan([c] + rest, s) == Scan(rest, Next([c] + rest, s))
  {
    var text := [c] + rest;
    assert Taken(text, s) == 1 && text[1..] == rest;
  }

  lemma {:induction false} PlainScan(f: string, rest: string, s: Scanner)
    requires !s.quoted && forall i :: 0 <= i < |f| ==> Plain(f[i])
    ensures Scan(f + rest, s) == Scan(rest, s.(field := s.field + f))
    decreases |f|
  {
    if f == [] {
      assert f + rest == rest && s.field + f == s.field;
    } else {
      assert f + rest == [f[0]] + (f[1..] + rest);
      Stepped(f[0], f[1..] + rest, s);
      PlainScan(f[1..], rest, s.(field := s.field + [f[0]]));
      assert s.field + [f[0]] + f[1..] == s.field + f;
    }
  }

  lemma DoubledStep(rest: string, s: Scanner)
    requires s.quoted
    ensures Scan("\"\"" + rest, s) == Scan(rest, s.(field := s.field + "\""))
  {
    var text := "\"\"" + rest;
    assert DoubledQuote(text) && text[2..] == rest;
  }

  lemma DoubledFirst(f: string, rest: string, s: Scanner)
    requires s.quoted && f != []
    ensures Scan(Doubled(f) + rest, s) == Scan(Doubled(f[1..]) + rest, s.(field := s.field + [f[0]]))
  {
    var tail := Doubled(f[1..]) + rest;
    if f[0] == '"' {
      assert Doubled(f) + rest == "\"\"" + tail;
      DoubledStep(tail, s);
    } else {
      assert Doubled(f) + rest == [f[0]] + tail;
      Stepped(f[0], tail, s);
    }
  }

  lemma {:induction false} DoubledScan(f: string, rest: string, s: Scanner)
    requires s.quoted
    ensures Scan(Doubled(f) + rest, s) == Scan(rest, s.(field := s.field + f))
    decreases |f|
  {
    if f == [] {
      assert Doubled(f) + rest == rest && s.field + f == s.field;
    } else {
      DoubledFirst(f, rest, s);
      DoubledScan(f[1..], rest, s.(field := s.field + [f[0]]));
      assert s.field + [f[0]] + f[1..] == s.field + f;
    }
  }

  /** A closing quote before a comma or a carriage return ends the quoting. */
  lemma Closes(rest: string, s: Scanner)
    requires s.quoted && rest != [] && rest[0] != '"'
    ensures Scan("\"" + rest, s) == Scan(rest, s.(quoted := false))
  {
    var text := "\"" + rest;
    assert text[1..] == rest && text[1] == rest[0];
  }

  lemma Opens(rest: string, s: Scanner)
    requires s.field == "" && !s.quoted
    ensures Scan("\"" + rest, s) == Scan(rest, s.(quoted := true))
  {
    Stepped('"', rest, s);
  }

  lemma ReturnScan(rest: string, s: Scanner)
    requires !s.quoted
    ensures Scan("\r" + rest, s) == Scan(rest, s.(field := s.field + "\r"))
  {
    Stepped('\r', rest, s);
  }

  lemma LineFeedScan(rest: string, s: Scanner)
    requires !s.quoted
    ensures Scan("\n" + rest, s) == Scan(rest, Scanner(s.records + [s.record + [Chomp(s.field)]], [], "", false))
  {
    Stepped('\n', rest, s);
  }

  lemma BreakScan(rest: string, s: Scanner)
    requires !s.quoted
    ensures Scan("\r\n" + rest, s) == Scan(rest, Scanner(s.records + [s.record + [s.field]], [], "", false))
  {
    ReturnScan("\n" + rest, s);
    LineFeedScan(rest, s.(field := s.field + "\r"));
    assert Chomp(s.field + "\r") == s.field;
    assert "\r\n" + rest == "\r" + ("\n" + rest);
  }

  lemma CommaScan(rest: string, s: Scanner)
    requires !s.quoted
    ensures Scan("," + rest, s) == Scan(rest, s.(record := s.record + [s.field], field := ""))
  {
    Stepped(',', rest, s);
  }

  // Whole fields and lines. These proofs need of the scanner only what the lemmas above say, so it is a
  // parameter that is known to be it.

  type Scanning = (string, Scanner) -> Scanner

  ghost predicate IsScan(scan: Scanning) {
    forall text, s {:trigger Scan(text, s)} :: scan(text, s) == Scan(text, s)
  }

  /** From s at the start of the text, the scanner comes to the rest of it in state t. */
  ghost predicate Reads(scan: Scanning, text: string, s: Scanner, rest: string, t: Scanner) {
    scan(text, s) == scan(rest, t)
  }

  lemma OpensReads(scan: Scanning, rest: string, s: Scanner)
    requires IsScan(scan) && s.field == "" && !s.quoted
    ensures Reads(scan, "\"" + rest, s, rest, s.(quoted := true))
  {
    Opens(rest, s);
  }

  lemma DoubledReads(scan: Scanning, f: string, rest: string, s: Scanner)
    requires IsScan(scan) && s.quoted && s.field == ""
    ensures Reads(scan, Doubled(f) + rest, s, rest, s.(field := f))
  {
    DoubledScan(f, rest, s);
    assert s.field + f == f;
  }

  lemma ClosesReads(scan: Scanning, rest: string, s: Scanner)
    requires IsScan(scan) && s.quoted && rest != [] && rest[0] != '"'
    ensures Reads(scan, "\"" + rest, s, rest, s.(quoted := false))
  {
    Closes(rest, s);
  }

  lemma PlainReads(scan: Scanning, f: string, rest: string, s: Scanner)
    requires IsScan(scan) && s.field == "" && !s.quoted && !NeedsQuotes(f)
    ensures Reads(scan, f + rest, s, rest, s.(field := f))
  {
    PlainScan(f, rest, s);
    assert s.field + f == f;
  }

  /** A written field is scanned back to itself. */
  lemma FieldReads(scan: Scanning, f: string, rest: string, s: Scanner)
    requires IsScan(scan) && s.field == "" && !s.quoted && rest != [] && rest[0] != '"'
    ensures Reads(scan, Written(f) + rest, s, rest, s.(field := f))
  {
    if NeedsQuotes(f) {
      var inQuotes := s.(quoted := true);
      OpensReads(scan, Doubled(f) + ("\"" + rest), s);
      DoubledReads(scan, f, "\"" + rest, inQuotes);
      ClosesReads(scan, rest, inQuotes.(field := f));
      Regroup("\"", Doubled(f), "\"", rest);
    } else {
      PlainReads(scan, f, rest, s);
    }
  }

  lemma LastFieldReads(scan: Scanning, f: string, rest: string, s: Scanner)
    requires IsScan(scan) && s.field == "" && !s.quoted
    ensures Reads(scan, Written(f) + ("\r\n" + rest), s, rest, Scanner(s.records + [s.record + [f]], [], "", false))
  {
    FieldReads(scan, f, "\r\n" + rest, s);
    BreakScan(rest, s.(field := f));
  }

  lemma InnerFieldReads(scan: Scanning, f: string, tail: string, s: Scanner)
    requires IsScan(scan) && s.field == "" && !s.quoted
    ensures Reads(scan, Written(f) + ("," + tail), s, tail, s.(record := s.record + [f]))
  {
    FieldReads(scan, f, "," + tail, s);
    CommaScan(tail, s.(field := f));
  }

  lemma Regroup(a: string, b: string, c: string, d: string)
    ensures (a + (b + c)) + d == a + (b + (c + d))
  {
  }

  lemma {:induction false} LineReads(scan: Scanning, fields: seq<string>, rest: string, s: Scanner)
    requires IsScan(scan) && fields != [] && s.field == "" && !s.quoted
    ensures Reads(scan, Line(fields) + ("\r\n" + rest), s, rest, Scanner(s.records + [s.record + fields], [], "", false))
    decreases |fields|
  {
    var f := fields[0];
    if |fields| == 1 {
      LastFieldReads(scan, f, rest, s);
      assert fields == [f];
    } else {
      var end := "\r\n" + rest;
      Regroup(Written(f), ",", Line(fields[1..]), end);
      InnerFieldReads(scan, f, Line(fields[1..]) + end, s);
      LineReads(scan, fields[1..], rest, s.(record := s.record + [f]));
      assert s.record + [f] + fields[1..] == s.record + fields;
    }
  }

  ghost predicate NoEmptyLine(grid: seq<seq<string>>) {
    forall k :: 0 <= k < |grid| ==> grid[k] != []
  }

  lemma {:induction false} LinesRead(scan: Scanning, grid: seq<seq<string>>, rest: string)
    requires IsScan(scan) && NoEmptyLine(grid)
    ensures Reads(scan, Lines(grid) + rest, Start, rest, Scanner(grid, [], "", false))
    decreases |grid|
  {
    if grid == [] {
      assert Lines(grid) + rest == rest;
    } else {
      var before, last := grid[..|grid| - 1], grid[|grid| - 1];
      Regroup(Lines(before), Line(last), "\r\n", rest);
      LinesRead(scan, before, Line(last) + ("\r\n" + rest));
      LineReads(scan, last, rest, Scanner(before, [], "", false));
      assert [] + last == last && before + [last] == grid;
    }
  }

  lemma LinesScan(grid: seq<seq<string>>)
    requires NoEmptyLine(grid)
    ensures Scan(Lines(grid), Start) == Scanner(grid, [], "", false)
  {
    var scan: Scanning := (text, s) => Scan(text, s);
    LinesRead(scan, grid, "");
    assert Lines(grid) + "" == Lines(grid);
    assert Scan("", Scanner(grid, [], "", false)) == Scanner(grid, [], "", false);
  }

  /** Whatever its fields hold, quotes, commas and line breaks included, a written grid is read back
      exactly, as long as every line has a field and the row limit is kept. */
  lemma GridRoundTrip(grid: seq<seq<string>>, maxRows: nat)
    requires NoEmptyLine(grid)
    ensures Collected(Scan(Lines(grid), Start), maxRows) == if |grid| <= maxRows + 1 then Ok(grid) else Err(RowLimit)
  {
    LinesScan(grid);
  }

  // No formula survives.

  lemma {:induction false} SignedLonger(s: string, t: string)
    requires Signed(s) && s <= t
    ensures Signed(t)
  {
    if s[0] !in {'=', '+', '@', '-'} {
      SignedLonger(s[1..], t[1..]);
    }
  }

  lemma {:induction false} TrimLeftStarts(s: string)
    ensures TrimLeft(s) == "" || !White(TrimLeft(s)[0])
    ensures Signed(TrimLeft(s)) ==> Signed(s)
  {
    if s != [] && White(s[0]) {
      TrimLeftStarts(s[1..]);
    }
  }

  lemma {:induction false} TrimRightPrefix(s: string)
    ensures TrimRight(s) <= s && TrimRight(TrimRight(s)) == TrimRight(s)
    decreases |s|
  {
    if s != [] && White(s[|s| - 1]) {
      TrimRightPrefix(s[..|s| - 1]);
    }
  }

  /** Trimming removes all that it removes at once, and makes no formula. */
  lemma TrimIsFinal(s: string)
    ensures Trim(Trim(s)) == Trim(s)
    ensures !FormulaLike(s) ==> !FormulaLike(Trim(s))
  {
    var left, t := TrimLeft(s), Trim(s);
    TrimLeftStarts(s);
    TrimRightPrefix(left);
    assert t != "" ==> t[0] == left[0];
    assert TrimLeft(t) == t;
    if Signed(t) {
      SignedLonger(t, left);
    }
  }

  lemma GuardedIsSafe(s: string)
    ensures !FormulaLike(Guarded(s))
    ensures Guarded(s) == s <==> !FormulaLike(s)
    ensures Guarded(s) == "" <==> s == ""
  {
  }

  lemma {:induction false} RowOfCells(headers: seq<string>, values: seq<string>)
    requires |headers| == |values| && Distinct(headers)
    ensures forall h :: h in RowOf(headers, values) <==> h in headers
    ensures forall i :: 0 <= i < |headers| ==> headers[i] in RowOf(headers, values) && RowOf(headers, values)[headers[i]] == values[i]
    decreases |headers|
  {
    if headers != [] {
      var n := |headers| - 1;
      RowOfCells(headers[..n], values[..n]);
      assert headers == headers[..n] + [headers[n]];
    }
  }

  lemma {:induction false} RowsOfAt(headers: seq<string>, records: seq<seq<string>>)
    requires RowsOf(headers, records).Ok?
    ensures |RowsOf(headers, records).value| == |records|
    ensures forall k :: 0 <= k < |records| ==>
              |records[k]| == |headers| && RowsOf(headers, records).value[k] == RowOf(headers, records[k])
  {
    if records != [] {
      RowsOfAt(headers, records[1..]);
    }
  }

  lemma {:induction false} RowsOfOk(headers: seq<string>, records: seq<seq<string>>)
    requires forall k :: 0 <= k < |records| ==> |records[k]| == |headers|
    ensures RowsOf(headers, records).Ok?
  {
    if records != [] {
      RowsOfOk(headers, records[1..]);
    }
  }

  lemma {:induction false} WithContentKeeps(records: seq<seq<string>>)
    ensures |WithContent(records)| <= |records|
    ensures forall r :: r in WithContent(records) ==> r in records
    ensures |WithContent(records)| == |records| <==> forall k :: 0 <= k < |records| ==> HasContent(records[k])
    ensures |WithContent(records)| == |records| ==> WithContent(records) == records
  {
    if records != [] {
      WithContentKeeps(records[1..]);
    }
  }

  lemma TrimmedHeadersAreSafe(headers: seq<string>)
    ensures forall i :: 0 <= i < |headers| ==>
              var h := Trimmed(GuardedHeaders(headers))[i]; !FormulaLike(h) && Trim(Guarded(h)) == h
  {
    forall i | 0 <= i < |headers|
      ensures var h := Trimmed(GuardedHeaders(headers))[i]; !FormulaLike(h) && Trim(Guarded(h)) == h
    {
      GuardedIsSafe(headers[i]);
      TrimIsFinal(Guarded(headers[i]));
      GuardedIsSafe(Trim(Guarded(headers[i])));
    }
  }

  ghost predicate SafeRow(row: Row) {
    forall h :: h in row ==> !FormulaLike(h) && !FormulaLike(row[h])
  }

  lemma SafeCells(headers: seq<string>, values: seq<string>)
    requires |headers| == |values| && Distinct(headers)
    requires forall h :: h in headers ==> !FormulaLike(h)
    requires forall v :: v in values ==> !FormulaLike(v)
    ensures SafeRow(RowOf(headers, values))
  {
    RowOfCells(headers, values);
    forall h | h in RowOf(headers, values)
      ensures !FormulaLike(h) && !FormulaLike(RowOf(headers, values)[h])
    {
      var i :| 0 <= i < |headers| && headers[i] == h;
      assert values[i] in values;
    }
  }

  /** Every field the writer puts out below the header line is guarded. */
  lemma FieldsAreSafe(headers: seq<string>, rows: seq<map<string, Cell>>, record: seq<string>)
    requires record in Grid(headers, rows)[1..]
    ensures forall v :: v in record ==> !FormulaLike(v)
  {
    var grid := Grid(headers, rows);
    var k :| 0 <= k < |grid[1..]| && grid[1..][k] == record;
    assert record == Fields(headers, rows[k]);
    forall v | v in record
      ensures !FormulaLike(v)
    {
      var i :| 0 <= i < |record| && record[i] == v;
      GuardedIsSafe(Render(CellAt(rows[k], headers[i])));
    }
  }

  lemma RowsAreSafe(headers: seq<string>, rows: seq<map<string, Cell>>)
    requires Rows(Grid(headers, rows)).Ok?
    ensures forall row :: row in Rows(Grid(headers, rows)).value ==> SafeRow(row)
  {
    var grid := Grid(headers, rows);
    if !AllBlank(grid[0]) {
      var names, kept := Trimmed(grid[0]), WithContent(grid[1..]);
      TrimmedHeadersAreSafe(headers);
      WithContentKeeps(grid[1..]);
      RowsOfAt(names, kept);
      var parsed := RowsOf(names, kept).value;
      forall row | row in parsed
        ensures SafeRow(row)
      {
        var k :| 0 <= k < |parsed| && parsed[k] == row;
        assert kept[k] in kept;
        FieldsAreSafe(headers, rows, kept[k]);
        SafeCells(names, kept[k]);
      }
    }
  }

  /** Without columns, every line is written as a line with one empty field would be. */
  function Blanks(n: nat): (grid: seq<seq<string>>)
    ensures |grid| == n && forall k :: 0 <= k < n ==> grid[k] == [""]
  {
    seq(n, _ => [""])
  }

  lemma {:induction false} NoColumns(grid: seq<seq<string>>)
    requires forall k :: 0 <= k < |grid| ==> grid[k] == []
    ensures Lines(grid) == Lines(Blanks(|grid|))
    decreases |grid|
  {
    if grid != [] {
      var n := |grid| - 1;
      NoColumns(grid[..n]);
      assert Blanks(|grid|)[..n] == Blanks(n);
    }
  }

  predicate Fits(grid: seq<seq<string>>, maxRows: nat, maxBytes: int) {
    var n := Utf8Length(Lines(grid));
    |grid| <= maxRows + 1 && 1 <= maxBytes && n <= maxBytes && n <= MAX_CSV_INPUT_BYTES
  }

  lemma BlankRows(n: nat)
    requires n > 0
    ensures Rows(Blanks(n)) == Ok([])
  {
    assert Trim("") == "";
  }

  lemma ParsedGrid(grid: seq<seq<string>>, maxRows: nat, maxBytes: int)
    requires NoEmptyLine(grid)
    ensures Parse(Lines(grid), maxRows, maxBytes).Ok? ==> Rows(grid) == Parse(Lines(grid), maxRows, maxBytes)
    ensures Fits(grid, maxRows, maxBytes) ==> Parse(Lines(grid), maxRows, maxBytes) == Rows(grid)
  {
    GridRoundTrip(grid, maxRows);
  }

  lemma NoColumnsNoRows(rows: seq<map<string, Cell>>, maxRows: nat, maxBytes: int)
    ensures var parsed := Parse(Lines(Grid([], rows)), maxRows, maxBytes); parsed.Ok? ==> parsed.value == []
  {
    var grid := Grid([], rows);
    NoColumns(grid);
    ParsedGrid(Blanks(|grid|), maxRows, maxBytes);
    BlankRows(|grid|);
  }

  /** No row read from text this module wrote holds a cell or a header that looks like a formula,
      whatever the rows written. */
  lemma NoFormulaSurvives(headers: seq<string>, rows: seq<map<string, Cell>>, maxRows: nat, maxBytes: int, parsed: seq<Row>)
    requires Parse(Lines(Grid(headers, rows)), maxRows, maxBytes) == Ok(parsed)
    ensures forall row :: row in parsed ==> SafeRow(row)
  {
    if headers == [] {
      NoColumnsNoRows(rows, maxRows, maxBytes);
    } else {
      NoEmptyLineWritten(headers, rows);
      ParsedGrid(Grid(headers, rows), maxRows, maxBytes);
      RowsAreSafe(headers, rows);
    }
  }

  lemma NoEmptyLineWritten(headers: seq<string>, rows: seq<map<string, Cell>>)
    requires headers != []
    ensures NoEmptyLine(Grid(headers, rows))
  {
    var grid := Grid(headers, rows);
    assert forall k :: 0 < k < |grid| ==> grid[k] == Fields(headers, rows[k - 1]);
  }

  // The exact round trip.

  function AsCells(row: Row): (cells: map<string, Cell>)
    ensures cells.Keys == row.Keys && forall h :: h in row ==> cells[h] == TextCell(row[h])
  {
    map h | h in row :: TextCell(row[h])
  }

  function AllAsCells(rows: seq<Row>): (r: seq<map<string, Cell>>)
    ensures |r| == |rows| && forall k :: 0 <= k < |r| ==> r[k] == AsCells(rows[k])
  {
    seq(|rows|, k requires 0 <= k < |rows| => AsCells(rows[k]))
  }

  ghost predicate HeaderKept(h: string) {
    h != "" && Trim(h) == h && !FormulaLike(h)
  }

  ghost predicate RowKept(row: Row) {
    (exists h :: h in row && row[h] != "") && forall h :: h in row ==> !FormulaLike(row[h])
  }

  /** What rows must be like to come back as they were. */
  ghost predicate Kept(headers: seq<string>, rows: seq<Row>) {
    (forall h :: h in headers ==> HeaderKept(h)) && forall row :: row in rows ==> RowKept(row)
  }

  ghost predicate Shared(headers: seq<string>, rows: seq<Row>) {
    rows != [] && Distinct(headers) && forall row :: row in rows ==> forall h :: h in row <==> h in headers
  }

  lemma {:induction false} NoHeaderError(headers: seq<string>)
    ensures HeaderError(headers).None? <==> forall h :: h in headers ==> h != "" && h !in FORBIDDEN_KEYS
  {
    if headers != [] {
      NoHeaderError(headers[1..]);
      assert forall h :: h in headers <==> h == headers[0] || h in headers[1..];
    }
  }

  lemma FieldAt(headers: seq<string>, row: Row, i: nat)
    requires i < |headers| && forall h :: h in row <==> h in headers
    ensures headers[i] in row
    ensures var f := Fields(headers, AsCells(row))[i];
            && (f == "" <==> row[headers[i]] == "")
            && (f == row[headers[i]] <==> !FormulaLike(row[headers[i]]))
  {
    assert headers[i] in headers;
    GuardedIsSafe(row[headers[i]]);
  }

  lemma ContentOfRow(headers: seq<string>, row: Row)
    requires forall h :: h in row <==> h in headers
    ensures HasContent(Fields(headers, AsCells(row))) <==> exists h :: h in row && row[h] != ""
  {
    var fields := Fields(headers, AsCells(row));
    if h :| h in row && row[h] != "" {
      var i :| 0 <= i < |headers| && headers[i] == h;
      FieldAt(headers, row, i);
      assert fields[i] in fields;
    }
    if v :| v in fields && v != "" {
      var i :| 0 <= i < |fields| && fields[i] == v;
      FieldAt(headers, row, i);
    }
  }

  /** The fields of a row are its own cells exactly when none looks like a formula. */
  lemma CellsOfRow(headers: seq<string>, row: Row)
    requires Distinct(headers) && forall h :: h in row <==> h in headers
    ensures RowOf(headers, Fields(headers, AsCells(row))) == row <==> forall h :: h in row ==> !FormulaLike(row[h])
  {
    var fields := Fields(headers, AsCells(row));
    var back := RowOf(headers, fields);
    RowOfCells(headers, fields);
    forall h | h in row
      ensures back[h] == row[h] <==> !FormulaLike(row[h])
    {
      var i :| 0 <= i < |headers| && headers[i] == h;
      FieldAt(headers, row, i);
    }
    assert back.Keys == row.Keys;
  }

  /** Reading the header line gives the headers back exactly when each of them is kept. */
  lemma HeadersKept(headers: seq<string>)
    ensures Trimmed(GuardedHeaders(headers)) == headers <==> forall h :: h in headers ==> Trim(h) == h && !FormulaLike(h)
  {
    var names := Trimmed(GuardedHeaders(headers));
    forall i | 0 <= i < |headers|
      ensures names[i] == headers[i] <==> Trim(headers[i]) == headers[i] && !FormulaLike(headers[i])
    {
      TrimmedHeadersAreSafe(headers);
      GuardedIsSafe(headers[i]);
    }
    assert forall i :: 0 <= i < |headers| ==> headers[i] in headers;
  }

  /** Header names that come back as the same set come back in the same places: reading a name
      again changes it no further, so no name can take the place of another. */
  lemma SameNamesSamePlaces(headers: seq<string>)
    requires Distinct(headers) && Distinct(Trimmed(GuardedHeaders(headers)))
    requires forall i :: 0 <= i < |headers| ==> Trimmed(GuardedHeaders(headers))[i] in headers
    ensures Trimmed(GuardedHeaders(headers)) == headers
  {
    var names := Trimmed(GuardedHeaders(headers));
    TrimmedHeadersAreSafe(headers);
    forall i | 0 <= i < |headers|
      ensures names[i] == headers[i]
    {
      var j :| 0 <= j < |headers| && headers[j] == names[i];
      assert names[j] == Trim(Guarded(names[i]));
      assert names[j] == names[i];
    }
  }

  /** The lines below the header line, and the rows they give back. */
  lemma KeptRecords(headers: seq<string>, rows: seq<Row>, records: seq<seq<string>>)
    requires Shared(headers, rows) && Kept(headers, rows) && |records| == |rows|
    requires forall k :: 0 <= k < |rows| ==> records[k] == Fields(headers, AsCells(rows[k]))
    ensures WithContent(records) == records && RowsOf(headers, records) == Ok(rows)
  {
    forall k | 0 <= k < |rows|
      ensures HasContent(records[k]) && RowOf(headers, records[k]) == rows[k]
    {
      assert rows[k] in rows;
      ContentOfRow(headers, rows[k]);
      CellsOfRow(headers, rows[k]);
    }
    WithContentKeeps(records);
    RowsOfOk(headers, records);
    RowsOfAt(headers, records);
    assert RowsOf(headers, records).value == rows;
  }

  lemma KeptRowsReturn(headers: seq<string>, rows: seq<Row>)
    requires Shared(headers, rows) && Kept(headers, rows)
    requires forall h :: h in headers ==> h !in FORBIDDEN_KEYS
    ensures Rows(Grid(headers, AllAsCells(rows))) == Ok(rows)
  {
    var grid := Grid(headers, AllAsCells(rows));
    KeptRecords(headers, rows, grid[1..]);
    HeadersKept(headers);
    NoHeaderError(headers);
    assert rows[0] in rows;
    NotAllBlank(headers, rows[0]);
  }

  lemma NotAllBlank(headers: seq<string>, row: Row)
    requires RowKept(row) && forall h :: h in row <==> h in headers
    requires forall h :: h in headers ==> HeaderKept(h)
    ensures !AllBlank(GuardedHeaders(headers))
  {
    var h :| h in row && row[h] != "";
    var i :| 0 <= i < |headers| && headers[i] == h;
    GuardedIsSafe(h);
    assert GuardedHeaders(headers)[i] in GuardedHeaders(headers);
  }

  lemma RecordsAre(headers: seq<string>, rows: seq<Row>, k: nat)
    requires k < |rows|
    ensures Grid(headers, AllAsCells(rows))[1..][k] == Fields(headers, AsCells(rows[k]))
  {
  }

  /** What rows that could be read say of their records. */
  lemma ReadRecords(records: seq<seq<string>>, rows: seq<Row>)
    requires rows != [] && records != [] && Rows(records) == Ok(rows)
    ensures var names := Trimmed(records[0]);
            && Distinct(names) && RowsOf(names, WithContent(records[1..])) == Ok(rows)
            && (forall h :: h in names ==> h != "")
  {
    NoHeaderError(Trimmed(records[0]));
  }

  /** When as many rows come back as there are lines, each comes from its line. */
  lemma AllRecordsRead(names: seq<string>, records: seq<seq<string>>, rows: seq<Row>)
    requires |records| == |rows| && RowsOf(names, WithContent(records)) == Ok(rows)
    ensures forall k :: 0 <= k < |rows| ==> HasContent(records[k]) && |records[k]| == |names| && RowOf(names, records[k]) == rows[k]
  {
    RowsOfAt(names, WithContent(records));
    WithContentKeeps(records);
  }

  /** The header names and the records that rows read back come from. */
  lemma ReturnedRecords(headers: seq<string>, rows: seq<Row>, names: seq<string>, records: seq<seq<string>>)
    requires rows != [] && records == Grid(headers, AllAsCells(rows))[1..] && names == Trimmed(GuardedHeaders(headers))
    requires Rows(Grid(headers, AllAsCells(rows))) == Ok(rows)
    ensures Distinct(names) && forall h :: h in names ==> h != ""
    ensures |records| == |rows| && forall k :: 0 <= k < |rows| ==> records[k] == Fields(headers, AsCells(rows[k]))
    ensures forall k :: 0 <= k < |rows| ==> HasContent(records[k]) && |records[k]| == |names| && RowOf(names, records[k]) == rows[k]
  {
    forall k | 0 <= k < |rows|
      ensures records[k] == Fields(headers, AsCells(rows[k]))
    {
      RecordsAre(headers, rows, k);
    }
    ReadRecords(Grid(headers, AllAsCells(rows)), rows);
    AllRecordsRead(names, records, rows);
  }

  lemma ReturnedHeadersKept(headers: seq<string>, row: Row, names: seq<string>, record: seq<string>)
    requires Distinct(headers) && names == Trimmed(GuardedHeaders(headers)) && Distinct(names) && |record| == |names|
    requires RowOf(names, record) == row && forall h :: h in row <==> h in headers
    ensures names == headers
  {
    RowOfCells(names, record);
    forall i | 0 <= i < |headers|
      ensures names[i] in headers
    {
      assert names[i] in RowOf(names, record);
    }
    SameNamesSamePlaces(headers);
  }

  lemma ReturnedRowsKept(headers: seq<string>, rows: seq<Row>)
    requires Shared(headers, rows) && Rows(Grid(headers, AllAsCells(rows))) == Ok(rows)
    ensures Kept(headers, rows)
  {
    var records, names := Grid(headers, AllAsCells(rows))[1..], Trimmed(GuardedHeaders(headers));
    ReturnedRecords(headers, rows, names, records);
    assert rows[0] in rows;
    ReturnedHeadersKept(headers, rows[0], names, records[0]);
    HeadersKept(headers);
    forall row | row in rows
      ensures RowKept(row)
    {
      var k :| 0 <= k < |rows| && rows[k] == row;
      assert HasContent(records[k]);
      ContentOfRow(headers, row);
      CellsOfRow(headers, row);
    }
  }

  /** String rows over one set of headers, written and read back within the limits, come back as
      they were exactly when every header is nonempty, trimmed and no formula, and every row has a
      nonempty cell and no cell that looks like a formula. */
  lemma CsvRoundTripExactly(headers: seq<string>, rows: seq<Row>, maxBytes: int)
    requires Shared(headers, rows) && Serializable(headers, AllAsCells(rows))
    requires Utf8Length(Lines(Grid(headers, AllAsCells(rows)))) <= maxBytes
    requires Utf8Length(Lines(Grid(headers, AllAsCells(rows)))) <= MAX_CSV_INPUT_BYTES
    ensures Parse(Lines(Grid(headers, AllAsCells(rows))), MAX_WORKFLOW_ROWS, maxBytes) == Ok(rows) <==> Kept(headers, rows)
  {
    if headers == [] {
      NoColumnsNoRows(AllAsCells(rows), MAX_WORKFLOW_ROWS, maxBytes);
      assert rows[0] in rows;
    } else {
      DocumentFits(headers, rows, maxBytes);
      ParsedGrid(Grid(headers, AllAsCells(rows)), MAX_WORKFLOW_ROWS, maxBytes);
      GridReturnsExactly(headers, rows);
    }
  }

  lemma DocumentFits(headers: seq<string>, rows: seq<Row>, maxBytes: int)
    requires headers != [] && |rows| <= MAX_WORKFLOW_ROWS
    requires Utf8Length(Lines(Grid(headers, AllAsCells(rows)))) <= maxBytes
    requires Utf8Length(Lines(Grid(headers, AllAsCells(rows)))) <= MAX_CSV_INPUT_BYTES
    ensures NoEmptyLine(Grid(headers, AllAsCells(rows)))
    ensures Fits(Grid(headers, AllAsCells(rows)), MAX_WORKFLOW_ROWS, maxBytes)
  {
    var grid := Grid(headers, AllAsCells(rows));
    LinesNotEmpty(grid);
    NoEmptyLineWritten(headers, AllAsCells(rows));
  }

  lemma GridReturnsExactly(headers: seq<string>, rows: seq<Row>)
    requires Shared(headers, rows) && forall h :: h in headers ==> h !in FORBIDDEN_KEYS
    ensures Rows(Grid(headers, AllAsCells(rows))) == Ok(rows) <==> Kept(headers, rows)
  {
    if Kept(headers, rows) {
      KeptRowsReturn(headers, rows);
    }
    if Rows(Grid(headers, AllAsCells(rows))) == Ok(rows) {
      ReturnedRowsKept(headers, rows);
    }
  }

  lemma LinesNotEmpty(grid: seq<seq<string>>)
    requires grid != []
    ensures Utf8Length(Lines(grid)) >= 1
  {
    var text := Lines(grid);
    assert text[|text| - 1] == '\n';
  }
}
