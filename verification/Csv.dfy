/** Reading and writing CSV (packages/workflows/src/csv.ts). A `char` is a code point. */
module Csv {
  import opened Prelude

  const MAX_WORKFLOW_ROWS: nat := 10_000
  const MAX_CSV_INPUT_BYTES: nat := 20 * 1024 * 1024
  const FORBIDDEN_KEYS: set<string> := {"__proto__", "prototype", "constructor"}

  datatype Error =
    | InvalidByteLimit | ByteLimit | RowLimit | Unterminated | EmptyHeader | UnsafeKey | DuplicateHeader | ColumnCount

  type Row = map<string, string>

  function Utf8Length(s: string): nat {
    if s == [] then 0
    else
      (if s[0] as int < 0x80 then 1 else if s[0] as int < 0x800 then 2 else if s[0] as int < 0x1_0000 then 3 else 4) +
      Utf8Length(s[1..])
  }

  // The scanner: one character (two for a doubled quote) at a time.

  datatype Scanner = Scanner(records: seq<seq<string>>, record: seq<string>, field: string, quoted: bool)

  const Start := Scanner([], [], "", false)

  function Chomp(field: string): string {
    if field != "" && field[|field| - 1] == '\r' then field[..|field| - 1] else field
  }

  predicate DoubledQuote(rest: string) {
    |rest| > 1 && rest[0] == '"' && rest[1] == '"'
  }

  function Taken(rest: string, s: Scanner): (n: nat)
    requires rest != []
    ensures 1 <= n <= |rest|
  {
    if s.quoted && DoubledQuote(rest) then 2 else 1
  }

  function Next(rest: string, s: Scanner): Scanner
    requires rest != []
  {
    var c := rest[0];
    if s.quoted then
      if DoubledQuote(rest) then s.(field := s.field + "\"")
      else if c == '"' then s.(quoted := false)
      else s.(field := s.field + [c])
    else if c == '"' && s.field == "" then s.(quoted := true)
    else if c == ',' then s.(record := s.record + [s.field], field := "")
    else if c == '\n' then Scanner(s.records + [s.record + [Chomp(s.field)]], [], "", false)
    else s.(field := s.field + [c])
  }

  function Scan(rest: string, s: Scanner): Scanner {
    if rest == [] then s else Scan(rest[Taken(rest, s)..], Next(rest, s))
  }

  /** The records of a text: what the scanner collected, with a last line that has no line break. */
  function Collected(s: Scanner, maxRows: nat): Result<seq<seq<string>>, Error> {
    if |s.records| > maxRows + 1 then Err(RowLimit)
    else if s.quoted then Err(Unterminated)
    else if s.field == "" && s.record == [] then Ok(s.records)
    else if |s.records| + 1 > maxRows + 1 then Err(RowLimit)
    else Ok(s.records + [s.record + [s.field]])
  }

  // From records to rows.

  function TrimLeft(s: string): string {
    if s != [] && White(s[0]) then TrimLeft(s[1..]) else s
  }

  function TrimRight(s: string): string {
    if s != [] && White(s[|s| - 1]) then TrimRight(s[..|s| - 1]) else s
  }

  function Trim(s: string): string {
    TrimRight(TrimLeft(s))
  }

  function Trimmed(headers: seq<string>): (r: seq<string>)
    ensures |r| == |headers| && forall i :: 0 <= i < |r| ==> r[i] == Trim(headers[i])
  {
    seq(|headers|, i requires 0 <= i < |headers| => Trim(headers[i]))
  }

  predicate AllBlank(headers: seq<string>) {
    forall h :: h in headers ==> Trim(h) == ""
  }

  predicate Distinct(headers: seq<string>) {
    forall i, j :: 0 <= i < j < |headers| ==> headers[i] != headers[j]
  }

  /** The first header that is empty or unsafe decides the error. */
  function HeaderError(headers: seq<string>): Option<Error> {
    if headers == [] then None
    else if headers[0] == "" then Some(EmptyHeader)
    else if headers[0] in FORBIDDEN_KEYS then Some(UnsafeKey)
    else HeaderError(headers[1..])
  }

  predicate HasContent(values: seq<string>) {
    exists v :: v in values && v != ""
  }

  function WithContent(records: seq<seq<string>>): seq<seq<string>> {
    if records == [] then []
    else (if HasContent(records[0]) then [records[0]] else []) + WithContent(records[1..])
  }

  function RowOf(headers: seq<string>, values: seq<string>): Row
    requires |headers| == |values|
  {
    if headers == [] then map[]
    else RowOf(headers[..|headers| - 1], values[..|headers| - 1])[headers[|headers| - 1] := values[|headers| - 1]]
  }

  function RowsOf(headers: seq<string>, records: seq<seq<string>>): Result<seq<Row>, Error> {
    if records == [] then Ok([])
    else if |records[0]| != |headers| then Err(ColumnCount)
    else
      match RowsOf(headers, records[1..])
      case Err(e) => Err(e)
      case Ok(rows) => Ok([RowOf(headers, records[0])] + rows)
  }

  function Rows(records: seq<seq<string>>): Result<seq<Row>, Error> {
    if records == [] || AllBlank(records[0]) then Ok([])
    else
      var headers := Trimmed(records[0]);
      match HeaderError(headers)
      case Some(e) => Err(e)
      case None => if !Distinct(headers) then Err(DuplicateHeader) else RowsOf(headers, WithContent(records[1..]))
  }

  function Parse(input: string, maxRows: nat, maxBytes: int): Result<seq<Row>, Error> {
    if maxBytes < 1 then Err(InvalidByteLimit)
    else if Utf8Length(input) > maxBytes || Utf8Length(input) > MAX_CSV_INPUT_BYTES then Err(ByteLimit)
    else
      match Collected(Scan(input, Start), maxRows)
      case Err(e) => Err(e)
      case Ok(records) => Rows(records)
  }

  lemma {:induction false} RecordsGrow(rest: string, s: Scanner)
    ensures |Scan(rest, s).records| >= |s.records|
    decreases |rest|
  {
    if rest != [] {
      RecordsGrow(rest[Taken(rest, s)..], Next(rest, s));
    }
  }

  /** The index loop over the input. */
  method ScanRecords(input: string, maxRows: nat) returns (r: Result<seq<seq<string>>, Error>)
    ensures r == Collected(Scan(input, Start), maxRows)
  {
    var records: seq<seq<string>>, record: seq<string>, field, quoted := [], [], "", false;
    var index := 0;
    assert input[0..] == input;
    while index < |input|
      invariant index <= |input| && |records| <= maxRows + 1
      invariant Scan(input[index..], Scanner(records, record, field, quoted)) == Scan(input, Start)
    {
      var rest := input[index..];
      var c := input[index];
      ghost var before := Scanner(records, record, field, quoted);
      assert rest[Taken(rest, before)..] == input[index + Taken(rest, before)..];
      if quoted {
        if c == '"' && index + 1 < |input| && input[index + 1] == '"' {
          field := field + "\"";
          index := index + 1;
        } else if c == '"' {
          quoted := false;
        } else {
          field := field + [c];
        }
      } else if c == '"' && |field| == 0 {
        quoted := true;
      } else if c == ',' {
        record := record + [field];
        field := "";
      } else if c == '\n' {
        record := record + [Chomp(field)];
        records := records + [record];
        record, field := [], "";
        if |records| > maxRows + 1 {
          RecordsGrow(rest[1..], Next(rest, before));
          return Err(RowLimit);
        }
      } else {
        field := field + [c];
      }
      index := index + 1;
    }
    assert input[index..] == [];
    if quoted {
      return Err(Unterminated);
    }
    if |field| > 0 || |record| > 0 {
      record := record + [field];
      records := records + [record];
      if |records| > maxRows + 1 {
        return Err(RowLimit);
      }
    }
    return Ok(records);
  }

  method ParseCsv(input: string, maxRows: nat, maxBytes: int) returns (r: Result<seq<Row>, Error>)
    ensures r == Parse(input, maxRows, maxBytes)
  {
    if maxBytes < 1 {
      return Err(InvalidByteLimit);
    }
    var boundedMaxBytes := if maxBytes < MAX_CSV_INPUT_BYTES then maxBytes else MAX_CSV_INPUT_BYTES;
    if Utf8Length(input) > boundedMaxBytes {
      return Err(ByteLimit);
    }
    var records := ScanRecords(input, maxRows);
    if records.Err? {
      return Err(records.error);
    }
    return Rows(records.value);
  }

  // Writing.

  /** A JSON primitive as String() renders it; null is the empty string. */
  datatype Cell = NullCell | BoolCell(value: bool) | NumberCell(rendered: string) | TextCell(text: string)

  function Render(c: Cell): string {
    match c
    case NullCell => ""
    case BoolCell(b) => if b then "true" else "false"
    case NumberCell(t) => t
    case TextCell(t) => t
  }

  predicate Signed(s: string) {
    s != [] && (s[0] in {'=', '+', '@', '-'} || (White(s[0]) && Signed(s[1..])))
  }

  /** What a spreadsheet may take for a formula. */
  predicate FormulaLike(s: string) {
    (s != [] && (s[0] == '\t' || s[0] == '\r')) || Signed(s)
  }

  function Guarded(s: string): string {
    if FormulaLike(s) then "'" + s else s
  }

  function Doubled(s: string): string {
    if s == [] then [] else (if s[0] == '"' then "\"\"" else [s[0]]) + Doubled(s[1..])
  }

  predicate NeedsQuotes(s: string) {
    '"' in s || ',' in s || '\r' in s || '\n' in s
  }

  function Written(s: string): string {
    if NeedsQuotes(s) then "\"" + (Doubled(s) + "\"") else s
  }

  function Line(fields: seq<string>): string {
    if fields == [] then ""
    else if |fields| == 1 then Written(fields[0])
    else Written(fields[0]) + ("," + Line(fields[1..]))
  }

  function Lines(grid: seq<seq<string>>): string {
    if grid == [] then "" else Lines(grid[..|grid| - 1]) + (Line(grid[|grid| - 1]) + "\r\n")
  }

  function CellAt(row: map<string, Cell>, header: string): Cell {
    if header in row then row[header] else NullCell
  }

  function GuardedHeaders(headers: seq<string>): (fields: seq<string>)
    ensures |fields| == |headers| && forall i :: 0 <= i < |fields| ==> fields[i] == Guarded(headers[i])
  {
    seq(|headers|, i requires 0 <= i < |headers| => Guarded(headers[i]))
  }

  function Fields(headers: seq<string>, row: map<string, Cell>): (fields: seq<string>)
    ensures |fields| == |headers|
    ensures forall i :: 0 <= i < |fields| ==> fields[i] == Guarded(Render(CellAt(row, headers[i])))
  {
    seq(|headers|, i requires 0 <= i < |headers| => Guarded(Render(CellAt(row, headers[i]))))
  }

  function Grid(headers: seq<string>, rows: seq<map<string, Cell>>): (grid: seq<seq<string>>)
    ensures |grid| == |rows| + 1 && grid[0] == GuardedHeaders(headers)
    ensures forall k :: 0 <= k < |rows| ==> grid[k + 1] == Fields(headers, rows[k])
  {
    [GuardedHeaders(headers)] + seq(|rows|, k requires 0 <= k < |rows| => Fields(headers, rows[k]))
  }

  function Escaped(headers: seq<string>, row: map<string, Cell>): nat {
    if headers == [] then 0
    else
      var last := headers[|headers| - 1];
      Escaped(headers[..|headers| - 1], row) + if FormulaLike(Render(CellAt(row, last))) then 1 else 0
  }

  function EscapedCells(headers: seq<string>, rows: seq<map<string, Cell>>): nat {
    if rows == [] then 0 else EscapedCells(headers, rows[..|rows| - 1]) + Escaped(headers, rows[|rows| - 1])
  }

  /** The headers stand for the keys of all rows, each once, in the order of the locale. */
  ghost predicate Enumerates(headers: seq<string>, rows: seq<map<string, Cell>>) {
    && Distinct(headers)
    && forall h :: h in headers <==> exists row :: row in rows && h in row
  }

  datatype Serialized = Serialized(content: string, escapedFormulaCells: nat)

  predicate Serializable(headers: seq<string>, rows: seq<map<string, Cell>>) {
    |rows| <= MAX_WORKFLOW_ROWS && forall h :: h in headers ==> h !in FORBIDDEN_KEYS
  }

  lemma LinesSnoc(grid: seq<seq<string>>, k: nat)
    requires k < |grid|
    ensures Lines(grid[..k + 1]) == Lines(grid[..k]) + (Line(grid[k]) + "\r\n")
  {
    assert grid[..k + 1][..k] == grid[..k];
  }

  method CountEscaped(headers: seq<string>, row: map<string, Cell>) returns (n: nat)
    ensures n == Escaped(headers, row)
  {
    n := 0;
    for i := 0 to |headers|
      invariant n == Escaped(headers[..i], row)
    {
      assert headers[..i + 1][..i] == headers[..i];
      if FormulaLike(Render(CellAt(row, headers[i]))) {
        n := n + 1;
      }
    }
    assert headers[..|headers|] == headers;
  }

  /** The content and the count after the first k rows. */
  ghost predicate WrittenUpTo(headers: seq<string>, rows: seq<map<string, Cell>>, k: nat, content: string, escaped: nat)
    requires k <= |rows|
  {
    content == Lines(Grid(headers, rows)[..k + 1]) && escaped == EscapedCells(headers, rows[..k])
  }

  lemma WritesHeader(headers: seq<string>, rows: seq<map<string, Cell>>)
    ensures WrittenUpTo(headers, rows, 0, Line(GuardedHeaders(headers)) + "\r\n", 0)
  {
    var grid := Grid(headers, rows);
    LinesSnoc(grid, 0);
    assert grid[..0] == [];
    assert "" + (Line(grid[0]) + "\r\n") == Line(grid[0]) + "\r\n";
  }

  lemma WritesRow(headers: seq<string>, rows: seq<map<string, Cell>>, k: nat, content: string, escaped: nat)
    requires k < |rows| && WrittenUpTo(headers, rows, k, content, escaped)
    ensures WrittenUpTo(headers, rows, k + 1, content + (Line(Fields(headers, rows[k])) + "\r\n"),
                        escaped + Escaped(headers, rows[k]))
  {
    var grid := Grid(headers, rows);
    LinesSnoc(grid, k + 1);
    assert grid[k + 1] == Fields(headers, rows[k]);
    EscapedSnoc(headers, rows, k);
  }

  lemma EscapedSnoc(headers: seq<string>, rows: seq<map<string, Cell>>, k: nat)
    requires k < |rows|
    ensures EscapedCells(headers, rows[..k + 1]) == EscapedCells(headers, rows[..k]) + Escaped(headers, rows[k])
  {
    assert rows[..k + 1][..k] == rows[..k];
  }

  lemma WritesAll(headers: seq<string>, rows: seq<map<string, Cell>>, content: string, escaped: nat)
    requires WrittenUpTo(headers, rows, |rows|, content, escaped)
    ensures Serialized(content, escaped) == Serialized(Lines(Grid(headers, rows)), EscapedCells(headers, rows))
  {
    var grid := Grid(headers, rows);
    assert grid[..|rows| + 1] == grid && rows[..|rows|] == rows;
  }

  /** The loop that pushes a line for every row below the header line. */
  method WriteLines(headers: seq<string>, rows: seq<map<string, Cell>>) returns (r: Serialized)
    ensures r == Serialized(Lines(Grid(headers, rows)), EscapedCells(headers, rows))
  {
    var content, escaped := Line(GuardedHeaders(headers)) + "\r\n", 0;
    WritesHeader(headers, rows);
    for k := 0 to |rows|
      invariant WrittenUpTo(headers, rows, k, content, escaped)
    {
      WritesRow(headers, rows, k, content, escaped);
      var n := CountEscaped(headers, rows[k]);
      content := content + (Line(Fields(headers, rows[k])) + "\r\n");
      escaped := escaped + n;
    }
    WritesAll(headers, rows, content, escaped);
    return Serialized(content, escaped);
  }

  method SerializeCsv(headers: seq<string>, rows: seq<map<string, Cell>>) returns (r: Result<Serialized, Error>)
    requires Enumerates(headers, rows)
    ensures r.Ok? <==> Serializable(headers, rows)
    ensures r.Ok? ==> r.value == Serialized(Lines(Grid(headers, rows)), EscapedCells(headers, rows))
    ensures r.Err? ==> r.error == if |rows| > MAX_WORKFLOW_ROWS then RowLimit else UnsafeKey
  {
    if |rows| > MAX_WORKFLOW_ROWS {
      return Err(RowLimit);
    }
    if exists h :: h in headers && h in FORBIDDEN_KEYS {
      return Err(UnsafeKey);
    }
    var serialized := WriteLines(headers, rows);
    return Ok(serialized);
  }
}
