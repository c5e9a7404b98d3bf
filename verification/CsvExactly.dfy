/** What CSV cells and rows are, told character by character and field by field
    (packages/workflows/src/csv.ts). */
module CsvExactly {
  import opened Prelude
  import opened Csv

  // Cells.

  /** A first character other than white space is one of the four, or the first of all is a tab or a
      carriage return: the pattern of escapeCsv. */
  ghost predicate StartsFormula(s: string) {
    || (s != "" && s[0] in "\t\r")
    || (exists i :: 0 <= i < |s| && s[i] in "=+@-" && forall j :: 0 <= j < i ==> White(s[j]))
  }

  lemma {:induction false} SignedExactly(s: string)
    ensures Signed(s) <==> exists i :: 0 <= i < |s| && s[i] in "=+@-" && forall j :: 0 <= j < i ==> White(s[j])
  {
    if s != [] && White(s[0]) {
      SignedExactly(s[1..]);
      if Signed(s[1..]) {
        var i :| 0 <= i < |s[1..]| && s[1..][i] in "=+@-" && forall j :: 0 <= j < i ==> White(s[1..][j]);
        assert s[i + 1] in "=+@-";
        forall j | 0 <= j < i + 1
          ensures White(s[j])
        {
          assert j > 0 ==> White(s[1..][j - 1]);
        }
      }
      if i :| 0 <= i < |s| && s[i] in "=+@-" && forall j :: 0 <= j < i ==> White(s[j]) {
        assert i > 0;
        assert s[1..][i - 1] in "=+@-";
        assert forall j :: 0 <= j < i - 1 ==> White(s[1..][j]);
      }
    } else if s != [] {
      assert s[0] in "=+@-" <==> s[0] in {'=', '+', '@', '-'};
    }
  }

  /** Exactly those cells get an apostrophe in front, and nothing else happens to them. */
  lemma GuardedExactly(s: string)
    ensures Guarded(s) == if StartsFormula(s) then "'" + s else s
  {
    SignedExactly(s);
    assert s != "" ==> (s[0] in "\t\r" <==> s[0] == '\t' || s[0] == '\r');
  }

  /** A field is put between quotes exactly when it holds a quote, a comma or a line break, with every
      quote in it doubled. */
  lemma WrittenExactly(s: string)
    ensures Written(s) == if exists i :: 0 <= i < |s| && s[i] in "\",\r\n" then "\"" + (Doubled(s) + "\"") else s
  {
    if i :| 0 <= i < |s| && s[i] in "\",\r\n" {
      assert s[i] in s;
    }
  }

  /** Doubling keeps every character but a quote, which it puts twice. */
  lemma DoubledOne(c: char)
    ensures Doubled([c]) == if c == '"' then "\"\"" else [c]
  {
    assert [c][1..] == [];
  }

  lemma DoubledFirst(s: string)
    requires s != []
    ensures Doubled(s) == Doubled([s[0]]) + Doubled(s[1..])
  {
    DoubledOne(s[0]);
  }

  /** Cells are written as String() renders them, and null as nothing. */
  lemma RendersExactly(c: Cell)
    ensures match c
            case NullCell => Render(c) == ""
            case BoolCell(b) => Render(c) == (if b then "true" else "false")
            case NumberCell(t) => Render(c) == t
            case TextCell(t) => Render(c) == t
  {
  }

  // Trimming.

  /** Trimming takes the white space at both ends and no more. */
  lemma TrimExactly(s: string) returns (left: string, right: string)
    ensures s == left + Trim(s) + right
    ensures (forall c :: c in left ==> White(c)) && (forall c :: c in right ==> White(c))
    ensures Trim(s) != "" ==> !White(Trim(s)[0]) && !White(Trim(s)[|Trim(s)| - 1])
  {
    left := TrimLeftTakes(s);
    right := TrimRightTakes(TrimLeft(s));
    assert s == left + (Trim(s) + right);
  }

  lemma {:induction false} TrimLeftTakes(s: string) returns (left: string)
    ensures s == left + TrimLeft(s) && (forall c :: c in left ==> White(c))
    ensures TrimLeft(s) != "" ==> !White(TrimLeft(s)[0])
  {
    left := "";
    if s != [] && White(s[0]) {
      var rest := TrimLeftTakes(s[1..]);
      left := [s[0]] + rest;
    }
  }

  lemma {:induction false} TrimRightTakes(s: string) returns (right: string)
    ensures s == TrimRight(s) + right && (forall c :: c in right ==> White(c))
    ensures TrimRight(s) != "" ==> !White(TrimRight(s)[|TrimRight(s)| - 1])
  {
    right := "";
    if s != [] && White(s[|s| - 1]) {
      var rest := TrimRightTakes(s[..|s| - 1]);
      right := rest + [s[|s| - 1]];
      assert s == s[..|s| - 1] + [s[|s| - 1]];
    }
  }

  // Rows.

  /** The records with a field that is not empty, by their places. */
  ghost predicate Contentful(records: seq<seq<string>>, places: seq<nat>) {
    && (forall k, l :: 0 <= k < l < |places| ==> places[k] < places[l])
    && (forall p :: p in places <==> 0 <= p < |records| && exists v :: v in records[p] && v != "")
  }

  /** The row has the value of each field under its header, and nothing else. */
  ghost predicate IsRow(headers: seq<string>, values: seq<string>, row: Row) {
    && |values| == |headers|
    && (forall h :: h in row <==> h in headers)
    && (forall i :: 0 <= i < |headers| ==> headers[i] in row && row[headers[i]] == values[i])
  }

  lemma {:induction false} RowOfExactly(headers: seq<string>, values: seq<string>)
    requires |headers| == |values| && Distinct(headers)
    ensures IsRow(headers, values, RowOf(headers, values))
  {
    if headers != [] {
      var n := |headers| - 1;
      RowOfExactly(headers[..n], values[..n]);
      var rest := RowOf(headers[..n], values[..n]);
      forall i | 0 <= i < n
        ensures headers[i] in rest && rest[headers[i]] == values[i] && headers[i] != headers[n]
      {
        assert headers[..n][i] == headers[i];
      }
      forall h
        ensures h in headers <==> h in headers[..n] || h == headers[n]
      {
      }
    }
  }

  lemma {:induction false} WithContentPlaces(records: seq<seq<string>>) returns (places: seq<nat>)
    ensures Contentful(records, places) && Picked(records, places)
  {
    if records == [] {
      places := [];
    } else {
      var rest := WithContentPlaces(records[1..]);
      places := (if HasContent(records[0]) then [0] else []) + Shifted(rest);
      PlacesShift(records, rest);
      PickedShift(records, rest);
    }
  }

  /** The records at those places are what is kept. */
  ghost predicate Picked(records: seq<seq<string>>, places: seq<nat>) {
    && |WithContent(records)| == |places|
    && forall k :: 0 <= k < |places| ==> places[k] < |records| && WithContent(records)[k] == records[places[k]]
  }

  function Shifted(rest: seq<nat>): (shifted: seq<nat>)
    ensures |shifted| == |rest| && forall k :: 0 <= k < |rest| ==> shifted[k] == rest[k] + 1
  {
    seq(|rest|, k requires 0 <= k < |rest| => rest[k] + 1)
  }

  lemma PickedShift(records: seq<seq<string>>, rest: seq<nat>)
    requires records != [] && Picked(records[1..], rest)
    ensures Picked(records, (if HasContent(records[0]) then [0] else []) + Shifted(rest))
  {
  }

  lemma PlacesShift(records: seq<seq<string>>, rest: seq<nat>)
    requires records != [] && Contentful(records[1..], rest)
    ensures Contentful(records, (if HasContent(records[0]) then [0] else []) + Shifted(rest))
  {
    var places := (if HasContent(records[0]) then [0] else []) + Shifted(rest);
    forall p: nat
      ensures p in places <==> p < |records| && exists v :: v in records[p] && v != ""
    {
      PlaceShifts(records, rest, Shifted(rest), p);
      assert p in places <==> (p == 0 && HasContent(records[0])) || p in Shifted(rest);
    }
  }

  lemma PlaceShifts(records: seq<seq<string>>, rest: seq<nat>, shifted: seq<nat>, p: nat)
    requires records != [] && Contentful(records[1..], rest)
    requires |shifted| == |rest| && forall k :: 0 <= k < |rest| ==> shifted[k] == rest[k] + 1
    ensures p in shifted <==> 0 < p < |records| && exists v :: v in records[p] && v != ""
  {
    if p in shifted {
      var k :| 0 <= k < |shifted| && shifted[k] == p;
      assert rest[k] in rest && records[1..][p - 1] == records[p];
    }
    if 0 < p < |records| && exists v :: v in records[p] && v != "" {
      assert records[1..][p - 1] == records[p];
      assert p - 1 in rest;
      var k :| 0 <= k < |rest| && rest[k] == p - 1;
      assert shifted[k] == p;
    }
  }

  predicate BadHeader(h: string) {
    h == "" || h == "__proto__" || h == "prototype" || h == "constructor"
  }

  /** The first header that is empty or unsafe, if any, decides. */
  lemma {:induction false} HeaderErrorExactly(headers: seq<string>)
    ensures HeaderError(headers).None? <==> forall i :: 0 <= i < |headers| ==> !BadHeader(headers[i])
    ensures HeaderError(headers).Some? ==>
              exists i :: 0 <= i < |headers| && BadHeader(headers[i]) && (forall j :: 0 <= j < i ==> !BadHeader(headers[j]))
                          && HeaderError(headers).value == if headers[i] == "" then EmptyHeader else UnsafeKey
  {
    if headers != [] && !BadHeader(headers[0]) {
      HeaderErrorExactly(headers[1..]);
      if HeaderError(headers).Some? {
        var i :| 0 <= i < |headers[1..]| && BadHeader(headers[1..][i]) && (forall j :: 0 <= j < i ==> !BadHeader(headers[1..][j]))
                 && HeaderError(headers).value == if headers[1..][i] == "" then EmptyHeader else UnsafeKey;
        assert BadHeader(headers[i + 1]);
        assert forall j :: 0 < j < i + 1 ==> headers[j] == headers[1..][j - 1];
      } else {
        assert forall j :: 0 < j < |headers| ==> headers[j] == headers[1..][j - 1];
      }
    }
  }

  lemma {:induction false} RowsOfExactly(headers: seq<string>, records: seq<seq<string>>)
    requires Distinct(headers)
    ensures var r := RowsOf(headers, records);
            && (r.Ok? <==> forall k :: 0 <= k < |records| ==> |records[k]| == |headers|)
            && (r.Err? ==> r.error == ColumnCount)
            && (r.Ok? ==> |r.value| == |records| && forall k :: 0 <= k < |records| ==> IsRow(headers, records[k], r.value[k]))
  {
    if records != [] {
      RowsOfExactly(headers, records[1..]);
      if |records[0]| == |headers| {
        RowOfExactly(headers, records[0]);
        assert forall k :: 0 < k < |records| ==> records[k] == records[1..][k - 1];
      }
    }
  }

  /** The rows of a file: none under a blank header line; and else, exactly when the trimmed headers are all
      good and different and every record with content has a field for each, one row for each such record,
      in their order, with the fields under the headers. */
  lemma RowsExactly(records: seq<seq<string>>) returns (places: seq<nat>)
    ensures var r := Rows(records);
            if records == [] || forall h :: h in records[0] ==> Trim(h) == "" then r == Ok([])
            else
              var headers, lines := Trimmed(records[0]), records[1..];
              && Contentful(lines, places)
              && (r.Ok? <==>
                    && (forall i :: 0 <= i < |headers| ==> !BadHeader(headers[i])) && Distinct(headers)
                    && forall k :: 0 <= k < |places| ==> places[k] < |lines| && |lines[places[k]]| == |headers|)
              && (r.Ok? ==> |r.value| == |places| && forall k :: 0 <= k < |places| ==> IsRow(headers, lines[places[k]], r.value[k]))
              && (r.Err? ==> if exists i :: 0 <= i < |headers| && BadHeader(headers[i]) then r.error == EmptyHeader || r.error == UnsafeKey
                             else r.error == if Distinct(headers) then ColumnCount else DuplicateHeader)
  {
    places := [];
    if records != [] {
      places := WithContentPlaces(records[1..]);
      HeadedRowsExactly(Trimmed(records[0]), records[1..], places);
    }
  }

  /** The rows below headers that are not all blank. */
  function RowsUnder(headers: seq<string>, lines: seq<seq<string>>): Result<seq<Row>, Error> {
    match HeaderError(headers)
    case Some(e) => Err(e)
    case None => if !Distinct(headers) then Err(DuplicateHeader) else RowsOf(headers, WithContent(lines))
  }

  lemma HeadedRowsExactly(headers: seq<string>, lines: seq<seq<string>>, places: seq<nat>)
    requires Picked(lines, places)
    ensures var r := RowsUnder(headers, lines);
            && (r.Ok? <==>
                  && (forall i :: 0 <= i < |headers| ==> !BadHeader(headers[i])) && Distinct(headers)
                  && forall k :: 0 <= k < |places| ==> |lines[places[k]]| == |headers|)
            && (r.Ok? ==> |r.value| == |places| && forall k :: 0 <= k < |places| ==> IsRow(headers, lines[places[k]], r.value[k]))
            && (r.Err? ==> if exists i :: 0 <= i < |headers| && BadHeader(headers[i]) then r.error == EmptyHeader || r.error == UnsafeKey
                           else r.error == if Distinct(headers) then ColumnCount else DuplicateHeader)
  {
    HeaderErrorExactly(headers);
    if Distinct(headers) {
      RowsOfExactly(headers, WithContent(lines));
      assert forall k :: 0 <= k < |places| ==> WithContent(lines)[k] == lines[places[k]];
    }
  }

  // Bytes (section 3 of RFC 3629).

  function Utf8(s: string): seq<nat> {
    if s == [] then []
    else
      (var c := s[0] as int;
       if c < 0x80 then [c]
       else if c < 0x800 then [0xc0 + c / 0x40, 0x80 + c % 0x40]
       else if c < 0x1_0000 then [0xe0 + c / 0x1000, 0x80 + c / 0x40 % 0x40, 0x80 + c % 0x40]
       else [0xf0 + c / 0x4_0000, 0x80 + c / 0x1000 % 0x40, 0x80 + c / 0x40 % 0x40, 0x80 + c % 0x40]) + Utf8(s[1..])
  }

  /** The length an input is measured by is that of its UTF-8 encoding. */
  lemma {:induction false} Utf8LengthIs(s: string)
    ensures Utf8Length(s) == |Utf8(s)|
  {
    if s != [] {
      Utf8LengthIs(s[1..]);
    }
  }
}
