/** `parseCsv` (packages/kernel/src/crm-import.ts): a whole table, with its limits and its errors. */
module CsvTable {
  import opened Decimal
  import opened Csv

  const IMPORT_MAX_ROWS := 500
  const IMPORT_MAX_BYTES := 1024 * 1024

  // ---------------------------------------------------------------- text

  /** What `trim` strips: white space and line terminators of ECMAScript. */
  predicate IsSpace(c: char) {
    || '\U{9}' <= c <= '\U{D}' || c == ' ' || c == '\U{A0}' || c == '\U{1680}' || '\U{2000}' <= c <= '\U{200A}'
    || c == '\U{2028}' || c == '\U{2029}' || c == '\U{202F}' || c == '\U{205F}' || c == '\U{3000}' || c == '\U{FEFF}'
  }

  function TrimStart(s: string): string {
    if s != "" && IsSpace(s[0]) then TrimStart(s[1..]) else s
  }

  function TrimEnd(s: string): string {
    if s != "" && IsSpace(s[|s| - 1]) then TrimEnd(s[..|s| - 1]) else s
  }

  function Trim(s: string): string {
    TrimEnd(TrimStart(s))
  }

  function StripMark(s: string): string {
    if s != "" && s[0] == '\U{FEFF}' then s[1..] else s
  }

  /** The pieces between `\n` or `\r\n`, of a text of which some characters are read. */
  function LinesFrom(s: string, current: string): seq<string> {
    if s == "" then [current]
    else if s[0] == '\n' then [current] + LinesFrom(s[1..], "")
    else if s[0] == '\r' && |s| > 1 && s[1] == '\n' then [current] + LinesFrom(s[2..], "")
    else LinesFrom(s[1..], current + [s[0]])
  }

  function NotBlank(lines: seq<string>): seq<string> {
    if lines == [] then []
    else if Trim(lines[0]) != "" then [lines[0]] + NotBlank(lines[1..])
    else NotBlank(lines[1..])
  }

  function TrimAll(fields: seq<string>): (r: seq<string>)
    ensures |r| == |fields| && forall i :: 0 <= i < |fields| ==> r[i] == Trim(fields[i])
  {
    if fields == [] then [] else [Trim(fields[0])] + TrimAll(fields[1..])
  }

  function Utf8Length(s: string): nat {
    if s == "" then 0
    else (if s[0] < '\U{80}' then 1 else if s[0] < '\U{800}' then 2 else if s[0] < '\U{10000}' then 3 else 4) + Utf8Length(s[1..])
  }

  predicate AllDistinct(xs: seq<string>) {
    forall i, j :: 0 <= i < j < |xs| ==> xs[i] != xs[j]
  }

  // ---------------------------------------------------------------- rows

  type Row = map<string, string>

  datatype Parsed = Table(headers: seq<string>, rows: seq<Row>) | Error(reason: string)

  /** Assigning text to the member `__proto__` of an object leaves the object as it is. */
  const PROTO := "__proto__"

  /** The object a row becomes: its members assigned one after the other. */
  function RowOf(headers: seq<string>, values: seq<string>): Row
    requires |headers| == |values|
  {
    if headers == [] then map[]
    else
      var n := |headers| - 1;
      var row := RowOf(headers[..n], values[..n]);
      if headers[n] == PROTO then row else row[headers[n] := values[n]]
  }

  /** The rows of some lines, the first of which has a given number in the file. */
  function RowsFrom(headers: seq<string>, lines: seq<string>, number: nat): Parsed {
    if lines == [] then Table(headers, [])
    else if |Fields(lines[0])| != |headers| then Error("row_" + Dec(number) + "_column_mismatch")
    else
      match RowsFrom(headers, lines[1..], number + 1)
      case Error(reason) => Error(reason)
      case Table(_, rows) => Table(headers, [RowOf(headers, Fields(lines[0]))] + rows)
  }

  function ParseLines(text: string, lines: seq<string>): Parsed {
    if |lines| < 2 then Error("csv_requires_header_and_row")
    else
      var headers := TrimAll(Fields(lines[0]));
      if "" in headers then Error("invalid_csv_header")
      else if !AllDistinct(headers) then Error("duplicate_csv_header")
      else
        match RowsFrom(headers, lines[1..], 2)
        case Error(reason) => Error(reason)
        case Table(_, rows) =>
          if |rows| > IMPORT_MAX_ROWS then Error("import_row_limit_exceeded")
          else if Utf8Length(text) > IMPORT_MAX_BYTES then Error("import_size_limit_exceeded")
          else Table(headers, rows)
  }

  function Parse(content: string): Parsed {
    var text := Trim(StripMark(content));
    if text == "" then Error("empty_csv") else ParseLines(text, NotBlank(LinesFrom(text, "")))
  }

  /** With no lines left the rows read are all there are. */
  lemma AllRead(headers: seq<string>, lines: seq<string>, rows: seq<Row>)
    requires |lines| > 0
    requires After(headers, [], RowsFrom(headers, lines[1..], 2)) == After(headers, rows, RowsFrom(headers, lines[|lines|..], |lines| + 1))
    ensures RowsFrom(headers, lines[1..], 2).Table? && RowsFrom(headers, lines[1..], 2).rows == rows
  {
    assert lines[|lines|..] == [] && rows + [] == rows;
    var read := RowsFrom(headers, lines[1..], 2);
    assert read.Table? ==> [] + read.rows == read.rows;
  }

  method BuildRow(headers: seq<string>, values: seq<string>) returns (row: Row)
    requires |headers| == |values|
    ensures row == RowOf(headers, values)
  {
    row := map[];
    for c := 0 to |headers|
      invariant row == RowOf(headers[..c], values[..c])
    {
      assert headers[..c + 1][..c] == headers[..c] && values[..c + 1][..c] == values[..c];
      if headers[c] != PROTO {
        row := row[headers[c] := values[c]];
      }
    }
    assert headers[..|headers|] == headers && values[..|headers|] == values;
  }

  /** Some rows, and what becomes of the lines after them. */
  function After(headers: seq<string>, rows: seq<Row>, rest: Parsed): Parsed {
    match rest
    case Error(reason) => Error(reason)
    case Table(_, more) => Table(headers, rows + more)
  }

  lemma NextRow(headers: seq<string>, lines: seq<string>, i: nat, rows: seq<Row>)
    requires i < |lines|
    ensures |Fields(lines[i])| != |headers| ==>
              RowsFrom(headers, lines[i..], i + 1) == Error("row_" + Dec(i + 1) + "_column_mismatch")
    ensures |Fields(lines[i])| == |headers| ==>
              After(headers, rows, RowsFrom(headers, lines[i..], i + 1)) ==
              After(headers, rows + [RowOf(headers, Fields(lines[i]))], RowsFrom(headers, lines[i + 1..], i + 2))
  {
    assert lines[i..][0] == lines[i] && lines[i..][1..] == lines[i + 1..];
    if |Fields(lines[i])| == |headers| {
      var row, rest := RowOf(headers, Fields(lines[i])), RowsFrom(headers, lines[i + 1..], i + 2);
      assert rest.Table? ==> rows + ([row] + rest.rows) == (rows + [row]) + rest.rows;
    }
  }

  method ParseCsv(content: string) returns (r: Parsed)
    ensures r == Parse(content)
  {
    var text := Trim(StripMark(content));
    if text == "" {
      return Error("empty_csv");
    }
    var lines := NotBlank(LinesFrom(text, ""));
    if |lines| < 2 {
      return Error("csv_requires_header_and_row");
    }
    var first := SplitCsvLine(lines[0]);
    var headers := TrimAll(first);
    if "" in headers {
      return Error("invalid_csv_header");
    }
    if !AllDistinct(headers) {
      return Error("duplicate_csv_header");
    }
    var rows: seq<Row> := [];
    var i := 1;
    while i < |lines|
      invariant 1 <= i <= |lines|
      invariant After(headers, [], RowsFrom(headers, lines[1..], 2)) == After(headers, rows, RowsFrom(headers, lines[i..], i + 1))
    {
      NextRow(headers, lines, i, rows);
      var values := SplitCsvLine(lines[i]);
      if |values| != |headers| {
        return Error("row_" + Dec(i + 1) + "_column_mismatch");
      }
      var row := BuildRow(headers, values);
      rows := rows + [row];
      i := i + 1;
    }
    AllRead(headers, lines, rows);
    if |rows| > IMPORT_MAX_ROWS {
      return Error("import_row_limit_exceeded");
    }
    if Utf8Length(text) > IMPORT_MAX_BYTES {
      return Error("import_size_limit_exceeded");
    }
    return Table(headers, rows);
  }
}
