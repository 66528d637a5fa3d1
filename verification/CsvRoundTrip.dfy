/** Which tables, written as RFC 4180 says, are read back by `parseCsv`. */
module CsvRoundTrip {
  import opened Csv
  import opened CsvTable
  import opened Decimal

  // ---------------------------------------------------------------- white space

  predicate Blank(s: string) {
    forall i :: 0 <= i < |s| ==> IsSpace(s[i])
  }

  predicate Tight(s: string) {
    s != "" && !IsSpace(s[0]) && !IsSpace(s[|s| - 1])
  }

  lemma {:induction false} TrimEndBlank(s: string)
    ensures TrimEnd(s) == "" <==> Blank(s)
  {
    if s != "" && IsSpace(s[|s| - 1]) {
      TrimEndBlank(s[..|s| - 1]);
      assert forall i :: 0 <= i < |s| - 1 ==> s[i] == s[..|s| - 1][i];
    }
  }

  lemma {:induction false} TrimBlank(s: string)
    ensures Trim(s) == "" <==> Blank(s)
  {
    if s != "" && IsSpace(s[0]) {
      TrimBlank(s[1..]);
      assert forall i :: 0 < i < |s| ==> s[i] == s[1..][i - 1];
    } else {
      TrimEndBlank(s);
    }
  }

  /** A trimmed text has no outer white space, so trimming it again changes nothing. */
  lemma {:induction false} TrimEndEnds(s: string)
    ensures TrimEnd(s) != "" ==> !IsSpace(TrimEnd(s)[|TrimEnd(s)| - 1])
    ensures TrimEnd(s) <= s
  {
    if s != "" && IsSpace(s[|s| - 1]) {
      TrimEndEnds(s[..|s| - 1]);
    }
  }

  lemma {:induction false} TrimStartStarts(s: string)
    ensures TrimStart(s) != "" ==> !IsSpace(TrimStart(s)[0])
  {
    if s != "" && IsSpace(s[0]) {
      TrimStartStarts(s[1..]);
    }
  }

  /** A text is its own trimming exactly when it is empty or has no outer white space. */
  lemma TrimSame(s: string)
    ensures Trim(s) == s <==> s == "" || Tight(s)
  {
    TrimStartStarts(s);
    TrimEndEnds(TrimStart(s));
  }

  // ---------------------------------------------------------------- written lines

  /** A field without line feeds; line breaks of any kind need quotes, as rule 6 says. */
  predicate CellOk(c: Cell) {
    Writable(c) && '\n' !in c.text && (c.Bare? ==> '\r' !in c.text)
  }

  /** A line that is not blank: a single field of nothing but white space has to be written in quotes. */
  predicate LineOk(cells: seq<Cell>) {
    && |cells| > 0 && (forall i :: 0 <= i < |cells| ==> CellOk(cells[i]))
    && !(|cells| == 1 && cells[0].Bare? && Blank(cells[0].text))
  }

  /** The last field of the file: a bare one ends in no white space, which would go with the file's edge. */
  predicate EdgeOk(c: Cell) {
    c.Bare? && c.text != "" ==> !IsSpace(c.text[|c.text| - 1])
  }

  lemma {:induction false} DoubledClean(text: string)
    requires '\n' !in text
    ensures '\n' !in Doubled(text)
  {
    if text != "" {
      DoubledClean(text[1..]);
    }
  }

  /** What a line is like: no line feeds, no carriage return at its end, something to see, and an end that trimming leaves. */
  predicate LineLike(line: string, last: Cell) {
    && '\n' !in line
    && (line != "" ==> line[|line| - 1] != '\r')
    && (line != "" && EdgeOk(last) ==> !IsSpace(line[|line| - 1]))
  }

  lemma OneCell(c: Cell)
    requires CellOk(c)
    ensures LineLike(CellText(c), c) && (Blank(CellText(c)) <==> c.Bare? && Blank(c.text))
  {
    DoubledClean(c.text);
    if c.Bare? && c.text != "" {
      assert c.text[|c.text| - 1] in c.text;
    }
    if c.Quoted? {
      assert !IsSpace(CellText(c)[0]);
    }
  }

  lemma {:induction false} LineClean(cells: seq<Cell>)
    requires |cells| > 0 && forall i :: 0 <= i < |cells| ==> CellOk(cells[i])
    ensures LineLike(Line(cells), cells[|cells| - 1])
    ensures Blank(Line(cells)) <==> |cells| == 1 && cells[0].Bare? && Blank(cells[0].text)
  {
    OneCell(cells[0]);
    if |cells| > 1 {
      LineClean(cells[1..]);
      LinesJoined(CellText(cells[0]), Line(cells[1..]), cells[|cells| - 1]);
    }
  }

  lemma LinesJoined(first: string, rest: string, last: Cell)
    requires '\n' !in first && LineLike(rest, last)
    ensures LineLike(first + "," + rest, last) && !Blank(first + "," + rest)
  {
    var line := first + "," + rest;
    assert line[|first|] == ',';
    assert line[|line| - 1] == if rest == "" then ',' else rest[|rest| - 1];
  }

  // ---------------------------------------------------------------- written files

  function Join(lines: seq<string>, eol: string): string {
    if lines == [] then ""
    else if |lines| == 1 then lines[0]
    else lines[0] + (eol + Join(lines[1..], eol))
  }

  predicate IsEol(eol: string) {
    eol == "\n" || eol == "\r\n"
  }

  /** The line does not run into a line break after it. */
  predicate Stops(line: string) {
    line != "" ==> line[|line| - 1] != '\r'
  }

  lemma ReadEol(eol: string, rest: string, current: string)
    requires IsEol(eol)
    ensures LinesFrom(eol + rest, current) == [current] + LinesFrom(rest, "")
  {
    if eol == "\n" {
      assert ("\n" + rest)[1..] == rest;
    } else {
      assert ("\r\n" + rest)[2..] == rest;
    }
  }

  /** A text that stops, and what follows its line break, are split apart from each other. */
  lemma {:induction false} LinesApart(line: string, eol: string, rest: string, current: string)
    requires Stops(line) && IsEol(eol)
    ensures LinesFrom(line + (eol + rest), current) == LinesFrom(line, current) + LinesFrom(rest, "")
    decreases |line|
  {
    var all := line + (eol + rest);
    if line == "" {
      assert all == eol + rest;
      ReadEol(eol, rest, current);
    } else {
      assert all[0] == line[0] && all[1..] == line[1..] + (eol + rest);
      if line[0] == '\n' {
        LinesApart(line[1..], eol, rest, "");
        assert [current] + (LinesFrom(line[1..], "") + LinesFrom(rest, "")) == ([current] + LinesFrom(line[1..], "")) + LinesFrom(rest, "");
      } else if line[0] == '\r' && |line| > 1 && line[1] == '\n' {
        assert all[1] == '\n' && all[2..] == line[2..] + (eol + rest);
        LinesApart(line[2..], eol, rest, "");
        assert [current] + (LinesFrom(line[2..], "") + LinesFrom(rest, "")) == ([current] + LinesFrom(line[2..], "")) + LinesFrom(rest, "");
      } else {
        assert |line| > 1 ==> all[1] == line[1];
        LinesApart(line[1..], eol, rest, current + [line[0]]);
      }
    }
  }

  lemma {:induction false} NotBlankConcat(a: seq<string>, b: seq<string>)
    ensures NotBlank(a + b) == NotBlank(a) + NotBlank(b)
  {
    if a == [] {
      assert a + b == b;
    } else {
      assert (a + b)[1..] == a[1..] + b;
      NotBlankConcat(a[1..], b);
    }
  }

  /** The lines that are read from some written lines. */
  function Pieces(lines: seq<string>): seq<string> {
    if lines == [] then [] else NotBlank(LinesFrom(lines[0], "")) + Pieces(lines[1..])
  }

  lemma {:induction false} JoinRead(lines: seq<string>, eol: string)
    requires |lines| > 0 && IsEol(eol) && forall i :: 0 <= i < |lines| ==> Stops(lines[i])
    ensures NotBlank(LinesFrom(Join(lines, eol), "")) == Pieces(lines)
  {
    if |lines| == 1 {
      assert Pieces(lines[1..]) == [];
      assert NotBlank(LinesFrom(lines[0], "")) + [] == NotBlank(LinesFrom(lines[0], ""));
    } else {
      JoinRead(lines[1..], eol);
      LinesApart(lines[0], eol, Join(lines[1..], eol), "");
      NotBlankConcat(LinesFrom(lines[0], ""), LinesFrom(Join(lines[1..], eol), ""));
    }
  }

  lemma {:induction false} OneLine(line: string, current: string)
    requires '\n' !in line
    ensures LinesFrom(line, current) == [current + line]
  {
    if line == "" {
      assert current + line == current;
    } else {
      assert |line| > 1 ==> line[1] in line;
      OneLine(line[1..], current + [line[0]]);
      assert current + [line[0]] + line[1..] == current + line;
    }
  }

  /** Lines without line feeds that show something are read as they are. */
  lemma {:induction false} PiecesSame(lines: seq<string>)
    requires forall i :: 0 <= i < |lines| ==> '\n' !in lines[i] && !Blank(lines[i])
    ensures Pieces(lines) == lines
  {
    if lines != [] {
      OneLine(lines[0], "");
      assert "" + lines[0] == lines[0];
      TrimBlank(lines[0]);
      PiecesSame(lines[1..]);
      assert NotBlank([lines[0]]) == [lines[0]] + [];
      assert [lines[0]] + lines[1..] == lines;
    }
  }

  lemma {:induction false} JoinEdges(lines: seq<string>, eol: string)
    requires |lines| > 0 && lines[0] != "" && lines[|lines| - 1] != ""
    requires !IsSpace(lines[0][0]) && !IsSpace(lines[|lines| - 1][|lines[|lines| - 1]| - 1])
    ensures Tight(Join(lines, eol))
  {
    if |lines| > 1 {
      JoinEnd(lines[1..], eol);
      var rest := Join(lines[1..], eol);
      assert Join(lines, eol) == lines[0] + (eol + rest);
      assert Join(lines, eol)[0] == lines[0][0];
      assert Join(lines, eol)[|Join(lines, eol)| - 1] == rest[|rest| - 1];
    }
  }

  lemma {:induction false} JoinEnd(lines: seq<string>, eol: string)
    requires |lines| > 0 && lines[|lines| - 1] != ""
    ensures Join(lines, eol) != ""
    ensures Join(lines, eol)[|Join(lines, eol)| - 1] == lines[|lines| - 1][|lines[|lines| - 1]| - 1]
  {
    if |lines| > 1 {
      JoinEnd(lines[1..], eol);
      var rest := Join(lines[1..], eol);
      assert Join(lines, eol) == lines[0] + (eol + rest);
      assert Join(lines, eol)[|Join(lines, eol)| - 1] == rest[|rest| - 1];
    }
  }

  /** A byte order mark before the text and a line end after it go unnoticed. */
  lemma EdgesTrimmed(text: string, marked: bool, ending: string)
    requires Tight(text) && (ending == "" || IsEol(ending))
    ensures Trim(StripMark((if marked then ['\U{FEFF}'] else "") + (text + ending))) == text
  {
    var content := (if marked then ['\U{FEFF}'] else "") + (text + ending);
    assert StripMark(content) == text + ending by {
      if marked {
        assert content[1..] == text + ending;
      } else {
        assert content == text + ending;
        assert content[0] == text[0];
      }
    }
    assert TrimStart(text + ending) == text + ending by {
      assert (text + ending)[0] == text[0];
    }
    EndingTrimmed(text, ending);
  }

  lemma EndingTrimmed(text: string, ending: string)
    requires Tight(text) && (ending == "" || IsEol(ending))
    ensures TrimEnd(text + ending) == text
  {
    if ending == "" {
      assert text + ending == text;
    } else if ending == "\n" {
      assert (text + ending)[..|text|] == text;
    } else {
      assert (text + ending)[..|text| + 1] == text + "\r";
      assert (text + "\r")[..|text|] == text;
      assert TrimEnd(text + "\r") == TrimEnd(text) == text;
    }
  }

  // ---------------------------------------------------------------- written tables

  function LinesOf(table: seq<seq<Cell>>): (r: seq<string>)
    ensures |r| == |table| && forall i :: 0 <= i < |table| ==> r[i] == Line(table[i])
  {
    if table == [] then [] else [Line(table[0])] + LinesOf(table[1..])
  }

  /** A file: the lines of a table, the header first. */
  function File(table: seq<seq<Cell>>, eol: string, marked: bool, ended: bool): string {
    (if marked then ['\U{FEFF}'] else "") + (Join(LinesOf(table), eol) + (if ended then eol else ""))
  }

  function RowsOf(headers: seq<string>, rows: seq<seq<Cell>>): (r: seq<Row>)
    requires forall i :: 0 <= i < |rows| ==> |rows[i]| == |headers|
    ensures |r| == |rows| && forall i :: 0 <= i < |rows| ==> r[i] == RowOf(headers, Texts(rows[i]))
  {
    if rows == [] then [] else [RowOf(headers, Texts(rows[0]))] + RowsOf(headers, rows[1..])
  }

  /** A header that is usable as it is: distinct, non-empty, trimmed names. */
  predicate HeaderOk(names: seq<string>) {
    AllDistinct(names) && forall c :: 0 <= c < |names| ==> Tight(names[c])
  }

  /** A table with a usable header, and as many fields in every row. */
  ghost predicate TableOk(header: seq<Cell>, rows: seq<seq<Cell>>) {
    && LineOk(header) && HeaderOk(Texts(header))
    && (forall i :: 0 <= i < |rows| ==> LineOk(rows[i]) && |rows[i]| == |header|)
    && (rows != [] ==> var last := rows[|rows| - 1]; EdgeOk(last[|last| - 1]))
  }

  /** What is read from lines that were split as they were written. */
  function ReadTable(header: seq<string>, rows: seq<seq<Cell>>, text: string): Parsed
    requires forall i :: 0 <= i < |rows| ==> |rows[i]| == |header|
  {
    var names := TrimAll(header);
    if rows == [] then Error("csv_requires_header_and_row")
    else if "" in names then Error("invalid_csv_header")
    else if !AllDistinct(names) then Error("duplicate_csv_header")
    else if |rows| > IMPORT_MAX_ROWS then Error("import_row_limit_exceeded")
    else if Utf8Length(text) > IMPORT_MAX_BYTES then Error("import_size_limit_exceeded")
    else Table(names, RowsOf(names, rows))
  }

  lemma {:induction false} RowsRecovered(headers: seq<string>, rows: seq<seq<Cell>>, number: nat)
    requires forall i :: 0 <= i < |rows| ==> |rows[i]| == |headers| > 0
    requires forall i, c :: 0 <= i < |rows| && 0 <= c < |rows[i]| ==> Writable(rows[i][c])
    ensures RowsFrom(headers, LinesOf(rows), number) == Table(headers, RowsOf(headers, rows))
  {
    if rows != [] {
      SplitRecovers(rows[0]);
      RowsRecovered(headers, rows[1..], number + 1);
      assert LinesOf(rows)[1..] == LinesOf(rows[1..]);
    }
  }

  lemma ParseWritten(header: seq<Cell>, rows: seq<seq<Cell>>, text: string)
    requires |header| > 0 && forall c :: 0 <= c < |header| ==> Writable(header[c])
    requires forall i :: 0 <= i < |rows| ==> |rows[i]| == |header|
    requires forall i, c :: 0 <= i < |rows| && 0 <= c < |rows[i]| ==> Writable(rows[i][c])
    ensures ParseLines(text, LinesOf([header] + rows)) == ReadTable(Texts(header), rows, text)
  {
    var lines := LinesOf([header] + rows);
    assert ([header] + rows)[1..] == rows;
    assert lines[1..] == LinesOf(rows);
    SplitRecovers(header);
    RowsRecovered(TrimAll(Texts(header)), rows, 2);
  }

  lemma HeaderTrimmed(names: seq<string>)
    requires HeaderOk(names)
    ensures TrimAll(names) == names && "" !in names
  {
    forall c | 0 <= c < |names|
      ensures TrimAll(names)[c] == names[c]
    {
      TrimSame(names[c]);
    }
  }

  lemma WrittenEdges(header: seq<Cell>, rows: seq<seq<Cell>>, eol: string)
    requires TableOk(header, rows)
    ensures Tight(Join(LinesOf([header] + rows), eol))
  {
    var table := [header] + rows;
    var lines := LinesOf(table);
    var last := table[|table| - 1];
    LineClean(header);
    LineClean(last);
    assert lines[0] == Line(header) && lines[|lines| - 1] == Line(last);
    HeaderStarts(header);
    if rows == [] {
      assert Texts(header)[|header| - 1] == last[|last| - 1].text;
    }
    JoinEdges(lines, eol);
  }

  lemma HeaderStarts(header: seq<Cell>)
    requires LineOk(header) && HeaderOk(Texts(header))
    ensures Line(header) != "" && !IsSpace(Line(header)[0])
  {
    assert Tight(Texts(header)[0]);
    assert CellText(header[0]) != "" && !IsSpace(CellText(header[0])[0]);
    if |header| > 1 {
      assert Line(header) == CellText(header[0]) + "," + Line(header[1..]);
    }
  }

  /** Whatever the lines say, a file is read line by line as it was written. */
  lemma LinesRecovered(table: seq<seq<Cell>>, eol: string)
    requires |table| > 0 && IsEol(eol) && forall i :: 0 <= i < |table| ==> LineOk(table[i])
    ensures NotBlank(LinesFrom(Join(LinesOf(table), eol), "")) == LinesOf(table)
  {
    var lines := LinesOf(table);
    forall i | 0 <= i < |table|
      ensures '\n' !in lines[i] && !Blank(lines[i]) && Stops(lines[i])
    {
      LineClean(table[i]);
    }
    JoinRead(lines, eol);
    PiecesSame(lines);
  }

  /**
   * What is read from a written table, for any choice of quoting, line end, byte order mark and final line end: the
   * table itself within the limits on rows and bytes, and the error for the limit that is exceeded otherwise.
   */
  lemma TableRecovered(header: seq<Cell>, rows: seq<seq<Cell>>, eol: string, marked: bool, ended: bool)
    requires IsEol(eol) && TableOk(header, rows)
    ensures Parse(File([header] + rows, eol, marked, ended)) ==
      if rows == [] then Error("csv_requires_header_and_row")
      else if |rows| > IMPORT_MAX_ROWS then Error("import_row_limit_exceeded")
      else if Utf8Length(Join(LinesOf([header] + rows), eol)) > IMPORT_MAX_BYTES then Error("import_size_limit_exceeded")
      else Table(Texts(header), RowsOf(Texts(header), rows))
  {
    WrittenEdges(header, rows, eol);
    FileParsed([header] + rows, eol, marked, ended);
    RowsRead(header, rows, eol);
    WithinLimits(Texts(header), rows, Join(LinesOf([header] + rows), eol));
  }

  lemma RowsRead(header: seq<Cell>, rows: seq<seq<Cell>>, eol: string)
    requires IsEol(eol) && LineOk(header) && forall i :: 0 <= i < |rows| ==> LineOk(rows[i]) && |rows[i]| == |header|
    ensures var text := Join(LinesOf([header] + rows), eol);
      ParseLines(text, NotBlank(LinesFrom(text, ""))) == ReadTable(Texts(header), rows, text)
  {
    LinesRecovered([header] + rows, eol);
    ParseWritten(header, rows, Join(LinesOf([header] + rows), eol));
  }

  /** The byte order mark and the final line end have no effect. */
  lemma FileParsed(table: seq<seq<Cell>>, eol: string, marked: bool, ended: bool)
    requires IsEol(eol) && Tight(Join(LinesOf(table), eol))
    ensures var text := Join(LinesOf(table), eol);
      Parse(File(table, eol, marked, ended)) == ParseLines(text, NotBlank(LinesFrom(text, "")))
  {
    EdgesTrimmed(Join(LinesOf(table), eol), marked, if ended then eol else "");
  }

  lemma WithinLimits(names: seq<string>, rows: seq<seq<Cell>>, text: string)
    requires HeaderOk(names) && forall i :: 0 <= i < |rows| ==> |rows[i]| == |names|
    ensures ReadTable(names, rows, text) ==
      if rows == [] then Error("csv_requires_header_and_row")
      else if |rows| > IMPORT_MAX_ROWS then Error("import_row_limit_exceeded")
      else if Utf8Length(text) > IMPORT_MAX_BYTES then Error("import_size_limit_exceeded")
      else Table(names, RowsOf(names, rows))
  {
    HeaderTrimmed(names);
  }

  // ---------------------------------------------------------------- rows

  /** A row has a member for every header but `__proto__`, with the field in the header's column. */
  lemma {:induction false} RowMembers(headers: seq<string>, values: seq<string>)
    requires |headers| == |values| && AllDistinct(headers)
    ensures forall h :: h in RowOf(headers, values) <==> h in headers && h != PROTO
    ensures forall c :: 0 <= c < |headers| && headers[c] != PROTO ==> RowOf(headers, values)[headers[c]] == values[c]
  {
    if headers != [] {
      var n := |headers| - 1;
      RowMembers(headers[..n], values[..n]);
      assert headers == headers[..n] + [headers[n]];
      forall c | 0 <= c < |headers| && headers[c] != PROTO
        ensures RowOf(headers, values)[headers[c]] == values[c]
      {
        if c < n {
          assert headers[..n][c] == headers[c] != headers[n];
        }
      }
    }
  }

  /** The row has every field under the name of its column. */
  predicate HoldsFields(row: Row, names: seq<string>, cells: seq<Cell>)
    requires |names| == |cells|
  {
    forall c :: 0 <= c < |names| ==> names[c] in row && row[names[c]] == cells[c].text
  }

  lemma RowHoldsFields(names: seq<string>, cells: seq<Cell>)
    requires |names| == |cells| && AllDistinct(names)
    ensures HoldsFields(RowOf(names, Texts(cells)), names, cells) <==> PROTO !in names
  {
    var row := RowOf(names, Texts(cells));
    RowMembers(names, Texts(cells));
    if PROTO in names {
      var c :| 0 <= c < |names| && names[c] == PROTO;
      assert names[c] !in row;
    } else {
      forall c | 0 <= c < |names|
        ensures names[c] in row && row[names[c]] == cells[c].text
      {
        assert names[c] in names && names[c] != PROTO;
      }
    }
  }

  lemma RowsHoldFields(names: seq<string>, rows: seq<seq<Cell>>)
    requires |rows| > 0 && AllDistinct(names) && forall i :: 0 <= i < |rows| ==> |rows[i]| == |names|
    ensures PROTO !in names <==> forall i :: 0 <= i < |rows| ==> HoldsFields(RowsOf(names, rows)[i], names, rows[i])
  {
    forall i | 0 <= i < |rows|
      ensures HoldsFields(RowsOf(names, rows)[i], names, rows[i]) <==> PROTO !in names
    {
      RowHoldsFields(names, rows[i]);
    }
    assert HoldsFields(RowsOf(names, rows)[0], names, rows[0]) <==> PROTO !in names;
  }

  /** What is read is the table: its names, and field by field its rows. */
  predicate ComesBack(r: Parsed, names: seq<string>, rows: seq<seq<Cell>>)
    requires forall i :: 0 <= i < |rows| ==> |rows[i]| == |names|
  {
    r.Table? && r.headers == names && |r.rows| == |rows| && forall i :: 0 <= i < |rows| ==> HoldsFields(r.rows[i], names, rows[i])
  }

  /** So a table within the limits comes back field by field exactly when none of its columns is called `__proto__`. */
  lemma FieldsRecovered(header: seq<Cell>, rows: seq<seq<Cell>>, eol: string, marked: bool, ended: bool)
    requires IsEol(eol) && TableOk(header, rows) && 0 < |rows| <= IMPORT_MAX_ROWS
    requires Utf8Length(Join(LinesOf([header] + rows), eol)) <= IMPORT_MAX_BYTES
    ensures ComesBack(Parse(File([header] + rows, eol, marked, ended)), Texts(header), rows) <==> PROTO !in Texts(header)
  {
    TableRecovered(header, rows, eol, marked, ended);
    var read := Parse(File([header] + rows, eol, marked, ended));
    TableComesBack(read, Texts(header), rows);
  }

  lemma TableComesBack(read: Parsed, names: seq<string>, rows: seq<seq<Cell>>)
    requires |rows| > 0 && AllDistinct(names) && forall i :: 0 <= i < |rows| ==> |rows[i]| == |names|
    requires read == Table(names, RowsOf(names, rows))
    ensures ComesBack(read, names, rows) <==> PROTO !in names
  {
    RowsHoldFields(names, rows);
  }

  // ---------------------------------------------------------------- whatever is read

  lemma {:induction false} RowsSound(headers: seq<string>, lines: seq<string>, number: nat)
    requires AllDistinct(headers) && RowsFrom(headers, lines, number).Table?
    ensures var rows := RowsFrom(headers, lines, number).rows;
      |rows| == |lines| && forall i :: 0 <= i < |rows| ==> forall h :: h in rows[i] <==> h in headers && h != PROTO
  {
    if lines != [] {
      RowsSound(headers, lines[1..], number + 1);
      RowMembers(headers, Fields(lines[0]));
    }
  }

  /** Whatever the content, a table that is read keeps to the limits and has the same members in every row. */
  lemma ParsedIsWellFormed(content: string)
    requires Parse(content).Table?
    ensures var t := Parse(content);
      && 1 <= |t.rows| <= IMPORT_MAX_ROWS && Utf8Length(Trim(StripMark(content))) <= IMPORT_MAX_BYTES
      && AllDistinct(t.headers) && "" !in t.headers
      && forall i :: 0 <= i < |t.rows| ==> forall h :: h in t.rows[i] <==> h in t.headers && h != PROTO
  {
    var text := Trim(StripMark(content));
    var lines := NotBlank(LinesFrom(text, ""));
    RowsSound(TrimAll(Fields(lines[0])), lines[1..], 2);
  }

  // ---------------------------------------------------------------- which answer

  /** The row numbers of the answer count the lines that are not blank, the header being the first. */
  lemma {:induction false} RowsAnswer(headers: seq<string>, lines: seq<string>, number: nat)
    ensures RowsFrom(headers, lines, number).Table? <==> forall i :: 0 <= i < |lines| ==> |Fields(lines[i])| == |headers|
    ensures forall i :: 0 <= i < |lines| && MismatchAt(headers, lines, i) ==>
      RowsFrom(headers, lines, number) == Error("row_" + Dec(number + i) + "_column_mismatch")
  {
    if lines != [] {
      RowsAnswer(headers, lines[1..], number + 1);
      forall i | 0 < i < |lines|
        ensures lines[i] == lines[1..][i - 1]
        ensures MismatchAt(headers, lines, i) ==> MismatchAt(headers, lines[1..], i - 1)
      {
      }
    }
  }

  /** The first line with another number of fields than the header. */
  predicate MismatchAt(headers: seq<string>, lines: seq<string>, i: nat) {
    i < |lines| && |Fields(lines[i])| != |headers| && forall j :: 0 <= j < i ==> |Fields(lines[j])| == |headers|
  }

  /** Every field of the header says something, and no two say the same. */
  predicate UsableHeader(headers: seq<string>) {
    (forall c :: 0 <= c < |headers| ==> headers[c] != "") && forall c, d :: 0 <= c < d < |headers| ==> headers[c] != headers[d]
  }

  /**
   * For any content: a table is read exactly when there are a header and a row, the header is usable, every row has as many
   * fields, and both limits are kept; otherwise the answer is the first of these that fails.
   */
  lemma ParseAnswers(content: string)
    ensures var text := Trim(StripMark(content));
      var lines := NotBlank(LinesFrom(text, ""));
      && (text == "" ==> Parse(content) == Error("empty_csv"))
      && (text != "" && |lines| < 2 ==> Parse(content) == Error("csv_requires_header_and_row"))
      && (text != "" && |lines| >= 2 ==> LinesAnswer(text, lines, Parse(content)))
  {
    var text := Trim(StripMark(content));
    var lines := NotBlank(LinesFrom(text, ""));
    if text != "" && |lines| >= 2 {
      LinesAnswered(text, lines);
    }
  }

  predicate LinesAnswer(text: string, lines: seq<string>, answer: Parsed)
    requires |lines| >= 2
  {
    var headers, rest := TrimAll(Fields(lines[0])), lines[1..];
    && (!UsableHeader(headers) ==> answer == Error(if "" in headers then "invalid_csv_header" else "duplicate_csv_header"))
    && (UsableHeader(headers) ==>
          && (forall i :: 0 <= i < |rest| && MismatchAt(headers, rest, i) ==> answer == Error("row_" + Dec(i + 2) + "_column_mismatch"))
          && ((forall i :: 0 <= i < |rest| ==> |Fields(rest[i])| == |headers|) ==>
                && (|rest| > 500 ==> answer == Error("import_row_limit_exceeded"))
                && (|rest| <= 500 && Utf8Length(text) > 1048576 ==> answer == Error("import_size_limit_exceeded"))
                && (|rest| <= 500 && Utf8Length(text) <= 1048576 ==>
                      answer.Table? && answer.headers == headers && |answer.rows| == |rest|)))
  }

  lemma LinesAnswered(text: string, lines: seq<string>)
    requires |lines| >= 2
    ensures LinesAnswer(text, lines, ParseLines(text, lines))
  {
    var headers := TrimAll(Fields(lines[0]));
    RowsAnswer(headers, lines[1..], 2);
    assert "" in headers <==> exists c :: 0 <= c < |headers| && headers[c] == "";
    if UsableHeader(headers) && RowsFrom(headers, lines[1..], 2).Table? {
      RowsSound(headers, lines[1..], 2);
    }
  }

  /** A text has at least one and at most four bytes a character, and one exactly when it is ASCII. */
  lemma {:induction false} Utf8Bytes(s: string)
    ensures |s| <= Utf8Length(s) <= 4 * |s|
    ensures Utf8Length(s) == |s| <==> forall i :: 0 <= i < |s| ==> s[i] < '\U{80}'
  {
    if s != "" {
      Utf8Bytes(s[1..]);
      assert forall i :: 0 < i < |s| ==> s[i] == s[1..][i - 1];
    }
  }
}
