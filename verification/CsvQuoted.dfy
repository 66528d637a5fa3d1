/** Exactly which tables come back when every field is written in quotes. */
module CsvQuoted {
  import opened Csv
  import opened CsvTable
  import opened CsvRoundTrip

  /** The rows with every field in quotes. */
  function Quotes(rows: seq<seq<string>>): (r: seq<seq<Cell>>)
    ensures |r| == |rows| && forall i :: 0 <= i < |rows| ==> r[i] == QuoteAll(rows[i])
  {
    if rows == [] then [] else [QuoteAll(rows[0])] + Quotes(rows[1..])
  }

  predicate NoLineFeed(fields: seq<string>) {
    forall c :: 0 <= c < |fields| ==> '\n' !in fields[c]
  }

  // ---------------------------------------------------------------- quoted lines

  lemma {:induction false} QuoteAllQuotes(fields: seq<string>)
    ensures forall c :: 0 <= c < |fields| ==> QuoteAll(fields)[c] == Quoted(fields[c])
  {
    if fields != [] {
      QuoteAllQuotes(fields[1..]);
    }
  }

  lemma {:induction false} QuotedEnds(fields: seq<string>)
    requires |fields| > 0
    ensures var line := Line(QuoteAll(fields)); |line| > 1 && line[0] == '"' && line[|line| - 1] == '"'
  {
    if |fields| > 1 {
      QuotedEnds(fields[1..]);
      var first, rest := CellText(Quoted(fields[0])), Line(QuoteAll(fields[1..]));
      assert QuoteAll(fields)[1..] == QuoteAll(fields[1..]);
      assert Line(QuoteAll(fields)) == first + "," + rest;
      assert (first + "," + rest)[|first + "," + rest| - 1] == rest[|rest| - 1];
    }
  }

  lemma {:induction false} DoubledKeeps(text: string)
    requires '\n' in text
    ensures '\n' in Doubled(text)
  {
    if text[0] != '\n' {
      assert '\n' in text[1..];
      DoubledKeeps(text[1..]);
    }
  }

  /** A line feed in a field is a line feed in the line. */
  lemma {:induction false} LineKeeps(fields: seq<string>)
    requires |fields| > 0 && !NoLineFeed(fields)
    ensures '\n' in Line(QuoteAll(fields))
  {
    var first := CellText(Quoted(fields[0]));
    if '\n' in fields[0] {
      DoubledKeeps(fields[0]);
      assert '\n' in first;
    } else {
      var c :| 0 <= c < |fields| && '\n' in fields[c];
      assert fields[1..][c - 1] == fields[c];
      LineKeeps(fields[1..]);
      assert QuoteAll(fields)[1..] == QuoteAll(fields[1..]);
    }
    if |fields| > 1 {
      assert Line(QuoteAll(fields)) == first + "," + Line(QuoteAll(fields)[1..]);
    }
  }

  // ---------------------------------------------------------------- broken lines

  /** A text that begins and ends with something to see is read as at least one line, and as two when it holds a line feed. */
  lemma {:induction false} SeenLines(line: string, current: string)
    requires line != "" && !IsSpace(line[|line| - 1])
    ensures |NotBlank(LinesFrom(line, current))| >= 1
    ensures '\n' in line && !Blank(current) ==> |NotBlank(LinesFrom(line, current))| >= 2
    decreases |line|
  {
    TrimBlank(current);
    if line[0] == '\n' {
      SeenLines(line[1..], "");
      FirstSeen(current, LinesFrom(line[1..], ""));
    } else if line[0] == '\r' && |line| > 1 && line[1] == '\n' {
      SeenLines(line[2..], "");
      FirstSeen(current, LinesFrom(line[2..], ""));
    } else if |line| > 1 {
      SeenLines(line[1..], current + [line[0]]);
      if !Blank(current) {
        var i :| 0 <= i < |current| && !IsSpace(current[i]);
        assert !IsSpace((current + [line[0]])[i]);
      }
      assert '\n' in line ==> '\n' in line[1..];
    } else {
      var last := current + [line[0]];
      assert line[1..] == "" && !IsSpace(last[|current|]);
      TrimBlank(last);
      assert NotBlank([last]) == [last] + [];
    }
  }

  lemma FirstSeen(first: string, rest: seq<string>)
    ensures |NotBlank([first] + rest)| == |NotBlank(rest)| + (if Blank(first) then 0 else 1)
  {
    TrimBlank(first);
    assert ([first] + rest)[1..] == rest;
  }

  lemma QuotedLines(fields: seq<string>)
    requires |fields| > 0
    ensures var lines := NotBlank(LinesFrom(Line(QuoteAll(fields)), ""));
      |lines| >= 1 && (!NoLineFeed(fields) ==> |lines| >= 2)
  {
    var line := Line(QuoteAll(fields));
    QuotedEnds(fields);
    SeenLines(line, "");
    if !NoLineFeed(fields) {
      LineKeeps(fields);
      SeenLines(line[1..], ['"']);
      assert '\n' in line[1..];
      assert LinesFrom(line, "") == LinesFrom(line[1..], "" + ['"']);
      assert "" + ['"'] == ['"'];
    }
  }

  /** Line feeds in fields make more lines than there are rows. */
  lemma {:induction false} MorePieces(table: seq<seq<string>>)
    requires forall i :: 0 <= i < |table| ==> |table[i]| > 0
    ensures |Pieces(LinesOf(Quotes(table)))| >= |table|
    ensures (exists i :: 0 <= i < |table| && !NoLineFeed(table[i])) ==> |Pieces(LinesOf(Quotes(table)))| > |table|
  {
    if table != [] {
      MorePieces(table[1..]);
      QuotedLines(table[0]);
      assert LinesOf(Quotes(table)) == [Line(QuoteAll(table[0]))] + LinesOf(Quotes(table[1..]));
      if i :| 0 <= i < |table| && !NoLineFeed(table[i]) {
        if i > 0 {
          assert table[1..][i - 1] == table[i];
        }
      }
    }
  }

  // ---------------------------------------------------------------- the exact condition

  /** A table as text: a header with at least one name, and as many fields in every row. */
  predicate Rectangular(names: seq<string>, rows: seq<seq<string>>) {
    |names| > 0 && forall i :: 0 <= i < |rows| ==> |rows[i]| == |names|
  }

  function Content(names: seq<string>, rows: seq<seq<string>>, eol: string): string {
    Join(LinesOf(Quotes([names] + rows)), eol)
  }

  /** What is read from the lines, whatever they hold. */
  function Read(names: seq<string>, rows: seq<seq<string>>, eol: string): Parsed {
    ParseLines(Content(names, rows, eol), NotBlank(LinesFrom(Content(names, rows, eol), "")))
  }

  /** A table that comes back when it is written in quotes. */
  predicate Readable(names: seq<string>, rows: seq<seq<string>>, eol: string) {
    && 1 <= |rows| <= IMPORT_MAX_ROWS && Utf8Length(Content(names, rows, eol)) <= IMPORT_MAX_BYTES
    && HeaderOk(names) && PROTO !in names
    && NoLineFeed(names) && forall i :: 0 <= i < |rows| ==> NoLineFeed(rows[i])
  }

  /** A line between quotes. */
  predicate Framed(line: string) {
    |line| > 1 && line[0] == '"' && line[|line| - 1] == '"'
  }

  lemma QuotedTableEnds(table: seq<seq<string>>)
    requires forall i :: 0 <= i < |table| ==> |table[i]| > 0
    ensures forall i :: 0 <= i < |table| ==> Framed(LinesOf(Quotes(table))[i])
  {
    forall i | 0 <= i < |table|
      ensures Framed(LinesOf(Quotes(table))[i])
    {
      QuotedEnds(table[i]);
    }
  }

  lemma FramedTight(lines: seq<string>, eol: string)
    requires |lines| > 0 && forall i :: 0 <= i < |lines| ==> Framed(lines[i])
    ensures Tight(Join(lines, eol))
    ensures forall i :: 0 <= i < |lines| ==> Stops(lines[i])
  {
    assert Framed(lines[0]) && Framed(lines[|lines| - 1]);
    JoinEdges(lines, eol);
  }

  lemma QuotedTight(table: seq<seq<string>>, eol: string)
    requires |table| > 0 && forall i :: 0 <= i < |table| ==> |table[i]| > 0
    ensures Tight(Join(LinesOf(Quotes(table)), eol))
    ensures forall i :: 0 <= i < |table| ==> Stops(LinesOf(Quotes(table))[i])
  {
    QuotedTableEnds(table);
    FramedTight(LinesOf(Quotes(table)), eol);
  }

  /** Lines broken by a line feed: whatever is read has more rows than the table. */
  lemma BrokenDiffers(names: seq<string>, rows: seq<seq<string>>, eol: string)
    requires IsEol(eol) && Rectangular(names, rows)
    requires !NoLineFeed(names) || exists i :: 0 <= i < |rows| && !NoLineFeed(rows[i])
    ensures var r := Read(names, rows, eol); r.Table? ==> |r.rows| > |rows|
  {
    var table := [names] + rows;
    QuotedTight(table, eol);
    if NoLineFeed(names) {
      var i :| 0 <= i < |rows| && !NoLineFeed(rows[i]);
      assert table[i + 1] == rows[i];
    } else {
      assert table[0] == names;
    }
    MorePieces(table);
    JoinRead(LinesOf(Quotes(table)), eol);
    ManyRows(Content(names, rows, eol), Pieces(LinesOf(Quotes(table))));
  }

  lemma ManyRows(text: string, lines: seq<string>)
    ensures ParseLines(text, lines).Table? ==> |ParseLines(text, lines).rows| == |lines| - 1
  {
    if ParseLines(text, lines).Table? {
      RowsSound(TrimAll(Fields(lines[0])), lines[1..], 2);
    }
  }

  lemma QuotedLineOk(fields: seq<string>)
    requires |fields| > 0 && NoLineFeed(fields)
    ensures LineOk(QuoteAll(fields))
  {
    QuoteAllQuotes(fields);
  }

  lemma QuotedRead(names: seq<string>, rows: seq<seq<string>>, eol: string)
    requires IsEol(eol) && Rectangular(names, rows) && NoLineFeed(names) && forall i :: 0 <= i < |rows| ==> NoLineFeed(rows[i])
    ensures Read(names, rows, eol) == ReadTable(names, Quotes(rows), Content(names, rows, eol))
  {
    QuotedLineOk(names);
    forall i | 0 <= i < |rows|
      ensures LineOk(Quotes(rows)[i])
    {
      QuotedLineOk(rows[i]);
    }
    HeaderFirst(names, rows);
    RowsRead(QuoteAll(names), Quotes(rows), eol);
  }

  lemma HeaderFirst(names: seq<string>, rows: seq<seq<string>>)
    ensures Quotes([names] + rows) == [QuoteAll(names)] + Quotes(rows)
  {
    assert ([names] + rows)[1..] == rows;
  }

  /** A table read line by line comes back exactly within the limits and with a header that is usable as it is. */
  lemma ReadTableComesBack(names: seq<string>, rows: seq<seq<Cell>>, text: string)
    requires forall i :: 0 <= i < |rows| ==> |rows[i]| == |names|
    ensures ComesBack(ReadTable(names, rows, text), names, rows) <==>
      1 <= |rows| <= IMPORT_MAX_ROWS && Utf8Length(text) <= IMPORT_MAX_BYTES && HeaderOk(names) && PROTO !in names
  {
    var trimmed := TrimAll(names);
    if trimmed == names && "" !in names && AllDistinct(names) && rows != [] {
      HeaderIsTight(names);
      RowsHoldFields(names, rows);
    } else if HeaderOk(names) {
      HeaderTrimmed(names);
    }
  }

  lemma HeaderIsTight(names: seq<string>)
    requires TrimAll(names) == names && "" !in names && AllDistinct(names)
    ensures HeaderOk(names)
  {
    forall c | 0 <= c < |names|
      ensures Tight(names[c])
    {
      TrimSame(names[c]);
      assert names[c] in names;
    }
  }

  lemma QuotedParsed(names: seq<string>, rows: seq<seq<string>>, eol: string, marked: bool, ended: bool)
    requires IsEol(eol) && Rectangular(names, rows)
    ensures Parse(File(Quotes([names] + rows), eol, marked, ended)) == Read(names, rows, eol)
  {
    QuotedTight([names] + rows, eol);
    FileParsed(Quotes([names] + rows), eol, marked, ended);
  }

  lemma CleanComesBack(names: seq<string>, rows: seq<seq<string>>, eol: string)
    requires IsEol(eol) && Rectangular(names, rows) && NoLineFeed(names) && forall i :: 0 <= i < |rows| ==> NoLineFeed(rows[i])
    ensures ComesBack(Read(names, rows, eol), names, Quotes(rows)) <==> Readable(names, rows, eol)
  {
    QuotedRead(names, rows, eol);
    ReadTableComesBack(names, Quotes(rows), Content(names, rows, eol));
  }

  lemma BrokenIsLost(names: seq<string>, rows: seq<seq<string>>, eol: string)
    requires IsEol(eol) && Rectangular(names, rows)
    requires !NoLineFeed(names) || exists i :: 0 <= i < |rows| && !NoLineFeed(rows[i])
    ensures !ComesBack(Read(names, rows, eol), names, Quotes(rows))
  {
    BrokenDiffers(names, rows, eol);
  }

  /**
   * A table whose fields are all written in quotes comes back field by field exactly when it keeps to the limits, its
   * names are distinct, non-empty, trimmed and none of them `__proto__`, and no field holds a line feed.
   */
  lemma QuotedComesBack(names: seq<string>, rows: seq<seq<string>>, eol: string, marked: bool, ended: bool)
    requires IsEol(eol) && Rectangular(names, rows)
    ensures ComesBack(Parse(File(Quotes([names] + rows), eol, marked, ended)), names, Quotes(rows)) <==> Readable(names, rows, eol)
  {
    QuotedParsed(names, rows, eol, marked, ended);
    if NoLineFeed(names) && forall i :: 0 <= i < |rows| ==> NoLineFeed(rows[i]) {
      CleanComesBack(names, rows, eol);
    } else {
      BrokenIsLost(names, rows, eol);
    }
  }
}
