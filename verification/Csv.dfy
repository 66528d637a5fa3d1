/** The CSV reader of the import (packages/kernel/src/crm-import.ts). Text is a sequence of Unicode characters. */
module Csv {
  // ---------------------------------------------------------------- one line

  /** The fields of a line that is read up to some point, inside or outside quotes, with a field begun. */
  function FieldsFrom(line: string, current: string, inQuotes: bool): (fields: seq<string>)
    ensures |fields| > 0
  {
    if line == "" then [current]
    else if line[0] == '"' then
      if inQuotes && |line| > 1 && line[1] == '"' then FieldsFrom(line[2..], current + "\"", inQuotes)
      else FieldsFrom(line[1..], current, !inQuotes)
    else if line[0] == ',' && !inQuotes then [current] + FieldsFrom(line[1..], "", inQuotes)
    else FieldsFrom(line[1..], current + [line[0]], inQuotes)
  }

  function Fields(line: string): (fields: seq<string>)
    ensures |fields| > 0
  {
    FieldsFrom(line, "", false)
  }

  /** `splitCsvLine`: one pass, in which a doubled quote moves the index by two. */
  method SplitCsvLine(line: string) returns (result: seq<string>)
    ensures result == Fields(line)
  {
    result := [];
    var current := "";
    var inQuotes := false;
    var i := 0;
    while i < |line|
      invariant i <= |line|
      invariant result + FieldsFrom(line[i..], current, inQuotes) == Fields(line)
    {
      var ch := line[i];
      assert line[i..][0] == ch && line[i..][1..] == line[i + 1..];
      if ch == '"' {
        if inQuotes && i + 1 < |line| && line[i + 1] == '"' {
          assert line[i..][1] == '"' && line[i..][2..] == line[i + 2..];
          current := current + "\"";
          i := i + 1;
        } else {
          assert i + 1 < |line| ==> line[i..][1] == line[i + 1];
          inQuotes := !inQuotes;
        }
      } else if ch == ',' && !inQuotes {
        assert result + ([current] + FieldsFrom(line[i + 1..], "", false)) == (result + [current]) + FieldsFrom(line[i + 1..], "", false);
        result := result + [current];
        current := "";
      } else {
        current := current + [ch];
      }
      i := i + 1;
    }
    assert line[i..] == "";
    result := result + [current];
  }

  // ---------------------------------------------------------------- how RFC 4180 writes a line

  /** A field as it is written: bare, or in quotes with every quote doubled (rules 5 to 7 of section 2). */
  datatype Cell = Bare(text: string) | Quoted(text: string)

  predicate Writable(c: Cell) {
    c.Bare? ==> '"' !in c.text && ',' !in c.text
  }

  function Doubled(text: string): string {
    if text == "" then "" else (if text[0] == '"' then "\"\"" else [text[0]]) + Doubled(text[1..])
  }

  function CellText(c: Cell): string {
    if c.Bare? then c.text else "\"" + Doubled(c.text) + "\""
  }

  function Line(cells: seq<Cell>): string {
    if cells == [] then ""
    else if |cells| == 1 then CellText(cells[0])
    else CellText(cells[0]) + "," + Line(cells[1..])
  }

  function Texts(cells: seq<Cell>): (r: seq<string>)
    ensures |r| == |cells| && forall i :: 0 <= i < |cells| ==> r[i] == cells[i].text
  {
    if cells == [] then [] else [cells[0].text] + Texts(cells[1..])
  }

  lemma {:induction false} ReadBare(text: string, rest: string, current: string)
    requires '"' !in text && ',' !in text
    ensures FieldsFrom(text + rest, current, false) == FieldsFrom(rest, current + text, false)
  {
    if text == "" {
      assert text + rest == rest && current + text == current;
    } else {
      assert (text + rest)[0] == text[0] && (text + rest)[1..] == text[1..] + rest;
      ReadBare(text[1..], rest, current + [text[0]]);
      assert current + [text[0]] + text[1..] == current + text;
    }
  }

  lemma {:induction false} ReadDoubled(text: string, rest: string, current: string)
    requires rest == "" || rest[0] != '"'
    ensures FieldsFrom(Doubled(text) + ("\"" + rest), current, true) == FieldsFrom(rest, current + text, false)
  {
    if text == "" {
      assert Doubled(text) + ("\"" + rest) == "\"" + rest && ("\"" + rest)[1..] == rest && current + text == current;
    } else {
      var tail := Doubled(text[1..]) + ("\"" + rest);
      ReadDoubled(text[1..], rest, current + [text[0]]);
      assert current + [text[0]] + text[1..] == current + text;
      if text[0] == '"' {
        assert Doubled(text) + ("\"" + rest) == "\"\"" + tail;
        assert ("\"\"" + tail)[2..] == tail;
      } else {
        assert Doubled(text) + ("\"" + rest) == [text[0]] + tail;
        assert ([text[0]] + tail)[1..] == tail;
      }
    }
  }

  /** A written field, followed by a separator or the end of the line, adds its text. */
  lemma ReadCell(c: Cell, rest: string)
    requires Writable(c) && (rest == "" || rest[0] == ',')
    ensures FieldsFrom(CellText(c) + rest, "", false) == FieldsFrom(rest, c.text, false)
  {
    if c.Bare? {
      ReadBare(c.text, rest, "");
      assert "" + c.text == c.text;
    } else {
      var body := Doubled(c.text) + ("\"" + rest);
      assert CellText(c) + rest == "\"" + body;
      assert ("\"" + body)[1..] == body;
      ReadDoubled(c.text, rest, "");
      assert "" + c.text == c.text;
    }
  }

  /** The splitter recovers every non-empty list of fields from any of its RFC 4180 renderings. */
  lemma {:induction false} SplitRecovers(cells: seq<Cell>)
    requires |cells| > 0 && forall i :: 0 <= i < |cells| ==> Writable(cells[i])
    ensures Fields(Line(cells)) == Texts(cells)
  {
    if |cells| == 1 {
      ReadCell(cells[0], "");
      assert CellText(cells[0]) + "" == CellText(cells[0]);
      assert Texts(cells) == [cells[0].text];
    } else {
      var rest := "," + Line(cells[1..]);
      ReadCell(cells[0], rest);
      assert Line(cells) == CellText(cells[0]) + rest;
      assert rest[1..] == Line(cells[1..]);
      SplitRecovers(cells[1..]);
    }
  }

  function QuoteAll(fields: seq<string>): (cells: seq<Cell>)
    ensures |cells| == |fields| && Texts(cells) == fields
    ensures forall i :: 0 <= i < |cells| ==> Writable(cells[i])
  {
    if fields == [] then [] else [Quoted(fields[0])] + QuoteAll(fields[1..])
  }

  /** Writing any line's fields back in quotes gives a line with the same fields, whatever the first line looked like. */
  lemma QuotingNormalizes(line: string)
    ensures Fields(Line(QuoteAll(Fields(line)))) == Fields(line)
  {
    SplitRecovers(QuoteAll(Fields(line)));
  }
}
