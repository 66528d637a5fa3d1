/** The text of a client document on its way into the file: characters, escapes, lines and pages. */
module PdfText {

  // ---------------------------------------------------------------- text

  /** `toWinAnsi`: everything outside ASCII becomes a question mark. */
  function WinAnsi(s: string): (t: string)
    ensures |t| == |s|
    ensures forall i :: 0 <= i < |t| ==> t[i] == if s[i] as int < 128 then s[i] else '?'
  {
    if s == "" then "" else [if s[0] as int < 128 then s[0] else '?'] + WinAnsi(s[1..])
  }

  /** `s.replace(/c/g, by)`. */
  function ReplaceAll(s: string, c: char, with: string): string {
    if s == "" then "" else (if s[0] == c then with else [s[0]]) + ReplaceAll(s[1..], c, with)
  }

  /** `pdfEscape`: three passes, backslashes first. */
  function PdfEscape(s: string): string {
    ReplaceAll(ReplaceAll(ReplaceAll(WinAnsi(s), '\\', "\\\\"), '(', "\\("), ')', "\\)")
  }

  function EscapeChar(c: char): (e: string)
    ensures |e| > 0
  {
    if c == '\\' || c == '(' || c == ')' then ['\\', c] else [c]
  }

  function EscapeEach(s: string): string {
    if s == "" then "" else EscapeChar(s[0]) + EscapeEach(s[1..])
  }

  lemma {:induction false} ReplaceConcat(s: string, t: string, c: char, with: string)
    ensures ReplaceAll(s + t, c, with) == ReplaceAll(s, c, with) + ReplaceAll(t, c, with)
  {
    if s == "" {
      assert s + t == t;
      assert "" + ReplaceAll(t, c, with) == ReplaceAll(t, c, with);
    } else {
      ReplaceConcat(s[1..], t, c, with);
      assert (s + t)[0] == s[0] && (s + t)[1..] == s[1..] + t;
      var first := if s[0] == c then with else [s[0]];
      Regroup(first, ReplaceAll(s[1..], c, with), ReplaceAll(t, c, with));
    }
  }

  lemma Regroup(a: string, b: string, c: string)
    ensures a + (b + c) == (a + b) + c
  {
  }

  lemma ReplaceOne(x: char, c: char, with: string)
    ensures ReplaceAll([x], c, with) == if x == c then with else [x]
  {
    assert [x][1..] == "";
  }

  /** The three passes escape each character once: no pass touches what an earlier one put in. */
  lemma {:induction false} EscapePasses(s: string)
    ensures ReplaceAll(ReplaceAll(ReplaceAll(s, '\\', "\\\\"), '(', "\\("), ')', "\\)") == EscapeEach(s)
  {
    if s != "" {
      var x := s[0];
      var a := if x == '\\' then "\\\\" else [x];
      EscapePasses(s[1..]);
      var rest := ReplaceAll(s[1..], '\\', "\\\\");
      ReplaceConcat(a, rest, '(', "\\(");
      PassesOnOne(x);
      ReplaceConcat(ReplaceAll(a, '(', "\\("), ReplaceAll(rest, '(', "\\("), ')', "\\)");
    }
  }

  lemma PassesOnOne(x: char)
    ensures ReplaceAll(ReplaceAll(if x == '\\' then "\\\\" else [x], '(', "\\("), ')', "\\)") == EscapeChar(x)
  {
    if x == '\\' {
      ReplaceConcat("\\", "\\", '(', "\\(");
      ReplaceConcat("\\", "\\", ')', "\\)");
      ReplaceOne('\\', '(', "\\(");
      ReplaceOne('\\', ')', "\\)");
      assert "\\" + "\\" == "\\\\";
    } else {
      ReplaceOne(x, '(', "\\(");
      ReplaceOne(x, ')', "\\)");
      if x == '(' {
        ReplaceConcat("\\", "(", ')', "\\)");
        ReplaceOne('\\', ')', "\\)");
        ReplaceOne('(', ')', "\\)");
        assert "\\" + "(" == "\\(";
      }
    }
  }

  // ---------------------------------------------------------------- lines and pages

  function Concat(parts: seq<string>): string {
    if parts == [] then "" else parts[0] + Concat(parts[1..])
  }

  /** `wrapLine`. */
  function Wrap(line: string, max: nat): seq<string>
    requires max > 0
    decreases |line|
  {
    if |line| <= max then [line] else [line[..max]] + Wrap(line[max..], max)
  }

  method WrapLine(line: string, max: nat) returns (out: seq<string>)
    requires max > 0
    ensures out == Wrap(line, max)
  {
    if |line| <= max {
      return [line];
    }
    out := [];
    var rest := line;
    while |rest| > max
      invariant rest != ""
      invariant out + Wrap(rest, max) == Wrap(line, max)
    {
      assert out + Wrap(rest, max) == (out + [rest[..max]]) + Wrap(rest[max..], max);
      out := out + [rest[..max]];
      rest := rest[max..];
    }
    if rest != "" {
      out := out + [rest];
    }
  }

  /** Wrapping loses nothing, and all pieces but the last are as long as the limit allows. */
  lemma {:induction false} WrapKeepsText(line: string, max: nat)
    requires max > 0
    ensures Concat(Wrap(line, max)) == line
    ensures Wrap(line, max) != [] && forall i :: 0 <= i < |Wrap(line, max)| - 1 ==> |Wrap(line, max)[i]| == max
    ensures var last := Wrap(line, max)[|Wrap(line, max)| - 1]; |last| <= max && (line != "" ==> last != "")
    decreases |line|
  {
    if |line| <= max {
      assert [line][1..] == [];
      assert Concat([line]) == line + "";
    } else {
      WrapKeepsText(line[max..], max);
      assert Wrap(line, max)[1..] == Wrap(line[max..], max);
      assert line == line[..max] + line[max..];
    }
  }

  function WrapAll(lines: seq<string>): seq<string> {
    if lines == [] then [] else Wrap(lines[0], 90) + WrapAll(lines[1..])
  }

  lemma {:induction false} WrapFits(line: string)
    ensures forall piece :: piece in Wrap(line, 90) ==> |piece| <= 90
  {
    WrapKeepsText(line, 90);
  }

  /** No line of a document has more than 90 characters, and lines that have no more are left alone. */
  lemma {:induction false} NinetyWide(lines: seq<string>)
    ensures forall piece :: piece in WrapAll(lines) ==> |piece| <= 90
    ensures (forall i :: 0 <= i < |lines| ==> |lines[i]| <= 90) ==> WrapAll(lines) == lines
  {
    if lines != [] {
      NinetyWide(lines[1..]);
      WrapFits(lines[0]);
      assert [lines[0]] + lines[1..] == lines;
    }
  }

  const PER_PAGE := 48

  function Chunks(lines: seq<string>): seq<seq<string>>
    decreases |lines|
  {
    if lines == [] then []
    else if |lines| <= PER_PAGE then [lines]
    else [lines[..PER_PAGE]] + Chunks(lines[PER_PAGE..])
  }

  /** The pages; a document without lines still gets one, with the issuing entity on it. */
  function Pages(lines: seq<string>, entity: string): seq<seq<string>> {
    if WrapAll(lines) == [] then [[entity]] else Chunks(WrapAll(lines))
  }

  function Flatten(pages: seq<seq<string>>): seq<string> {
    if pages == [] then [] else pages[0] + Flatten(pages[1..])
  }

  predicate Paged(pages: seq<seq<string>>) {
    pages != [] && forall p :: 0 <= p < |pages| ==> 0 < |pages[p]| <= PER_PAGE
  }

  lemma {:induction false} ChunksKeepLines(lines: seq<string>)
    requires lines != []
    ensures Flatten(Chunks(lines)) == lines && Paged(Chunks(lines))
    ensures forall p :: 0 <= p < |Chunks(lines)| - 1 ==> |Chunks(lines)[p]| == 48
    decreases |lines|
  {
    if |lines| <= PER_PAGE {
      assert [lines][1..] == [];
      assert lines + [] == lines;
    } else {
      ChunksKeepLines(lines[PER_PAGE..]);
      assert Chunks(lines)[1..] == Chunks(lines[PER_PAGE..]);
      assert lines == lines[..PER_PAGE] + lines[PER_PAGE..];
    }
  }

  method WrapLines(lines: seq<string>) returns (wrapped: seq<string>)
    ensures wrapped == WrapAll(lines)
  {
    wrapped := [];
    for i := 0 to |lines|
      invariant wrapped + WrapAll(lines[i..]) == WrapAll(lines)
    {
      var pieces := WrapLine(lines[i], 90);
      assert lines[i..][0] == lines[i] && lines[i..][1..] == lines[i + 1..];
      assert (wrapped + pieces) + WrapAll(lines[i + 1..]) == wrapped + (pieces + WrapAll(lines[i + 1..]));
      wrapped := wrapped + pieces;
    }
  }

  lemma ChunkStep(wrapped: seq<string>, i: nat, end: nat)
    requires i < |wrapped| && end == if i + PER_PAGE <= |wrapped| then i + PER_PAGE else |wrapped|
    ensures Chunks(wrapped[i..]) == [wrapped[i..end]] + Chunks(wrapped[end..])
  {
    var rest := wrapped[i..];
    assert rest[..end - i] == wrapped[i..end] && rest[end - i..] == wrapped[end..];
    if |rest| <= PER_PAGE {
      assert rest[..end - i] == rest;
      assert wrapped[end..] == [];
    }
  }

  lemma AppendFirst<T>(a: seq<T>, x: T, b: seq<T>)
    ensures a + ([x] + b) == (a + [x]) + b
  {
  }

  method Paginate(wrapped: seq<string>, entity: string) returns (pages: seq<seq<string>>)
    ensures pages == if wrapped == [] then [[entity]] else Chunks(wrapped)
  {
    pages := [];
    var i := 0;
    while i < |wrapped|
      invariant i <= |wrapped|
      invariant pages + Chunks(wrapped[i..]) == Chunks(wrapped)
      invariant i > 0 ==> pages != []
    {
      var end := if i + PER_PAGE <= |wrapped| then i + PER_PAGE else |wrapped|;
      ChunkStep(wrapped, i, end);
      AppendFirst(pages, wrapped[i..end], Chunks(wrapped[end..]));
      pages := pages + [wrapped[i..end]];
      i := end;
    }
    if |pages| == 0 {
      pages := [[entity]];
    }
  }
}
