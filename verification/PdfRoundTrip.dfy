/** Reading back what the writer wrote. */
module PdfRoundTrip {
  import opened Options
  import opened Decimal
  import opened PdfTokens
  import opened Pdf
  import opened PdfText
  import opened PdfReader

  // ---------------------------------------------------------------- small steps

  lemma Assoc(a: string, b: string, c: string)
    ensures (a + b) + c == a + (b + c)
  {
  }

  lemma Split(p: string, s: string)
    ensures (p + s)[..|p|] == p && (p + s)[|p|..] == s
  {
  }

  lemma SkipToken(token: string, rest: string)
    ensures Skip(token, token + rest) == Some(rest)
  {
    assert (token + rest)[|token|..] == rest;
  }

  lemma NumberThen(n: nat, token: string, rest: string)
    requires token != "" && !IsDigit(token[0])
    ensures Number(Dec(n) + (token + rest)) == Some((n, token + rest))
  {
    var s := token + rest;
    assert s[0] == token[0];
    DigitRunOf(Dec(n), s);
    DecValue(n);
    assert (Dec(n) + s)[..|Dec(n)|] == Dec(n);
    assert (Dec(n) + s)[|Dec(n)|..] == s;
  }

  // ---------------------------------------------------------------- string literals

  /** What a reader makes of end-of-line markers inside a literal. */
  function FoldEol(t: string): string
    decreases |t|
  {
    if t == "" then ""
    else if t[0] == '\r' then "\n" + FoldEol(if |t| > 1 && t[1] == '\n' then t[2..] else t[1..])
    else [t[0]] + FoldEol(t[1..])
  }

  /** A text comes back unchanged exactly when it holds no carriage return. */
  lemma {:induction false} FoldEolIdentity(t: string)
    ensures FoldEol(t) == t <==> '\r' !in t
    ensures '\r' !in FoldEol(t)
    decreases |t|
  {
    if t != "" {
      if t[0] == '\r' {
        FoldEolIdentity(if |t| > 1 && t[1] == '\n' then t[2..] else t[1..]);
        assert t[0] in t;
      } else {
        FoldEolIdentity(t[1..]);
        assert t == [t[0]] + t[1..];
        assert FoldEol(t)[1..] == FoldEol(t[1..]);
      }
    }
  }

  /** The escaped rest of a literal, its closing parenthesis and what follows. */
  function LiteralTail(t: string, x: string): string {
    if t == "" then ")" + x else EscapeChar(t[0]) + LiteralTail(t[1..], x)
  }

  lemma {:induction false} LiteralTailIs(t: string, x: string)
    ensures EscapeEach(t) + (")" + x) == LiteralTail(t, x)
  {
    if t == "" {
      assert EscapeEach(t) + (")" + x) == ")" + x;
    } else {
      LiteralTailIs(t[1..], x);
      Assoc(EscapeChar(t[0]), EscapeEach(t[1..]), ")" + x);
    }
  }

  lemma {:induction false} LiteralReads(t: string, x: string)
    ensures Literal(LiteralTail(t, x), 0) == Some((FoldEol(t), x))
    decreases |t|
  {
    var s := LiteralTail(t, x);
    if t == "" {
      assert s[0] == ')' && s[1..] == x;
    } else {
      var c, rest := t[0], LiteralTail(t[1..], x);
      if c == '\\' || c == '(' || c == ')' {
        assert s[0] == '\\' && s[1] == c && s[2..] == rest;
        LiteralReads(t[1..], x);
      } else if c == '\r' {
        assert s[0] == c && s[1..] == rest;
        NextChar(t[1..], x);
        if |t| > 1 && t[1] == '\n' {
          assert t[1..][1..] == t[2..];
          assert s[2..] == rest[1..];
          LiteralReads(t[2..], x);
        } else {
          LiteralReads(t[1..], x);
        }
      } else {
        assert s[0] == c && s[1..] == rest;
        LiteralReads(t[1..], x);
      }
    }
  }

  /** A line feed stands next in the file exactly when it stands next in the text. */
  lemma NextChar(t: string, x: string)
    ensures LiteralTail(t, x) != ""
    ensures LiteralTail(t, x)[0] == '\n' <==> t != "" && t[0] == '\n'
    ensures t != "" && t[0] == '\n' ==> LiteralTail(t, x)[1..] == LiteralTail(t[1..], x)
  {
  }

  // ---------------------------------------------------------------- content streams

  /** What a reader sees of a line: ASCII only, end-of-line markers folded. */
  function Seen(line: string): string {
    FoldEol(WinAnsi(line))
  }

  function SeenAll(lines: seq<string>): seq<string> {
    if lines == [] then [] else [Seen(lines[0])] + SeenAll(lines[1..])
  }

  lemma EscapedLine(line: string, x: string)
    ensures PdfEscape(line) + (")" + x) == LiteralTail(WinAnsi(line), x)
  {
    EscapePasses(WinAnsi(line));
    LiteralTailIs(WinAnsi(line), x);
  }

  lemma NotEndOfText(lines: seq<string>)
    requires lines != []
    ensures Ops(lines, false) != END_TEXT
  {
    var s := LineOps(lines, false);
    assert s[0] == NEXT_LINE[0] == '0';
    assert Ops(lines, false)[1] == s[0];
    assert END_TEXT[1] == 'E';
  }

  lemma {:induction false} ShownReads(lines: seq<string>, first: bool)
    requires lines != []
    ensures Shown(LineOps(lines, first), first) == Some(SeenAll(lines))
    decreases |lines|
  {
    var rest := Ops(lines[1..], false);
    EscapedLine(lines[0], SHOW + rest);
    SkipToken(LineStart(first), LiteralTail(WinAnsi(lines[0]), SHOW + rest));
    LiteralReads(WinAnsi(lines[0]), SHOW + rest);
    SkipToken(SHOW, rest);
    if |lines| == 1 {
      assert lines[1..] == [];
      assert [Seen(lines[0])] + SeenAll([]) == [Seen(lines[0])];
    } else {
      NotEndOfText(lines[1..]);
      SkipToken("\n", LineOps(lines[1..], false));
      ShownReads(lines[1..], false);
    }
  }

  lemma StreamReads(lines: seq<string>, rest: string)
    ensures var stream := StreamOf(lines);
            Stream(LENGTH + (Dec(|stream|) + (STREAM + (stream + (END_STREAM + rest))))) == Some(stream)
  {
    var stream := StreamOf(lines);
    var c := stream + (END_STREAM + rest);
    SkipToken(LENGTH, Dec(|stream|) + (STREAM + c));
    assert STREAM[0] == ' ';
    NumberThen(|stream|, STREAM, c);
    SkipToken(STREAM, c);
    assert c[..|stream|] == stream && c[|stream|..] == END_STREAM + rest;
    SkipToken(END_STREAM, rest);
  }

  // ---------------------------------------------------------------- cross-reference table

  predicate Addressable(objects: seq<string>) {
    forall i :: 0 <= i < |objects| ==> Offset(objects, i) < Pow10(10)
  }

  /** An entry has its 20 bytes exactly when its offset has at most ten digits. */
  lemma EntryBytes(offset: nat)
    ensures |PdfTokens.IN_USE| == 10
    ensures |Entry(offset)| == ENTRY_BYTES <==> offset < Pow10(10)
  {
    DecLength(offset, 10);
  }

  lemma {:induction false} EntriesLength(objects: seq<string>, i: nat)
    requires i <= |objects| && Addressable(objects)
    ensures |Entries(objects, i)| == ENTRY_BYTES * (|objects| - i)
    decreases |objects| - i
  {
    if i < |objects| {
      EntryBytes(Offset(objects, i));
      EntriesLength(objects, i + 1);
    }
  }

  lemma {:induction false} EntriesAt(objects: seq<string>, i: nat, k: nat)
    requires i <= k < |objects| && Addressable(objects)
    ensures |Entries(objects, i)| >= ENTRY_BYTES * (k - i) + ENTRY_BYTES
    ensures Entries(objects, i)[ENTRY_BYTES * (k - i)..ENTRY_BYTES * (k - i) + ENTRY_BYTES] == Entry(Offset(objects, k))
    decreases k - i
  {
    EntryBytes(Offset(objects, i));
    var rest := Entries(objects, i + 1);
    assert Entries(objects, i) == Entry(Offset(objects, i)) + rest;
    if i < k {
      EntriesAt(objects, i + 1, k);
      var from := ENTRY_BYTES * (k - (i + 1));
      assert Entries(objects, i)[ENTRY_BYTES * (k - i)..ENTRY_BYTES * (k - i) + ENTRY_BYTES] == rest[from..from + ENTRY_BYTES];
    } else {
      EntriesLength(objects, i + 1);
    }
  }

  lemma EntryReads(offset: nat)
    requires offset < Pow10(10)
    ensures var e := Entry(offset);
            |e| == ENTRY_BYTES && AllDigits(e[..10]) && e[10..] == IN_USE && Value(e[..10]) == offset
  {
    EntryBytes(offset);
    DecLength(offset, 10);
    PadStartValue(Dec(offset), 10);
    DecValue(offset);
    var p := PadStart(Dec(offset), 10);
    assert Entry(offset)[..10] == p && Entry(offset)[10..] == IN_USE;
  }

  /** The table as the reader gets it: its entry count, and the entries with the trailer after them. */
  function TableOf(objects: seq<string>): (nat, string) {
    (|objects| + 1, FREE + (Entries(objects, 0) + Trailer(objects)))
  }

  lemma TableReads(objects: seq<string>)
    ensures Table(File(objects), |Body(objects)|) == Some(TableOf(objects))
  {
    var body, tail := Body(objects), Xref(objects) + Trailer(objects);
    var entries := FREE + Entries(objects, 0);
    assert File(objects)[|body|..] == tail;
    Assoc(XREF, Dec(|objects| + 1) + ("\n" + entries), Trailer(objects));
    Assoc(Dec(|objects| + 1), "\n" + entries, Trailer(objects));
    Assoc("\n", entries, Trailer(objects));
    Assoc(FREE, Entries(objects, 0), Trailer(objects));
    SkipToken(XREF, Dec(|objects| + 1) + ("\n" + TableOf(objects).1));
    NumberThen(|objects| + 1, "\n", TableOf(objects).1);
    SkipToken("\n", TableOf(objects).1);
  }

  /** Entry i holds the offset of object i. */
  lemma OffsetReads(objects: seq<string>, i: nat)
    requires 1 <= i <= |objects| && Addressable(objects)
    ensures EntryOffset(TableOf(objects), i) == Some(Offset(objects, i - 1))
  {
    var entries := TableOf(objects).1;
    var es := Entries(objects, 0);
    var from := ENTRY_BYTES * (i - 1);
    EntriesAt(objects, 0, i - 1);
    EntryReads(Offset(objects, i - 1));
    assert |FREE| == ENTRY_BYTES;
    assert entries[ENTRY_BYTES * i..ENTRY_BYTES * i + ENTRY_BYTES] == es[from..from + ENTRY_BYTES];
  }

  lemma {:induction false} ConcatAt(parts: seq<string>, i: nat)
    requires i < |parts|
    ensures Concat(parts) == Concat(parts[..i]) + (parts[i] + Concat(parts[i + 1..]))
  {
    if i == 0 {
      assert parts[..0] == [];
      assert Concat(parts) == "" + (parts[0] + Concat(parts[1..]));
    } else {
      ConcatAt(parts[1..], i - 1);
      assert parts[1..][..i - 1] == parts[..i][1..];
      assert parts[1..][i..] == parts[i + 1..];
      Assoc(parts[0], Concat(parts[..i][1..]), parts[i] + Concat(parts[i + 1..]));
    }
  }

  /** What follows object i in the file. */
  function After(objects: seq<string>, i: nat): string
    requires 1 <= i <= |objects|
  {
    Concat(objects[i..]) + (Xref(objects) + Trailer(objects))
  }

  /** At its offset the file holds object i itself. */
  lemma FileAt(objects: seq<string>, i: nat)
    requires 1 <= i <= |objects|
    ensures Offset(objects, i - 1) <= |File(objects)|
    ensures File(objects)[Offset(objects, i - 1)..] == objects[i - 1] + After(objects, i)
  {
    var before, this', after := Concat(objects[..i - 1]), objects[i - 1], Concat(objects[i..]);
    var tail := Xref(objects) + Trailer(objects);
    ConcatAt(objects, i - 1);
    Assoc(HEADER, before, this' + after);
    Assoc(HEADER + before, this' + after, tail);
    Assoc(this', after, tail);
    Split(HEADER + before, this' + (after + tail));
  }

  /** An object that announces its own number is found through the table. */
  lemma ObjectReads(objects: seq<string>, i: nat, inner: string)
    requires 1 <= i <= |objects| && Addressable(objects)
    requires objects[i - 1] == Dec(i) + (OBJ + inner)
    ensures ObjectAt(File(objects), TableOf(objects), i) == Some(inner + After(objects, i))
  {
    var after := After(objects, i);
    OffsetReads(objects, i);
    FileAt(objects, i);
    Assoc(Dec(i), OBJ + inner, after);
    Assoc(OBJ, inner, after);
    assert OBJ[0] == ' ';
    NumberThen(i, OBJ, inner + after);
    SkipToken(OBJ, inner + after);
  }

  lemma {:induction false} TailRunOf(s: string, digits: string)
    requires AllDigits(digits)
    requires s == "" || !IsDigit(s[|s| - 1])
    ensures TailRun(s + digits) == |digits|
  {
    if digits == "" {
      assert s + digits == s;
    } else {
      TailRunOf(s, digits[..|digits| - 1]);
      assert (s + digits)[..|s + digits| - 1] == s + digits[..|digits| - 1];
    }
  }

  lemma LastNumberReads(front: string, n: nat)
    requires front != "" && !IsDigit(front[|front| - 1])
    ensures StartXref((front + Dec(n)) + EOF) == Some(n)
  {
    Split(front + Dec(n), EOF);
    TailRunOf(front, Dec(n));
    Split(front, Dec(n));
    DecValue(n);
  }

  lemma TrailerParts(objects: seq<string>)
    ensures Trailer(objects)
         == ((TRAILER + (Dec(|objects| + 1) + (ROOT + Dec(1)))) + START_XREF) + (Dec(|Body(objects)|) + EOF)
  {
    var d, e := Dec(|Body(objects)|) + EOF, START_XREF;
    Assoc(Dec(1), e, d);
    Assoc(ROOT, Dec(1), e + d);
    Assoc(Dec(|objects| + 1), ROOT + Dec(1), e + d);
    Assoc(TRAILER, Dec(|objects| + 1) + (ROOT + Dec(1)), e + d);
    Assoc(TRAILER + (Dec(|objects| + 1) + (ROOT + Dec(1))), e, d);
  }

  lemma Regroup(body: string, xref: string, size: string, start: string, n: string, eof: string)
    ensures body + (xref + ((size + start) + (n + eof))) == (((body + (xref + size)) + start) + n) + eof
  {
    Assoc(xref, size + start, n + eof);
    Assoc(xref, size, start);
    Assoc(body, (xref + size) + start, n + eof);
    Assoc(body, xref + size, start);
    Assoc((body + (xref + size)) + start, n, eof);
  }

  lemma EndsAs(a: string, b: string)
    requires b != ""
    ensures (a + b)[|a + b| - 1] == b[|b| - 1]
  {
  }

  /** `startxref` points at the cross-reference table. */
  lemma StartXrefReads(objects: seq<string>)
    ensures StartXref(File(objects)) == Some(|Body(objects)|)
  {
    var body, n := Body(objects), Dec(|Body(objects)|);
    var size := TRAILER + (Dec(|objects| + 1) + (ROOT + Dec(1)));
    TrailerParts(objects);
    Regroup(body, Xref(objects), size, START_XREF, n, EOF);
    LineFeedLast();
    EndsAs(body + (Xref(objects) + size), START_XREF);
    LastNumberReads((body + (Xref(objects) + size)) + START_XREF, |body|);
  }

  lemma LineFeedLast()
    ensures START_XREF != "" && START_XREF[|START_XREF| - 1] == '\n'
  {
  }

  lemma TrailerAfterEntries(objects: seq<string>)
    requires Addressable(objects)
    ensures |TableOf(objects).1| >= ENTRY_BYTES * (|objects| + 1)
    ensures TableOf(objects).1[ENTRY_BYTES * (|objects| + 1)..] == Trailer(objects)
  {
    EntriesLength(objects, 0);
    assert |FREE| == ENTRY_BYTES;
    assert FREE + (Entries(objects, 0) + Trailer(objects)) == (FREE + Entries(objects, 0)) + Trailer(objects);
  }

  lemma RootReads(objects: seq<string>)
    requires Addressable(objects)
    ensures Root(TableOf(objects)) == Some(1)
  {
    var end := Dec(|Body(objects)|) + EOF;
    TrailerAfterEntries(objects);
    SkipToken(TRAILER, Dec(|objects| + 1) + (ROOT + (Dec(1) + (START_XREF + end))));
    assert ROOT[0] == ' ' && START_XREF[0] == ' ';
    NumberThen(|objects| + 1, ROOT, Dec(1) + (START_XREF + end));
    SkipToken(ROOT, Dec(1) + (START_XREF + end));
    NumberThen(1, START_XREF, end);
  }

  // ---------------------------------------------------------------- the page tree

  lemma PairThen(pair: seq<string>, rest: seq<string>, k: nat)
    requires |pair| == 2 && k + 1 < |rest|
    ensures (pair + rest)[k + 2] == rest[k] && (pair + rest)[k + 3] == rest[k + 1]
  {
  }

  lemma {:induction false} PageObjectsAt(pages: seq<seq<string>>, idx: nat, fontId: nat, p: nat)
    requires idx <= p < |pages|
    ensures |PageObjects(pages, idx, fontId)| == 2 * (|pages| - idx)
    ensures PageObjects(pages, idx, fontId)[2 * (p - idx)] == PageObject(3 + p * 2, fontId)
    ensures PageObjects(pages, idx, fontId)[2 * (p - idx) + 1] == ContentObject(4 + p * 2, pages[p])
    decreases |pages| - idx
  {
    PageObjectsLength(pages, idx, fontId);
    if idx < p {
      var pair := [PageObject(3 + idx * 2, fontId), ContentObject(4 + idx * 2, pages[idx])];
      PageObjectsAt(pages, idx + 1, fontId, p);
      PairThen(pair, PageObjects(pages, idx + 1, fontId), 2 * (p - idx - 1));
    }
  }

  lemma {:induction false} PageObjectsLength(pages: seq<seq<string>>, idx: nat, fontId: nat)
    requires idx <= |pages|
    ensures |PageObjects(pages, idx, fontId)| == 2 * (|pages| - idx)
    decreases |pages| - idx
  {
    if idx < |pages| {
      PageObjectsLength(pages, idx + 1, fontId);
    }
  }

  /** Where each object stands: the catalog, the page tree, two objects a page, and the font. */
  lemma ObjectsAt(pages: seq<seq<string>>, p: nat)
    requires p < |pages|
    ensures var objects := Objects(pages);
            && |objects| == FontId(pages)
            && objects[0] == CatalogObject()
            && objects[1] == PagesObject(|pages|)
            && objects[2 + 2 * p] == PageObject(3 + p * 2, FontId(pages))
            && objects[3 + 2 * p] == ContentObject(4 + p * 2, pages[p])
            && objects[FontId(pages) - 1] == FontObject(FontId(pages))
  {
    PageObjectsAt(pages, 0, FontId(pages), p);
  }

  function KidIds(first: nat, n: nat): seq<nat>
    decreases n
  {
    if n == 0 then [] else [first] + KidIds(first + 2, n - 1)
  }

  lemma {:induction false} KidsRead(first: nat, n: nat, rest: string)
    requires n > 0
    ensures References(Kids(first, n) + (COUNT + rest)) == Some((KidIds(first, n), COUNT + rest))
    decreases n
  {
    var end := COUNT + rest;
    if n == 1 {
      LastKid(first, rest);
      assert [first] + KidIds(first + 2, 0) == [first];
    } else {
      NextKid(first, Kids(first + 2, n - 1), end);
      KidsRead(first + 2, n - 1, rest);
    }
  }

  lemma LastKid(id: nat, rest: string)
    ensures References((Dec(id) + REF) + (COUNT + rest)) == Some(([id], COUNT + rest))
  {
    var end := COUNT + rest;
    assert REF[0] == ' ' && end[0] == ']';
    Assoc(Dec(id), REF, end);
    NumberThen(id, REF, end);
    SkipToken(REF, end);
    assert " "[0] == ' ';
    assert Skip(" ", end) == None;
  }

  lemma NextKid(id: nat, more: string, end: string)
    ensures References((Dec(id) + (REF + (" " + more))) + end)
         == match References(more + end)
            case None => None
            case Some((ids, rest)) => Some(([id] + ids, rest))
  {
    assert REF[0] == ' ';
    Assoc(Dec(id), REF + (" " + more), end);
    Assoc(REF, " " + more, end);
    Assoc(" ", more, end);
    NumberThen(id, REF, " " + (more + end));
    SkipToken(REF, " " + (more + end));
    SkipToken(" ", more + end);
  }

  lemma PageDictReads(id: nat, font: nat, after: string)
    ensures PageDict((PAGE + (Dec(2) + (CONTENTS + (Dec(id) + (RESOURCES + (Dec(font) + PAGE_END)))))) + after)
         == Some(PageRefs(2, id, font))
  {
    var c, b, a := Dec(font) + PAGE_END, Dec(id) + (RESOURCES + (Dec(font) + PAGE_END)), CONTENTS;
    Assoc(PAGE, Dec(2) + (a + b), after);
    Assoc(Dec(2), a + b, after);
    Assoc(a, b, after);
    Assoc(Dec(id), RESOURCES + c, after);
    Assoc(RESOURCES, c, after);
    Assoc(Dec(font), PAGE_END, after);
    SkipToken(PAGE, Dec(2) + (CONTENTS + (b + after)));
    PageTokens();
    NumberThen(2, CONTENTS, b + after);
    SkipToken(CONTENTS, b + after);
    NumberThen(id, RESOURCES, c + after);
    SkipToken(RESOURCES, c + after);
    NumberThen(font, PAGE_END, after);
    SkipToken(PAGE_END, after);
  }

  lemma PageTokens()
    ensures CONTENTS != "" && CONTENTS[0] == ' ' && RESOURCES != "" && RESOURCES[0] == ' '
    ensures PAGE_END != "" && PAGE_END[0] == ' '
  {
  }

  lemma TreeTokens()
    ensures CATALOG_END != "" && CATALOG_END[0] == ' ' && PAGES_END != "" && PAGES_END[0] == ' '
  {
  }

  lemma CatalogDictReads(after: string)
    ensures CatalogDict((CATALOG + (Dec(2) + CATALOG_END)) + after) == Some(2)
  {
    Assoc(CATALOG, Dec(2) + CATALOG_END, after);
    Assoc(Dec(2), CATALOG_END, after);
    SkipToken(CATALOG, Dec(2) + (CATALOG_END + after));
    TreeTokens();
    NumberThen(2, CATALOG_END, after);
    SkipToken(CATALOG_END, after);
  }

  lemma {:induction false} KidCount(first: nat, n: nat)
    ensures |KidIds(first, n)| == n
    decreases n
  {
    if n > 0 {
      KidCount(first + 2, n - 1);
    }
  }

  lemma TreeDictReads(n: nat, after: string)
    requires n > 0
    ensures TreeDict(TreeInner(n) + after) == Some(KidIds(3, n))
  {
    var count := Dec(n) + PAGES_END;
    Assoc(KIDS, Kids(3, n) + (COUNT + count), after);
    Assoc(Kids(3, n), COUNT + count, after);
    Assoc(COUNT, count, after);
    Assoc(Dec(n), PAGES_END, after);
    SkipToken(KIDS, Kids(3, n) + (COUNT + (count + after)));
    KidsRead(3, n, count + after);
    SkipToken(COUNT, count + after);
    TreeTokens();
    NumberThen(n, PAGES_END, after);
    SkipToken(PAGES_END, after);
    KidCount(3, n);
  }

  lemma ContentReads(id: nat, lines: seq<string>, after: string)
    requires lines != []
    ensures var stream := StreamOf(lines);
            Stream((LENGTH + (Dec(|stream|) + (STREAM + (stream + END_STREAM)))) + after) == Some(stream)
  {
    var stream := StreamOf(lines);
    Assoc(LENGTH, Dec(|stream|) + (STREAM + (stream + END_STREAM)), after);
    Assoc(Dec(|stream|), STREAM + (stream + END_STREAM), after);
    Assoc(STREAM, stream + END_STREAM, after);
    Assoc(stream, END_STREAM, after);
    StreamReads(lines, after);
  }

  /** Object i of these pages, through the file's own table. */
  function Found(pages: seq<seq<string>>, i: nat): Option<string> {
    ObjectAt(File(Objects(pages)), TableOf(Objects(pages)), i)
  }

  lemma PageFound(pages: seq<seq<string>>, p: nat)
    requires p < |pages| && Addressable(Objects(pages))
    ensures Found(pages, 3 + 2 * p).Some?
    ensures PageDict(Found(pages, 3 + 2 * p).value) == Some(PageRefs(2, 4 + 2 * p, FontId(pages)))
  {
    var id, font := 3 + p * 2, FontId(pages);
    ObjectsAt(pages, p);
    ObjectReads(Objects(pages), id, PAGE + (Dec(2) + (CONTENTS + (Dec(id + 1) + (RESOURCES + (Dec(font) + PAGE_END))))));
    PageDictReads(id + 1, font, After(Objects(pages), id));
  }

  lemma FontFound(pages: seq<seq<string>>)
    requires pages != [] && Addressable(Objects(pages))
    ensures Found(pages, FontId(pages)).Some?
    ensures Skip(FONT, Found(pages, FontId(pages)).value).Some?
  {
    ObjectsAt(pages, 0);
    ObjectReads(Objects(pages), FontId(pages), FONT);
    SkipToken(FONT, After(Objects(pages), FontId(pages)));
  }

  lemma ContentFound(pages: seq<seq<string>>, p: nat)
    requires p < |pages| && pages[p] != [] && Addressable(Objects(pages))
    ensures Found(pages, 4 + 2 * p).Some?
    ensures Stream(Found(pages, 4 + 2 * p).value) == Some(StreamOf(pages[p]))
  {
    var id, stream := 4 + p * 2, StreamOf(pages[p]);
    ObjectsAt(pages, p);
    ObjectReads(Objects(pages), id, LENGTH + (Dec(|stream|) + (STREAM + (stream + END_STREAM))));
    ContentReads(id, pages[p], After(Objects(pages), id));
  }

  lemma PageFrom(pdf: string, table: (nat, string), id: nat, refs: PageRefs, texts: seq<string>)
    requires ObjectAt(pdf, table, id).Some? && PageDict(ObjectAt(pdf, table, id).value) == Some(refs)
    requires ObjectAt(pdf, table, refs.font).Some? && Skip(FONT, ObjectAt(pdf, table, refs.font).value).Some?
    requires ObjectAt(pdf, table, refs.contents).Some? && Stream(ObjectAt(pdf, table, refs.contents).value).Some?
    requires Shown(Stream(ObjectAt(pdf, table, refs.contents).value).value, true) == Some(texts)
    ensures Page(pdf, table, refs.parent, id) == Some(texts)
  {
  }

  lemma PageReads(pages: seq<seq<string>>, p: nat)
    requires p < |pages| && pages[p] != []
    requires Addressable(Objects(pages))
    ensures Page(File(Objects(pages)), TableOf(Objects(pages)), 2, 3 + 2 * p) == Some(SeenAll(pages[p]))
  {
    PageFound(pages, p);
    FontFound(pages);
    ContentFound(pages, p);
    ShownReads(pages[p], true);
    PageFrom(File(Objects(pages)), TableOf(Objects(pages)), 3 + 2 * p, PageRefs(2, 4 + 2 * p, FontId(pages)), SeenAll(pages[p]));
  }

  function SeenPages(pages: seq<seq<string>>): seq<seq<string>> {
    if pages == [] then [] else [SeenAll(pages[0])] + SeenPages(pages[1..])
  }

  predicate PageSeen(pdf: string, table: (nat, string), id: nat, texts: seq<string>) {
    Page(pdf, table, 2, id) == Some(texts)
  }

  lemma PagesOfStep(pdf: string, table: (nat, string), kids: seq<nat>, texts: seq<string>, rest: seq<seq<string>>)
    requires kids != [] && PageSeen(pdf, table, kids[0], texts)
    requires PagesOf(pdf, table, 2, kids[1..]) == Some(rest)
    ensures PagesOf(pdf, table, 2, kids) == Some([texts] + rest)
  {
  }

  lemma {:induction false} PagesRead(pdf: string, table: (nat, string), kids: seq<nat>, pages: seq<seq<string>>)
    requires |kids| == |pages|
    requires forall q :: 0 <= q < |pages| ==> PageSeen(pdf, table, kids[q], SeenAll(pages[q]))
    ensures PagesOf(pdf, table, 2, kids) == Some(SeenPages(pages))
    decreases |pages|
  {
    if pages != [] {
      PagesRead(pdf, table, kids[1..], pages[1..]);
      PagesOfStep(pdf, table, kids, SeenAll(pages[0]), SeenPages(pages[1..]));
    }
  }

  lemma {:induction false} KidAt(first: nat, n: nat, q: nat)
    requires q < n
    ensures |KidIds(first, n)| == n && KidIds(first, n)[q] == first + 2 * q
    decreases n
  {
    KidCount(first, n);
    if q > 0 {
      KidAt(first + 2, n - 1, q - 1);
    }
  }

  lemma CatalogAt(pages: seq<seq<string>>)
    requires pages != [] && Addressable(Objects(pages))
    ensures Found(pages, 1) == Some((CATALOG + (Dec(2) + CATALOG_END)) + After(Objects(pages), 1))
  {
    var objects := Objects(pages);
    assert |objects| >= 2 && objects[0] == CatalogObject();
    ObjectReads(objects, 1, CATALOG + (Dec(2) + CATALOG_END));
  }

  lemma TreeAt(pages: seq<seq<string>>)
    requires pages != [] && Addressable(Objects(pages))
    ensures Found(pages, 2) == Some(TreeInner(|pages|) + After(Objects(pages), 2))
  {
    var objects, inner := Objects(pages), TreeInner(|pages|);
    assert |objects| >= 2 && objects[1] == PagesObject(|pages|);
    assert PagesObject(|pages|) == Dec(2) + (OBJ + inner);
    ObjectReads(objects, 2, inner);
  }

  lemma DocumentFrom(pdf: string, xref: nat, table: (nat, string), catalog: string, tree: string, kids: seq<nat>)
    requires StartXref(pdf) == Some(xref) && Table(pdf, xref) == Some(table) && Root(table) == Some(1)
    requires ObjectAt(pdf, table, 1) == Some(catalog) && CatalogDict(catalog) == Some(2)
    requires ObjectAt(pdf, table, 2) == Some(tree) && TreeDict(tree) == Some(kids)
    ensures Document(pdf) == PagesOf(pdf, table, 2, kids)
  {
  }

  /** A reader starting from the end of the file gets back every page, line by line. */
  lemma DocumentReads(pages: seq<seq<string>>)
    requires Paged(pages) && Addressable(Objects(pages))
    ensures Document(File(Objects(pages))) == Some(SeenPages(pages))
  {
    var objects := Objects(pages);
    StartXrefReads(objects);
    TableReads(objects);
    RootReads(objects);
    CatalogAt(pages);
    TreeAt(pages);
    CatalogDictReads(After(objects, 1));
    TreeDictReads(|pages|, After(objects, 2));
    DocumentFrom(File(objects), |Body(objects)|, TableOf(objects), (CATALOG + (Dec(2) + CATALOG_END)) + After(objects, 1),
                 TreeInner(|pages|) + After(objects, 2), KidIds(3, |pages|));
    KidCount(3, |pages|);
    forall p | 0 <= p < |pages|
      ensures PageSeen(File(objects), TableOf(objects), KidIds(3, |pages|)[p], SeenAll(pages[p]))
    {
      PageReads(pages, p);
      KidAt(3, |pages|, p);
    }
    PagesRead(File(objects), TableOf(objects), KidIds(3, |pages|), pages);
  }

  lemma {:induction false} OffsetsInFile(objects: seq<string>, i: nat)
    requires i < |objects|
    ensures Offset(objects, i) < |File(objects)|
  {
    FileAt(objects, i + 1);
    assert |HEADER| == 9;
  }

  /**
   * Rendering and reading: for every payload's lines, a conforming reader of the file gets the wrapped lines back,
   * page by page, with non-ASCII characters as question marks and carriage returns as line feeds.
   */
  lemma RenderReadsBack(lines: seq<string>, entity: string)
    requires |Render(lines, entity)| <= Pow10(10)
    ensures Document(Render(lines, entity)) == Some(SeenPages(Pages(lines, entity)))
    ensures Flatten(Pages(lines, entity)) == if WrapAll(lines) == [] then [entity] else WrapAll(lines)
  {
    var pages := Pages(lines, entity);
    var objects := Objects(pages);
    if WrapAll(lines) == [] {
      assert [[entity]][1..] == [];
      assert [entity] + [] == [entity];
    } else {
      ChunksKeepLines(WrapAll(lines));
    }
    forall i | 0 <= i < |objects|
      ensures Offset(objects, i) < Pow10(10)
    {
      OffsetsInFile(objects, i);
    }
    DocumentReads(pages);
  }

  lemma Numbered(i: nat, rest: string)
    ensures Dec(i) + OBJ <= Dec(i) + (OBJ + rest)
  {
    Assoc(Dec(i), OBJ, rest);
  }

  /** An object's text starts with its own number. */
  lemma ObjectNumbered(pages: seq<seq<string>>, i: nat)
    requires pages != [] && 1 <= i <= FontId(pages)
    ensures |Objects(pages)| == FontId(pages)
    ensures Dec(i) + OBJ <= Objects(pages)[i - 1]
  {
    var font := FontId(pages);
    ObjectsAt(pages, 0);
    if i == 1 {
      Numbered(1, CATALOG + (Dec(2) + CATALOG_END));
    } else if i == 2 {
      Numbered(2, TreeInner(|pages|));
    } else if i == font {
      Numbered(font, FONT);
    } else {
      var p := (i - 3) / 2;
      ObjectsAt(pages, p);
      if i == 3 + 2 * p {
        Numbered(i, PAGE + (Dec(2) + (CONTENTS + (Dec(i + 1) + (RESOURCES + (Dec(font) + PAGE_END))))));
      } else {
        var stream := StreamOf(pages[p]);
        Numbered(i, LENGTH + (Dec(|stream|) + (STREAM + (stream + END_STREAM))));
      }
    }
  }

  /** Every object of a rendered file begins, at the offset of its 20-byte entry, with its own number. */
  lemma EveryEntryPoints(pages: seq<seq<string>>, i: nat)
    requires Paged(pages) && Addressable(Objects(pages))
    requires 1 <= i <= FontId(pages)
    ensures |Objects(pages)| == FontId(pages)
    ensures StartXref(File(Objects(pages))) == Some(|Body(Objects(pages))|)
    ensures XREF <= File(Objects(pages))[|Body(Objects(pages))|..]
    ensures EntryOffset(TableOf(Objects(pages)), i) == Some(Offset(Objects(pages), i - 1))
    ensures Offset(Objects(pages), i - 1) <= |File(Objects(pages))|
    ensures Dec(i) + OBJ <= File(Objects(pages))[Offset(Objects(pages), i - 1)..]
  {
    var objects := Objects(pages);
    ObjectNumbered(pages, i);
    StartXrefReads(objects);
    XrefThere(objects);
    OffsetReads(objects, i);
    FileAt(objects, i);
  }

  lemma XrefThere(objects: seq<string>)
    ensures |Body(objects)| <= |File(objects)| && XREF <= File(objects)[|Body(objects)|..]
  {
    Split(Body(objects), Xref(objects) + Trailer(objects));
    Assoc(XREF, Dec(|objects| + 1) + ("\n" + (FREE + Entries(objects, 0))), Trailer(objects));
  }
}
