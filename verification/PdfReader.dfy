/**
 * A reader that follows the file the way ISO 32000-1:2008 says: from `startxref` to the cross-reference table
 * (sections 7.5.4 and 7.5.5), by byte offset to each object, down the page tree (7.7.3), through each stream's
 * /Length (7.3.8) and its string literals (7.3.4.2).
 */
module PdfReader {
  import opened Options
  import opened Decimal
  import opened PdfTokens

  function Skip(token: string, s: string): (r: Option<string>)
    ensures r.Some? ==> |r.value| == |s| - |token|
  {
    if token <= s then Some(s[|token|..]) else None
  }

  function Number(s: string): (r: Option<(nat, string)>)
    ensures r.Some? ==> |r.value.1| < |s|
  {
    var n := DigitRun(s);
    if n == 0 then None else Some((Value(s[..n]), s[n..]))
  }

  /** The number of digits a text ends in. */
  function TailRun(s: string): (n: nat)
    ensures n <= |s| && AllDigits(s[|s| - n..])
  {
    if s != "" && IsDigit(s[|s| - 1]) then
      var n := TailRun(s[..|s| - 1]);
      assert s[|s| - (n + 1)..] == s[..|s| - 1][|s| - 1 - n..] + [s[|s| - 1]];
      n + 1
    else 0
  }

  /** The offset the last line before the end-of-file marker gives. */
  function StartXref(pdf: string): Option<nat> {
    if |pdf| < |EOF| || pdf[|pdf| - |EOF|..] != EOF then None
    else
      var s := pdf[..|pdf| - |EOF|];
      var n := TailRun(s);
      if n == 0 then None else Some(Value(s[|s| - n..]))
  }

  const ENTRY_BYTES := 20

  /** The table's entry count, and its entries with what follows them. */
  function Table(pdf: string, xref: nat): Option<(nat, string)> {
    if xref > |pdf| then None
    else
      var a :- Skip(XREF, pdf[xref..]);
      var (count, b) :- Number(a);
      var c :- Skip("\n", b);
      Some((count, c))
  }

  /** The offset in the i-th 20-byte entry, when it is in use. */
  function EntryOffset(table: (nat, string), i: nat): Option<nat> {
    var (count, entries) := table;
    if i >= count || |entries| < ENTRY_BYTES * (i + 1) then None
    else
      var e := entries[ENTRY_BYTES * i..ENTRY_BYTES * i + ENTRY_BYTES];
      if AllDigits(e[..10]) && e[10..] == IN_USE then Some(Value(e[..10])) else None
  }

  /** The inside of object i, found through its entry. */
  function ObjectAt(pdf: string, table: (nat, string), i: nat): Option<string> {
    var offset :- EntryOffset(table, i);
    if offset > |pdf| then None
    else
      var (n, s) :- Number(pdf[offset..]);
      if n != i then None else Skip(OBJ, s)
  }

  /** References `i 0 R` with single spaces between them. */
  function References(s: string): Option<(seq<nat>, string)>
    decreases |s|
  {
    var (n, a) :- Number(s);
    var b :- Skip(REF, a);
    match Skip(" ", b)
    case None => Some(([n], b))
    case Some(c) =>
      var (ns, d) :- References(c);
      Some(([n] + ns, d))
  }

  /** A character after a reverse solidus; octal codes and line continuations are not read. */
  function Unescape(c: char): char {
    match c
    case 'n' => '\n'
    case 'r' => '\r'
    case 't' => '\t'
    case 'b' => 8 as char
    case 'f' => 12 as char
    case _ => c
  }

  /** A string literal after its opening parenthesis: parentheses may nest, an end-of-line marker reads as a line feed. */
  function Literal(s: string, depth: nat): (r: Option<(string, string)>)
    ensures r.Some? ==> |r.value.1| < |s|
    decreases |s|
  {
    if s == "" then None
    else if s[0] == ')' && depth == 0 then Some(("", s[1..]))
    else if s[0] == '\\' then
      if |s| < 2 then None
      else
        var (t, rest) :- Literal(s[2..], depth);
        Some(([Unescape(s[1])] + t, rest))
    else if s[0] == '\r' then
      var (t, rest) :- Literal(if |s| > 1 && s[1] == '\n' then s[2..] else s[1..], depth);
      Some(("\n" + t, rest))
    else
      var inner := if s[0] == '(' then depth + 1 else if s[0] == ')' then depth - 1 else depth;
      var (t, rest) :- Literal(s[1..], inner);
      Some(([s[0]] + t, rest))
  }

  /** The strings shown by a content stream, in order. */
  function Shown(s: string, first: bool): Option<seq<string>>
    decreases |s|
  {
    var a :- Skip(if first then FIRST_LINE else NEXT_LINE, s);
    var (text, b) :- Literal(a, 0);
    var c :- Skip(SHOW, b);
    if c == END_TEXT then Some([text])
    else
      var d :- Skip("\n", c);
      var texts :- Shown(d, false);
      Some([text] + texts)
  }

  /** The bytes of a stream, as many as its /Length says, closed where it says. */
  function Stream(dict: string): Option<string> {
    var a :- Skip(LENGTH, dict);
    var (length, b) :- Number(a);
    var c :- Skip(STREAM, b);
    if |c| < length || Skip(END_STREAM, c[length..]).None? then None else Some(c[..length])
  }

  datatype PageRefs = PageRefs(parent: nat, contents: nat, font: nat)

  function PageDict(dict: string): Option<PageRefs> {
    var a :- Skip(PAGE, dict);
    var (parent, b) :- Number(a);
    var c :- Skip(CONTENTS, b);
    var (contents, d) :- Number(c);
    var e :- Skip(RESOURCES, d);
    var (font, f) :- Number(e);
    var g :- Skip(PAGE_END, f);
    Some(PageRefs(parent, contents, font))
  }

  /** A page of the tree at `parent`: its content stream, when its font resource is a font object. */
  function Page(pdf: string, table: (nat, string), parent: nat, id: nat): Option<seq<string>> {
    var dict :- ObjectAt(pdf, table, id);
    var refs :- PageDict(dict);
    var fontObject :- ObjectAt(pdf, table, refs.font);
    var font :- Skip(FONT, fontObject);
    var content :- ObjectAt(pdf, table, refs.contents);
    var stream :- Stream(content);
    if refs.parent != parent then None else Shown(stream, true)
  }

  function PagesOf(pdf: string, table: (nat, string), parent: nat, kids: seq<nat>): Option<seq<seq<string>>> {
    if kids == [] then Some([])
    else
      var page :- Page(pdf, table, parent, kids[0]);
      var rest :- PagesOf(pdf, table, parent, kids[1..]);
      Some([page] + rest)
  }

  /** The catalog object's number, from the trailer that follows the table's entries. */
  function Root(table: (nat, string)): Option<nat> {
    var (count, entries) := table;
    if |entries| < ENTRY_BYTES * count then None
    else
      var a :- Skip(TRAILER, entries[ENTRY_BYTES * count..]);
      var (size, b) :- Number(a);
      var c :- Skip(ROOT, b);
      var (root, d) :- Number(c);
      if size != count then None else Some(root)
  }

  function CatalogDict(dict: string): Option<nat> {
    var a :- Skip(CATALOG, dict);
    var (tree, b) :- Number(a);
    var c :- Skip(CATALOG_END, b);
    Some(tree)
  }

  /** The kids of the page tree, when /Count says how many there are. */
  function TreeDict(dict: string): Option<seq<nat>> {
    var a :- Skip(KIDS, dict);
    var (kids, b) :- References(a);
    var c :- Skip(COUNT, b);
    var (count, d) :- Number(c);
    var e :- Skip(PAGES_END, d);
    if count != |kids| then None else Some(kids)
  }

  /** The text of a document, page by page and string by string. */
  function Document(pdf: string): Option<seq<seq<string>>> {
    var xref :- StartXref(pdf);
    var table :- Table(pdf, xref);
    var root :- Root(table);
    var catalog :- ObjectAt(pdf, table, root);
    var tree :- CatalogDict(catalog);
    var pages :- ObjectAt(pdf, table, tree);
    var kids :- TreeDict(pages);
    PagesOf(pdf, table, tree, kids)
  }
}
