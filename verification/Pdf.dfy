/** The PDF writer of packages/kernel/src/issued-client-document.ts; one character is one Latin-1 byte. */
module PdfTokens {
  const FIRST_LINE := "BT /F1 11 Tf 50 760 Td ("
  const NEXT_LINE := "0 -14 Td ("
  const SHOW := " Tj"
  const END_TEXT := "\nET\n"

  const OBJ := " 0 obj << "
  const CATALOG := "/Type /Catalog /Pages "
  const CATALOG_END := " 0 R >> endobj\n"
  const KIDS := "/Type /Pages /Kids ["
  const REF := " 0 R"
  const COUNT := "] /Count "
  const PAGES_END := " >> endobj\n"
  const PAGE := "/Type /Page /Parent "
  const CONTENTS := " 0 R /MediaBox [0 0 612 792] /Contents "
  const RESOURCES := " 0 R /Resources << /Font << /F1 "
  const PAGE_END := " 0 R >> >> >> endobj\n"
  const LENGTH := "/Length "
  const STREAM := " >> stream\n"
  const END_STREAM := "endstream\nendobj\n"
  const FONT := "/Type /Font /Subtype /Type1 /BaseFont /Helvetica >> endobj\n"

  const HEADER := "%PDF-1.4\n"
  const XREF := "xref\n0 "
  const FREE := "0000000000 65535 f \n"
  const IN_USE := " 00000 n \n"
  const TRAILER := "trailer << /Size "
  const ROOT := " /Root "
  const START_XREF := " 0 R >>\nstartxref\n"
  const EOF := "\n%%EOF\n"
}

module Pdf {
  import opened Decimal
  import opened PdfText
  import opened PdfTokens

  // ---------------------------------------------------------------- objects

  function LineStart(first: bool): string {
    if first then FIRST_LINE else NEXT_LINE
  }

  /** What shows the first of some lines, and the rest of the page after it. */
  function LineOps(lines: seq<string>, first: bool): string
    requires lines != []
    decreases |lines|, 0
  {
    LineStart(first) + (PdfEscape(lines[0]) + (")" + (SHOW + Ops(lines[1..], false))))
  }

  /** The text operators of a page: each line shown, joined by line feeds, and the end of the text object. */
  function Ops(lines: seq<string>, first: bool): string
    decreases |lines|, 1
  {
    if lines == [] then END_TEXT
    else if first then LineOps(lines, first)
    else "\n" + LineOps(lines, first)
  }

  function Kids(first: nat, n: nat): string
    decreases n
  {
    if n == 0 then ""
    else if n == 1 then Dec(first) + REF
    else Dec(first) + (REF + (" " + Kids(first + 2, n - 1)))
  }

  function CatalogObject(): string {
    Dec(1) + (OBJ + (CATALOG + (Dec(2) + CATALOG_END)))
  }

  function TreeInner(n: nat): string {
    KIDS + (Kids(3, n) + (COUNT + (Dec(n) + PAGES_END)))
  }

  function PagesObject(n: nat): string {
    Dec(2) + (OBJ + TreeInner(n))
  }

  function PageObject(id: nat, fontId: nat): string {
    Dec(id) + (OBJ + (PAGE + (Dec(2) + (CONTENTS + (Dec(id + 1) + (RESOURCES + (Dec(fontId) + PAGE_END)))))))
  }

  function StreamOf(lines: seq<string>): string {
    Ops(lines, true)
  }

  function ContentObject(id: nat, lines: seq<string>): string {
    var stream := StreamOf(lines);
    Dec(id) + (OBJ + (LENGTH + (Dec(|stream|) + (STREAM + (stream + END_STREAM)))))
  }

  function FontObject(id: nat): string {
    Dec(id) + (OBJ + FONT)
  }

  /** The page and content objects of the pages from the idx-th on. */
  function PageObjects(pages: seq<seq<string>>, idx: nat, fontId: nat): seq<string>
    requires idx <= |pages|
    decreases |pages| - idx
  {
    if idx == |pages| then []
    else
      [PageObject(3 + idx * 2, fontId), ContentObject(4 + idx * 2, pages[idx])] + PageObjects(pages, idx + 1, fontId)
  }

  function FontId(pages: seq<seq<string>>): nat {
    3 + |pages| * 2
  }

  /** Object i is at position i - 1. */
  function Objects(pages: seq<seq<string>>): seq<string> {
    [CatalogObject(), PagesObject(|pages|)] + PageObjects(pages, 0, FontId(pages)) + [FontObject(FontId(pages))]
  }

  // ---------------------------------------------------------------- the file

  function Offset(objects: seq<string>, i: nat): nat
    requires i <= |objects|
  {
    |HEADER| + |Concat(objects[..i])|
  }

  function Entry(offset: nat): string {
    PadStart(Dec(offset), 10) + IN_USE
  }

  /** The in-use entries of the objects from the i-th position on. */
  function Entries(objects: seq<string>, i: nat): string
    requires i <= |objects|
    decreases |objects| - i
  {
    if i == |objects| then "" else Entry(Offset(objects, i)) + Entries(objects, i + 1)
  }

  function Body(objects: seq<string>): string {
    HEADER + Concat(objects)
  }

  function Xref(objects: seq<string>): string {
    XREF + (Dec(|objects| + 1) + ("\n" + (FREE + Entries(objects, 0))))
  }

  function Trailer(objects: seq<string>): string {
    TRAILER + (Dec(|objects| + 1) + (ROOT + (Dec(1) + (START_XREF + (Dec(|Body(objects)|) + EOF)))))
  }

  function File(objects: seq<string>): string {
    Body(objects) + (Xref(objects) + Trailer(objects))
  }

  /** `renderIssuedClientDocumentPdf`, from the payload's lines on. */
  function Render(lines: seq<string>, entity: string): string {
    File(Objects(Pages(lines, entity)))
  }

  lemma {:induction false} ConcatSnoc(parts: seq<string>, part: string)
    ensures Concat(parts + [part]) == Concat(parts) + part
  {
    if parts == [] {
      assert [part][1..] == [];
      assert Concat([part]) == part + "";
    } else {
      ConcatSnoc(parts[1..], part);
      assert (parts + [part])[1..] == parts[1..] + [part];
      assert parts[0] + (Concat(parts[1..]) + part) == (parts[0] + Concat(parts[1..])) + part;
    }
  }

  method BuildObjects(pages: seq<seq<string>>) returns (objects: seq<string>)
    ensures objects == Objects(pages)
  {
    var front := [CatalogObject(), PagesObject(|pages|)];
    var middle := [];
    for idx := 0 to |pages|
      invariant middle + PageObjects(pages, idx, FontId(pages)) == PageObjects(pages, 0, FontId(pages))
    {
      middle := middle + [PageObject(3 + idx * 2, FontId(pages)), ContentObject(4 + idx * 2, pages[idx])];
    }
    objects := front + middle + [FontObject(FontId(pages))];
  }

  method Assemble(objects: seq<string>) returns (body: string, offsets: seq<nat>)
    ensures body == Body(objects)
    ensures |offsets| == |objects| && forall j :: 0 <= j < |objects| ==> offsets[j] == Offset(objects, j)
  {
    body := HEADER;
    offsets := [];
    for k := 0 to |objects|
      invariant body == HEADER + Concat(objects[..k])
      invariant |offsets| == k && forall j :: 0 <= j < k ==> offsets[j] == Offset(objects, j)
    {
      offsets := offsets + [|body|];
      ConcatSnoc(objects[..k], objects[k]);
      assert objects[..k + 1] == objects[..k] + [objects[k]];
      body := body + objects[k];
    }
    assert objects[..|objects|] == objects;
  }

  method WriteXref(objects: seq<string>, offsets: seq<nat>) returns (xref: string)
    requires |offsets| == |objects| && forall j :: 0 <= j < |objects| ==> offsets[j] == Offset(objects, j)
    ensures xref == Xref(objects)
  {
    var entries := "";
    for i := 0 to |offsets|
      invariant entries + Entries(objects, i) == Entries(objects, 0)
    {
      assert entries + (Entry(offsets[i]) + Entries(objects, i + 1)) == (entries + Entry(offsets[i])) + Entries(objects, i + 1);
      entries := entries + Entry(offsets[i]);
    }
    xref := XREF + (Dec(|objects| + 1) + ("\n" + (FREE + entries)));
  }

  method RenderIssuedClientDocumentPdf(lines: seq<string>, entity: string) returns (pdf: string)
    ensures pdf == Render(lines, entity)
  {
    var wrapped := WrapLines(lines);
    var pages := Paginate(wrapped, entity);
    var objects := BuildObjects(pages);
    var body, offsets := Assemble(objects);
    var xref := WriteXref(objects, offsets);
    pdf := body + (xref + Trailer(objects));
  }
}
