/** The canonical JSON printer of packages/kernel/src/crypto.ts and what its text determines. */
module CanonicalJson {
  import opened Decimal

  datatype Entry<T> = Entry(key: string, value: T)

  /** A JavaScript value as `canonicalJson` meets it; object members in insertion order. */
  datatype Json =
    | Undefined
    | Null
    | NonFinite // NaN and the infinities
    | Bool(b: bool)
    | Num(n: int)
    | Str(s: string)
    | Arr(items: seq<Json>)
    | Obj(members: seq<Entry<Json>>)

  /** What the value says once member order, and what JSON cannot tell from null, are forgotten. */
  datatype Value =
    | VNull
    | VBool(b: bool)
    | VNum(n: int)
    | VStr(s: string)
    | VArr(items: seq<Value>)
    | VObj(fields: map<string, Value>)

  function Meaning(v: Json): Value
    decreases v, 1
  {
    match v
    case Undefined => VNull
    case Null => VNull
    case NonFinite => VNull
    case Bool(b) => VBool(b)
    case Num(n) => VNum(n)
    case Str(s) => VStr(s)
    case Arr(items) => VArr(MeaningItems(items))
    case Obj(ms) => VObj(MeaningFields(ms))
  }

  function MeaningItems(items: seq<Json>): seq<Value>
    decreases items, 0
  {
    if items == [] then [] else [Meaning(items[0])] + MeaningItems(items[1..])
  }

  function MeaningFields(ms: seq<Entry<Json>>): map<string, Value>
    decreases ms, 0
  {
    if ms == [] then map[] else MeaningFields(ms[1..])[ms[0].key := Meaning(ms[0].value)]
  }

  predicate DistinctKeys<T>(es: seq<Entry<T>>) {
    forall i, j :: 0 <= i < j < |es| ==> es[i].key != es[j].key
  }

  /** The members of a JavaScript object have distinct keys, at every depth. */
  predicate WellFormed(v: Json)
    decreases v
  {
    match v
    case Arr(items) => forall x :: x in items ==> WellFormed(x)
    case Obj(ms) => DistinctKeys(ms) && forall m :: m in ms ==> WellFormed(m.value)
    case _ => true
  }

  // ---------------------------------------------------------------- the printer

  /** How two keys compare; `localeCompare(a, b) <= 0` in the program. */
  type Collation = (string, string) -> bool

  ghost predicate TotalPreorder(le: Collation) {
    && (forall a, b :: le(a, b) || le(b, a))
    && (forall a, b, c :: le(a, b) && le(b, c) ==> le(a, c))
  }

  /** No two different keys compare equal. */
  ghost predicate NoTies(le: Collation) {
    forall a, b :: le(a, b) && le(b, a) ==> a == b
  }

  function Insert<T>(le: Collation, e: Entry<T>, es: seq<Entry<T>>): seq<Entry<T>> {
    if es == [] || le(e.key, es[0].key) then [e] + es else [es[0]] + Insert(le, e, es[1..])
  }

  /** Stable sort by key, as `Array.prototype.sort` is. */
  function Sort<T>(le: Collation, es: seq<Entry<T>>): seq<Entry<T>> {
    if es == [] then [] else Insert(le, es[0], Sort(le, es[1..]))
  }

  function HexDigit(d: nat): char
    requires d < 16
  {
    if d < 10 then ('0' as int + d) as char else ('a' as int + d - 10) as char
  }

  /** The escapes of `JSON.stringify` inside a string literal. */
  function EscapeChar(c: char): (e: string)
    ensures |e| > 0
  {
    if c == '\"' then "\\\""
    else if c == '\\' then "\\\\"
    else if c as int == 8 then "\\b"
    else if c as int == 9 then "\\t"
    else if c as int == 10 then "\\n"
    else if c as int == 12 then "\\f"
    else if c as int == 13 then "\\r"
    else if c as int < 32 then "\\u00" + [HexDigit(c as int / 16), HexDigit(c as int % 16)]
    else [c]
  }

  function Escape(s: string): string {
    if s == "" then "" else EscapeChar(s[0]) + Escape(s[1..])
  }

  function Quote(s: string): string {
    "\"" + Escape(s) + "\""
  }

  function PrintInt(n: int): string {
    if n < 0 then "-" + Dec(-n) else Dec(n)
  }

  /** `parts.join(",")`. */
  function Join(parts: seq<string>): string {
    if parts == [] then ""
    else if |parts| == 1 then parts[0]
    else parts[0] + "," + Join(parts[1..])
  }

  function EntryTexts(es: seq<Entry<string>>): seq<string> {
    if es == [] then [] else [Quote(es[0].key) + ":" + es[0].value] + EntryTexts(es[1..])
  }

  /** `canonicalJson`. Sorting looks at keys alone, so rendering member values first changes nothing. */
  function Canonical(le: Collation, v: Json): string
    decreases v, 1
  {
    match v
    case Undefined => "null"
    case Null => "null"
    case NonFinite => "null"
    case Bool(b) => if b then "true" else "false"
    case Num(n) => PrintInt(n)
    case Str(s) => Quote(s)
    case Arr(items) => "[" + Join(CanonicalItems(le, items)) + "]"
    case Obj(ms) => "{" + Join(EntryTexts(Sort(le, CanonicalMembers(le, ms)))) + "}"
  }

  function CanonicalItems(le: Collation, items: seq<Json>): seq<string>
    decreases items, 0
  {
    if items == [] then [] else [Canonical(le, items[0])] + CanonicalItems(le, items[1..])
  }

  function CanonicalMembers(le: Collation, ms: seq<Entry<Json>>): seq<Entry<string>>
    decreases ms, 0
  {
    if ms == [] then []
    else [Entry(ms[0].key, Canonical(le, ms[0].value))] + CanonicalMembers(le, ms[1..])
  }

  // ---------------------------------------------------------------- normal forms

  /** A value with its members sorted and every null-like leaf made null. */
  function Normalize(le: Collation, v: Json): Json
    decreases v, 1
  {
    match v
    case Undefined => Null
    case NonFinite => Null
    case Arr(items) => Arr(NormalizeItems(le, items))
    case Obj(ms) => Obj(Sort(le, NormalizeMembers(le, ms)))
    case _ => v
  }

  function NormalizeItems(le: Collation, items: seq<Json>): seq<Json>
    decreases items, 0
  {
    if items == [] then [] else [Normalize(le, items[0])] + NormalizeItems(le, items[1..])
  }

  function NormalizeMembers(le: Collation, ms: seq<Entry<Json>>): seq<Entry<Json>>
    decreases ms, 0
  {
    if ms == [] then []
    else [Entry(ms[0].key, Normalize(le, ms[0].value))] + NormalizeMembers(le, ms[1..])
  }

  predicate Normal(v: Json)
    decreases v
  {
    match v
    case Undefined => false
    case NonFinite => false
    case Arr(items) => forall x :: x in items ==> Normal(x)
    case Obj(ms) => forall m :: m in ms ==> Normal(m.value)
    case _ => true
  }

  /** Prints a value in the member order it has. */
  function Print(v: Json): string
    decreases v, 1
  {
    match v
    case Bool(b) => if b then "true" else "false"
    case Num(n) => PrintInt(n)
    case Str(s) => Quote(s)
    case Arr(items) => "[" + Join(PrintItems(items)) + "]"
    case Obj(ms) => "{" + Join(EntryTexts(PrintMembers(ms))) + "}"
    case _ => "null"
  }

  function PrintItems(items: seq<Json>): seq<string>
    decreases items, 0
  {
    if items == [] then [] else [Print(items[0])] + PrintItems(items[1..])
  }

  function PrintMembers(ms: seq<Entry<Json>>): seq<Entry<string>>
    decreases ms, 0
  {
    if ms == [] then [] else [Entry(ms[0].key, Print(ms[0].value))] + PrintMembers(ms[1..])
  }

  lemma {:induction false} InsertPrint(le: Collation, m: Entry<Json>, ms: seq<Entry<Json>>)
    ensures PrintMembers(Insert(le, m, ms)) == Insert(le, Entry(m.key, Print(m.value)), PrintMembers(ms))
  {
    if ms == [] || le(m.key, ms[0].key) {
      assert ([m] + ms)[1..] == ms;
    } else {
      var t := Insert(le, m, ms[1..]);
      InsertPrint(le, m, ms[1..]);
      assert ([ms[0]] + t)[1..] == t;
      assert PrintMembers(ms)[1..] == PrintMembers(ms[1..]);
    }
  }

  lemma {:induction false} SortPrint(le: Collation, ms: seq<Entry<Json>>)
    ensures PrintMembers(Sort(le, ms)) == Sort(le, PrintMembers(ms))
  {
    if ms != [] {
      SortPrint(le, ms[1..]);
      InsertPrint(le, ms[0], Sort(le, ms[1..]));
      assert PrintMembers(ms)[1..] == PrintMembers(ms[1..]);
    }
  }

  /** The program's text is the plain print of the normal form. */
  lemma {:induction false} CanonicalIsPrint(le: Collation, v: Json)
    ensures Canonical(le, v) == Print(Normalize(le, v))
    decreases v, 1
  {
    match v
    case Arr(items) => CanonicalIsPrintItems(le, items);
    case Obj(ms) =>
      CanonicalIsPrintMembers(le, ms);
      SortPrint(le, NormalizeMembers(le, ms));
    case _ =>
  }

  lemma {:induction false} CanonicalIsPrintItems(le: Collation, items: seq<Json>)
    ensures CanonicalItems(le, items) == PrintItems(NormalizeItems(le, items))
    decreases items, 0
  {
    if items != [] {
      CanonicalIsPrint(le, items[0]);
      CanonicalIsPrintItems(le, items[1..]);
    }
  }

  lemma {:induction false} CanonicalIsPrintMembers(le: Collation, ms: seq<Entry<Json>>)
    ensures CanonicalMembers(le, ms) == PrintMembers(NormalizeMembers(le, ms))
    decreases ms, 0
  {
    if ms != [] {
      CanonicalIsPrint(le, ms[0].value);
      CanonicalIsPrintMembers(le, ms[1..]);
    }
  }

  // ---------------------------------------------------------------- reading a print back

  /** What may follow a value: nothing, or a separator of the enclosing array or object. */
  predicate Stop(x: string) {
    x == "" || x[0] == ',' || x[0] == ']' || x[0] == '}'
  }

  lemma Cancel(p: string, x: string, q: string, y: string)
    requires |p| == |q| && p + x == q + y
    ensures p == q && x == y
  {
    assert (p + x)[..|p|] == p && (q + y)[..|q|] == q;
    assert (p + x)[|p|..] == x && (q + y)[|q|..] == y;
  }

  lemma Assoc(a: string, b: string, c: string)
    ensures a + b + c == a + (b + c)
  {
  }

  lemma Assoc4(a: string, b: string, c: string, d: string)
    ensures a + b + c + d == a + (b + (c + d))
  {
  }

  lemma EscapeCharDecode(c: char, d: char, x: string, y: string)
    requires EscapeChar(c) + x == EscapeChar(d) + y
    ensures c == d && x == y
  {
    var a, b := EscapeChar(c), EscapeChar(d);
    assert (a + x)[0] == a[0] && (b + y)[0] == b[0];
    if |a| > 1 {
      assert (a + x)[1] == a[1];
      if |b| > 1 {
        assert (b + y)[1] == b[1];
        if |a| > 2 {
          assert (a + x)[4] == a[4] && (a + x)[5] == a[5];
        }
        if |b| > 2 {
          assert (b + y)[4] == b[4] && (b + y)[5] == b[5];
        }
      }
    }
    assert |a| == |b|;
    assert (a + x)[|a|..] == x && (b + y)[|b|..] == y;
  }

  lemma EscapeCharFirst(c: char)
    ensures EscapeChar(c)[0] != '\"'
  {
  }

  /** The rest of a string literal from its i-th character on, and what follows it. */
  function LiteralTail(s: string, x: string): string {
    if s == "" then "\"" + x else EscapeChar(s[0]) + LiteralTail(s[1..], x)
  }

  lemma {:induction false} LiteralTailIs(s: string, x: string)
    ensures Escape(s) + ("\"" + x) == LiteralTail(s, x)
  {
    if s == "" {
      assert Escape(s) + ("\"" + x) == "\"" + x;
    } else {
      LiteralTailIs(s[1..], x);
      Assoc(EscapeChar(s[0]), Escape(s[1..]), "\"" + x);
    }
  }

  /** No escaped character starts with a bare quote, so the closing quote is recognised. */
  lemma {:induction false} LiteralDecode(s: string, t: string, x: string, y: string)
    requires LiteralTail(s, x) == LiteralTail(t, y)
    ensures s == t && x == y
  {
    if s != "" {
      EscapeCharFirst(s[0]);
      assert LiteralTail(s, x)[0] == EscapeChar(s[0])[0];
    }
    if t != "" {
      EscapeCharFirst(t[0]);
      assert LiteralTail(t, y)[0] == EscapeChar(t[0])[0];
    }
    if s == "" || t == "" {
      assert s == t;
      Cancel("\"", x, "\"", y);
    } else {
      EscapeCharDecode(s[0], t[0], LiteralTail(s[1..], x), LiteralTail(t[1..], y));
      LiteralDecode(s[1..], t[1..], x, y);
      assert s == [s[0]] + s[1..] && t == [t[0]] + t[1..];
    }
  }

  lemma QuoteDecode(s: string, t: string, x: string, y: string)
    requires Quote(s) + x == Quote(t) + y
    ensures s == t && x == y
  {
    QuoteTail(s, x);
    QuoteTail(t, y);
    Cancel("\"", LiteralTail(s, x), "\"", LiteralTail(t, y));
    LiteralDecode(s, t, x, y);
  }

  lemma QuoteTail(s: string, x: string)
    ensures Quote(s) + x == "\"" + LiteralTail(s, x)
  {
    LiteralTailIs(s, x);
    assert Quote(s) + x == "\"" + (Escape(s) + ("\"" + x));
  }

  lemma PrintIntDecode(n: int, m: int, x: string, y: string)
    requires Stop(x) && Stop(y)
    requires PrintInt(n) + x == PrintInt(m) + y
    ensures n == m && x == y
  {
    assert (PrintInt(n) + x)[0] == PrintInt(n)[0] && (PrintInt(m) + y)[0] == PrintInt(m)[0];
    assert n < 0 <==> PrintInt(n)[0] == '-';
    assert m < 0 <==> PrintInt(m)[0] == '-';
    if n < 0 {
      Assoc("-", Dec(-n), x);
      Assoc("-", Dec(-m), y);
      Cancel("-", Dec(-n) + x, "-", Dec(-m) + y);
      DecInjective(-n, -m, x, y);
    } else {
      DecInjective(n, m, x, y);
    }
  }

  /** The kind of a printed value shows in its first character. */
  lemma PrintFirst(v: Json)
    requires Normal(v)
    ensures Print(v) != "" && !Stop(Print(v))
    ensures v.Null? <==> Print(v)[0] == 'n'
    ensures v.Bool? <==> Print(v)[0] in {'t', 'f'}
    ensures v.Num? <==> Print(v)[0] == '-' || IsDigit(Print(v)[0])
    ensures v.Str? <==> Print(v)[0] == '\"'
    ensures v.Arr? <==> Print(v)[0] == '['
    ensures v.Obj? <==> Print(v)[0] == '{'
  {
  }

  /** A printed value, followed by a separator or the end, is read back in exactly one way. */
  lemma {:induction false} PrintDecode(v: Json, w: Json, x: string, y: string)
    requires Normal(v) && Normal(w)
    requires Stop(x) && Stop(y)
    requires Print(v) + x == Print(w) + y
    ensures v == w && x == y
    decreases v, 1
  {
    SameKind(v, w, x, y);
    match v
    case Null => Cancel(Print(v), x, Print(w), y);
    case Bool(b) => BoolDecode(v, w, x, y);
    case Num(n) => PrintIntDecode(n, w.n, x, y);
    case Str(s) => QuoteDecode(s, w.s, x, y);
    case Arr(items) =>
      Bracketed("[", Join(PrintItems(items)), "]", x, Join(PrintItems(w.items)), y);
      JoinTailIs(PrintItems(items), "]" + x);
      JoinTailIs(PrintItems(w.items), "]" + y);
      ItemsDecode(items, w.items, "]" + x, "]" + y);
      Cancel("]", x, "]", y);
    case Obj(ms) =>
      Bracketed("{", Join(EntryTexts(PrintMembers(ms))), "}", x, Join(EntryTexts(PrintMembers(w.members))), y);
      JoinTailIs(EntryTexts(PrintMembers(ms)), "}" + x);
      JoinTailIs(EntryTexts(PrintMembers(w.members)), "}" + y);
      MembersDecode(ms, w.members, "}" + x, "}" + y);
      Cancel("}", x, "}", y);
  }

  lemma SameKind(v: Json, w: Json, x: string, y: string)
    requires Normal(v) && Normal(w)
    requires Print(v) + x == Print(w) + y
    ensures v.Null? == w.Null? && v.Bool? == w.Bool? && v.Num? == w.Num?
    ensures v.Str? == w.Str? && v.Arr? == w.Arr? && v.Obj? == w.Obj?
  {
    PrintFirst(v);
    PrintFirst(w);
    assert (Print(v) + x)[0] == Print(v)[0] && (Print(w) + y)[0] == Print(w)[0];
  }

  lemma BoolDecode(v: Json, w: Json, x: string, y: string)
    requires v.Bool? && w.Bool? && Print(v) + x == Print(w) + y
    ensures v == w && x == y
  {
    assert (Print(v) + x)[0] == Print(v)[0] && (Print(w) + y)[0] == Print(w)[0];
    Cancel(Print(v), x, Print(w), y);
  }

  lemma Bracketed(open: string, a: string, close: string, x: string, b: string, y: string)
    requires open + a + close + x == open + b + close + y
    ensures a + (close + x) == b + (close + y)
  {
    assert open + a + close + x == open + (a + (close + x));
    assert open + b + close + y == open + (b + (close + y));
    Cancel(open, a + (close + x), open, b + (close + y));
  }

  /** The rest of a joined list of parts, with what follows it; `first` says whether a comma is due. */
  function ListTail(parts: seq<string>, end: string, first: bool): string {
    if parts == [] then end
    else (if first then "" else ",") + (parts[0] + ListTail(parts[1..], end, false))
  }

  lemma {:induction false} JoinTailIs(parts: seq<string>, end: string)
    ensures Join(parts) + end == ListTail(parts, end, true)
  {
    if parts == [] {
      assert Join(parts) + end == end;
    } else {
      JoinTailIs(parts[1..], end);
      var rest := ListTail(parts[1..], end, false);
      if |parts| == 1 {
        assert rest == end;
      } else {
        assert rest == "," + ListTail(parts[1..], end, true);
        assert Join(parts) + end == parts[0] + ("," + (Join(parts[1..]) + end));
      }
      assert "" + (parts[0] + rest) == parts[0] + rest;
    }
  }

  /** What closes a list: its bracket. */
  predicate Closes(end: string) {
    end != "" && (end[0] == ']' || end[0] == '}')
  }

  lemma ListTailStop(parts: seq<string>, end: string)
    requires Closes(end)
    ensures Stop(ListTail(parts, end, false)) && ListTail(parts, end, false) != ""
    ensures parts == [] <==> ListTail(parts, end, false)[0] != ','
  {
  }

  /** One list ends exactly where the other does, when no part starts with a separator. */
  lemma SameEnd(p: seq<string>, end: string, q: seq<string>, end': string, first: bool)
    requires Closes(end) && Closes(end')
    requires p != [] ==> p[0] != "" && !Stop(p[0])
    requires q != [] ==> q[0] != "" && !Stop(q[0])
    requires ListTail(p, end, first) == ListTail(q, end', first)
    ensures p == [] <==> q == []
    ensures p != [] ==> p[0] + ListTail(p[1..], end, false) == q[0] + ListTail(q[1..], end', false)
  {
    var a, b := ListTail(p, end, first), ListTail(q, end', first);
    if first {
      if p != [] {
        assert a == p[0] + ListTail(p[1..], end, false);
        assert a[0] == p[0][0];
      }
      if q != [] {
        assert b == q[0] + ListTail(q[1..], end', false);
        assert b[0] == q[0][0];
      }
    } else {
      ListTailStop(p, end);
      ListTailStop(q, end');
      if p != [] && q != [] {
        Cancel(",", p[0] + ListTail(p[1..], end, false), ",", q[0] + ListTail(q[1..], end', false));
      }
    }
  }

  lemma {:induction false} ItemsDecode(a: seq<Json>, b: seq<Json>, x: string, y: string, first: bool := true)
    requires forall v :: v in a ==> Normal(v)
    requires forall v :: v in b ==> Normal(v)
    requires Closes(x) && Closes(y)
    requires ListTail(PrintItems(a), x, first) == ListTail(PrintItems(b), y, first)
    ensures a == b && x == y
    decreases a, 0
  {
    if a != [] {
      PrintFirst(a[0]);
    }
    if b != [] {
      PrintFirst(b[0]);
    }
    SameEnd(PrintItems(a), x, PrintItems(b), y, first);
    if a != [] {
      var ra, rb := ListTail(PrintItems(a[1..]), x, false), ListTail(PrintItems(b[1..]), y, false);
      ListTailStop(PrintItems(a[1..]), x);
      ListTailStop(PrintItems(b[1..]), y);
      PrintDecode(a[0], b[0], ra, rb);
      ItemsDecode(a[1..], b[1..], x, y, false);
      assert a == [a[0]] + a[1..] && b == [b[0]] + b[1..];
    }
  }

  lemma {:induction false} MembersDecode(a: seq<Entry<Json>>, b: seq<Entry<Json>>, x: string, y: string, first: bool := true)
    requires forall m :: m in a ==> Normal(m.value)
    requires forall m :: m in b ==> Normal(m.value)
    requires Closes(x) && Closes(y)
    requires ListTail(EntryTexts(PrintMembers(a)), x, first) == ListTail(EntryTexts(PrintMembers(b)), y, first)
    ensures a == b && x == y
    decreases a, 0
  {
    var pa, pb := EntryTexts(PrintMembers(a)), EntryTexts(PrintMembers(b));
    SameEnd(pa, x, pb, y, first);
    if a != [] {
      assert pa[1..] == EntryTexts(PrintMembers(a[1..])) && pb[1..] == EntryTexts(PrintMembers(b[1..]));
      var ra, rb := ListTail(pa[1..], x, false), ListTail(pb[1..], y, false);
      ListTailStop(pa[1..], x);
      ListTailStop(pb[1..], y);
      MemberDecode(a[0], b[0], ra, rb);
      MembersDecode(a[1..], b[1..], x, y, false);
      assert a == [a[0]] + a[1..] && b == [b[0]] + b[1..];
    }
  }

  lemma {:induction false} MemberDecode(m: Entry<Json>, n: Entry<Json>, x: string, y: string)
    requires Normal(m.value) && Normal(n.value)
    requires Stop(x) && Stop(y)
    requires Quote(m.key) + ":" + Print(m.value) + x == Quote(n.key) + ":" + Print(n.value) + y
    ensures m == n && x == y
    decreases m, 0
  {
    var vm, vn := Print(m.value) + x, Print(n.value) + y;
    Assoc4(Quote(m.key), ":", Print(m.value), x);
    Assoc4(Quote(n.key), ":", Print(n.value), y);
    QuoteDecode(m.key, n.key, ":" + vm, ":" + vn);
    Cancel(":", vm, ":", vn);
    PrintDecode(m.value, n.value, x, y);
  }

  // ---------------------------------------------------------------- text and meaning

  lemma {:induction false} NormalizeIsNormal(le: Collation, v: Json)
    ensures Normal(Normalize(le, v))
    decreases v, 1
  {
    match v
    case Arr(items) => NormalizeItemsNormal(le, items);
    case Obj(ms) =>
      NormalizeMembersNormal(le, ms);
      SortElements(le, NormalizeMembers(le, ms));
    case _ =>
  }

  lemma {:induction false} NormalizeItemsNormal(le: Collation, items: seq<Json>)
    ensures forall x :: x in NormalizeItems(le, items) ==> Normal(x)
    decreases items, 0
  {
    if items != [] {
      NormalizeIsNormal(le, items[0]);
      NormalizeItemsNormal(le, items[1..]);
    }
  }

  lemma {:induction false} NormalizeMembersNormal(le: Collation, ms: seq<Entry<Json>>)
    ensures forall m :: m in NormalizeMembers(le, ms) ==> Normal(m.value)
    decreases ms, 0
  {
    if ms != [] {
      NormalizeIsNormal(le, ms[0].value);
      NormalizeMembersNormal(le, ms[1..]);
    }
  }

  ghost predicate Within<T>(es: seq<T>, fs: seq<T>) {
    forall i :: 0 <= i < |es| ==> es[i] in fs
  }

  ghost predicate SameElements<T>(es: seq<T>, fs: seq<T>) {
    Within(es, fs) && Within(fs, es)
  }

  predicate NoKey<T>(k: string, es: seq<Entry<T>>) {
    forall i :: 0 <= i < |es| ==> es[i].key != k
  }

  lemma {:induction false} InsertElements<T>(le: Collation, e: Entry<T>, es: seq<Entry<T>>)
    ensures SameElements(Insert(le, e, es), [e] + es)
  {
    if es != [] && !le(e.key, es[0].key) {
      InsertElements(le, e, es[1..]);
      var rest := Insert(le, e, es[1..]);
      assert Insert(le, e, es) == [es[0]] + rest;
      forall i | 0 <= i < |[e] + es|
        ensures ([e] + es)[i] in [es[0]] + rest
      {
        var x := ([e] + es)[i];
        assert i == 0 ==> x == ([e] + es[1..])[0];
        assert i > 1 ==> x == ([e] + es[1..])[i - 1];
        assert x == es[0] || x in rest;
      }
      forall i | 0 <= i < |rest|
        ensures rest[i] in [e] + es
      {
        assert rest[i] in [e] + es[1..];
        assert es[1..] == es[1..|es|];
      }
    }
  }

  lemma {:induction false} InsertNoKey<T>(le: Collation, e: Entry<T>, es: seq<Entry<T>>, k: string)
    requires NoKey(k, es) && k != e.key
    ensures NoKey(k, Insert(le, e, es))
  {
    if es != [] && !le(e.key, es[0].key) {
      InsertNoKey(le, e, es[1..], k);
    }
  }

  lemma {:induction false} InsertDistinct<T>(le: Collation, e: Entry<T>, es: seq<Entry<T>>)
    requires NoKey(e.key, es) && DistinctKeys(es)
    ensures DistinctKeys(Insert(le, e, es))
  {
    if es != [] && !le(e.key, es[0].key) {
      InsertDistinct(le, e, es[1..]);
      InsertNoKey(le, e, es[1..], es[0].key);
    }
  }

  lemma WithinTrans<T>(a: seq<T>, b: seq<T>, c: seq<T>)
    requires Within(a, b) && Within(b, c)
    ensures Within(a, c)
  {
    forall i | 0 <= i < |a|
      ensures a[i] in c
    {
      var j :| 0 <= j < |b| && b[j] == a[i];
    }
  }

  lemma WithinCons<T>(e: T, a: seq<T>, b: seq<T>)
    requires Within(a, b)
    ensures Within([e] + a, [e] + b)
  {
    assert ([e] + b)[0] == e;
    forall i | 0 < i < |[e] + a|
      ensures ([e] + a)[i] in [e] + b
    {
      assert ([e] + a)[i] == a[i - 1];
    }
  }

  /** Sorting keeps the entries. */
  lemma {:induction false} SortElements<T>(le: Collation, es: seq<Entry<T>>)
    ensures SameElements(Sort(le, es), es)
  {
    if es != [] {
      var rest := Sort(le, es[1..]);
      SortElements(le, es[1..]);
      InsertElements(le, es[0], rest);
      WithinCons(es[0], rest, es[1..]);
      WithinCons(es[0], es[1..], rest);
      assert es == [es[0]] + es[1..];
      WithinTrans(Sort(le, es), [es[0]] + rest, es);
      WithinTrans(es, [es[0]] + rest, Sort(le, es));
    }
  }

  lemma {:induction false} SortNoKey<T>(le: Collation, es: seq<Entry<T>>, k: string)
    requires NoKey(k, es)
    ensures NoKey(k, Sort(le, es))
  {
    if es != [] {
      SortNoKey(le, es[1..], k);
      InsertNoKey(le, es[0], Sort(le, es[1..]), k);
    }
  }

  /** Sorting keeps distinct keys distinct. */
  lemma {:induction false} SortDistinct<T>(le: Collation, es: seq<Entry<T>>)
    requires DistinctKeys(es)
    ensures DistinctKeys(Sort(le, es))
  {
    if es != [] {
      SortDistinct(le, es[1..]);
      SortNoKey(le, es[1..], es[0].key);
      InsertDistinct(le, es[0], Sort(le, es[1..]));
    }
  }

  /** With distinct keys, reading a field gives the meaning of the member with that key. */
  lemma {:induction false} FieldOf(ms: seq<Entry<Json>>)
    requires DistinctKeys(ms)
    ensures forall k :: k in MeaningFields(ms) <==> exists m :: m in ms && m.key == k
    ensures forall m :: m in ms ==> m.key in MeaningFields(ms) && MeaningFields(ms)[m.key] == Meaning(m.value)
  {
    if ms != [] {
      FieldOf(ms[1..]);
      forall m | m in ms
        ensures m.key in MeaningFields(ms) && MeaningFields(ms)[m.key] == Meaning(m.value)
      {
        var i :| 0 <= i < |ms| && ms[i] == m;
      }
    }
  }

  /** Members equal as sets give equal fields, whatever their order. */
  lemma SameFields(ms: seq<Entry<Json>>, ns: seq<Entry<Json>>)
    requires DistinctKeys(ms) && DistinctKeys(ns)
    requires SameElements(ms, ns)
    ensures MeaningFields(ms) == MeaningFields(ns)
  {
    FieldOf(ms);
    FieldOf(ns);
    forall k
      ensures k in MeaningFields(ms) <==> k in MeaningFields(ns)
      ensures k in MeaningFields(ms) ==> MeaningFields(ms)[k] == MeaningFields(ns)[k]
    {
    }
  }

  lemma {:induction false} NormalizeMeaning(le: Collation, v: Json)
    requires WellFormed(v)
    ensures Meaning(Normalize(le, v)) == Meaning(v)
    decreases v, 1
  {
    match v
    case Arr(items) => NormalizeItemsMeaning(le, items);
    case Obj(ms) =>
      NormalizeMembersMeaning(le, ms);
      SortElements(le, NormalizeMembers(le, ms));
      SortDistinct(le, NormalizeMembers(le, ms));
      SameFields(Sort(le, NormalizeMembers(le, ms)), NormalizeMembers(le, ms));
    case _ =>
  }

  lemma {:induction false} NormalizeItemsMeaning(le: Collation, items: seq<Json>)
    requires forall x :: x in items ==> WellFormed(x)
    ensures MeaningItems(NormalizeItems(le, items)) == MeaningItems(items)
    decreases items, 0
  {
    if items != [] {
      NormalizeMeaning(le, items[0]);
      NormalizeItemsMeaning(le, items[1..]);
      assert NormalizeItems(le, items)[1..] == NormalizeItems(le, items[1..]);
    }
  }

  lemma {:induction false} NormalizeMembersMeaning(le: Collation, ms: seq<Entry<Json>>)
    requires DistinctKeys(ms) && forall m :: m in ms ==> WellFormed(m.value)
    ensures MeaningFields(NormalizeMembers(le, ms)) == MeaningFields(ms)
    ensures |NormalizeMembers(le, ms)| == |ms|
    ensures forall i :: 0 <= i < |ms| ==>
      NormalizeMembers(le, ms)[i] == Entry(ms[i].key, Normalize(le, ms[i].value))
    ensures DistinctKeys(NormalizeMembers(le, ms))
    decreases ms, 0
  {
    if ms != [] {
      NormalizeMeaning(le, ms[0].value);
      NormalizeMembersMeaning(le, ms[1..]);
      assert NormalizeMembers(le, ms)[1..] == NormalizeMembers(le, ms[1..]);
    }
  }

  /** Equal text means equal values, whatever the collation does. */
  lemma TextDeterminesMeaning(le: Collation, v: Json, w: Json)
    requires WellFormed(v) && WellFormed(w)
    requires Canonical(le, v) == Canonical(le, w)
    ensures Meaning(v) == Meaning(w)
  {
    CanonicalIsPrint(le, v);
    CanonicalIsPrint(le, w);
    NormalizeIsNormal(le, v);
    NormalizeIsNormal(le, w);
    assert Canonical(le, v) + "" == Canonical(le, w) + "";
    PrintDecode(Normalize(le, v), Normalize(le, w), "", "");
    NormalizeMeaning(le, v);
    NormalizeMeaning(le, w);
  }

  ghost predicate Sorted<T>(le: Collation, es: seq<Entry<T>>) {
    forall i, j :: 0 <= i < j < |es| ==> le(es[i].key, es[j].key)
  }

  lemma {:induction false} InsertSorted<T>(le: Collation, e: Entry<T>, es: seq<Entry<T>>)
    requires TotalPreorder(le) && Sorted(le, es)
    ensures Sorted(le, Insert(le, e, es))
  {
    if es != [] {
      if le(e.key, es[0].key) {
        forall j | 0 <= j < |es|
          ensures le(e.key, es[j].key)
        {
          if j > 0 {
            assert le(es[0].key, es[j].key);
          }
        }
      } else {
        var rest := Insert(le, e, es[1..]);
        InsertSorted(le, e, es[1..]);
        InsertElements(le, e, es[1..]);
        forall j | 0 <= j < |rest|
          ensures le(es[0].key, rest[j].key)
        {
          assert rest[j] in [e] + es[1..];
          assert le(es[0].key, e.key);
        }
      }
    }
  }

  lemma {:induction false} SortSorted<T>(le: Collation, es: seq<Entry<T>>)
    requires TotalPreorder(le)
    ensures Sorted(le, Sort(le, es))
  {
    if es != [] {
      SortSorted(le, es[1..]);
      InsertSorted(le, es[0], Sort(le, es[1..]));
    }
  }

  /** A set of entries with distinct keys has one sorted order when no keys tie. */
  lemma {:induction false} SortedUnique<T>(le: Collation, es: seq<Entry<T>>, fs: seq<Entry<T>>)
    requires TotalPreorder(le) && NoTies(le)
    requires Sorted(le, es) && Sorted(le, fs)
    requires DistinctKeys(es) && DistinctKeys(fs)
    requires SameElements(es, fs)
    ensures es == fs
  {
    assert es != [] ==> es[0] in fs;
    assert fs != [] ==> fs[0] in es;
    if es != [] && fs != [] {
      SameHead(le, es, fs);
      TailWithin(es, fs);
      TailWithin(fs, es);
      SortedTail(le, es);
      SortedTail(le, fs);
      SortedUnique(le, es[1..], fs[1..]);
      assert es == [es[0]] + es[1..] && fs == [fs[0]] + fs[1..];
    }
  }

  lemma SortedTail<T>(le: Collation, es: seq<Entry<T>>)
    requires es != [] && Sorted(le, es) && DistinctKeys(es)
    ensures Sorted(le, es[1..]) && DistinctKeys(es[1..])
  {
  }

  lemma SameHead<T>(le: Collation, es: seq<Entry<T>>, fs: seq<Entry<T>>)
    requires TotalPreorder(le) && NoTies(le) && es != [] && fs != [] && es[0] in fs && fs[0] in es
    requires Sorted(le, es) && Sorted(le, fs) && DistinctKeys(fs)
    ensures es[0] == fs[0]
  {
    HeadLeast(le, es, fs[0]);
    HeadLeast(le, fs, es[0]);
    var i :| 0 <= i < |fs| && fs[i] == es[0];
    assert fs[i].key == fs[0].key;
  }

  lemma TailWithin<T>(es: seq<Entry<T>>, fs: seq<Entry<T>>)
    requires es != [] && fs != [] && es[0] == fs[0]
    requires DistinctKeys(es) && Within(es, fs)
    ensures Within(es[1..], fs[1..])
  {
    assert fs == [fs[0]] + fs[1..];
    forall i | 0 <= i < |es[1..]|
      ensures es[1..][i] in fs[1..]
    {
      assert es[i + 1] in fs;
    }
  }

  lemma HeadLeast<T>(le: Collation, es: seq<Entry<T>>, e: Entry<T>)
    requires TotalPreorder(le) && Sorted(le, es) && e in es
    ensures le(es[0].key, e.key)
  {
    var i :| 0 <= i < |es| && es[i] == e;
    assert i == 0 ==> le(e.key, e.key);
  }

  lemma {:induction false} MeaningDeterminesNormal(le: Collation, v: Json, w: Json)
    requires TotalPreorder(le) && NoTies(le)
    requires WellFormed(v) && WellFormed(w)
    requires Meaning(v) == Meaning(w)
    ensures Normalize(le, v) == Normalize(le, w)
    decreases v, 1
  {
    match v
    case Arr(items) => MeaningDeterminesItems(le, items, w.items);
    case Obj(ms) => MeaningDeterminesMembers(le, ms, w.members);
    case _ =>
  }

  lemma {:induction false} MeaningDeterminesItems(le: Collation, a: seq<Json>, b: seq<Json>)
    requires TotalPreorder(le) && NoTies(le)
    requires forall x :: x in a ==> WellFormed(x)
    requires forall x :: x in b ==> WellFormed(x)
    requires MeaningItems(a) == MeaningItems(b)
    ensures NormalizeItems(le, a) == NormalizeItems(le, b)
    decreases a, 0
  {
    if a != [] {
      assert MeaningItems(a)[1..] == MeaningItems(a[1..]);
      assert MeaningItems(b)[1..] == MeaningItems(b[1..]);
      assert MeaningItems(a)[0] == MeaningItems(b)[0];
      MeaningDeterminesNormal(le, a[0], b[0]);
      MeaningDeterminesItems(le, a[1..], b[1..]);
    }
  }

  lemma {:induction false} MeaningDeterminesMembers(le: Collation, a: seq<Entry<Json>>, b: seq<Entry<Json>>)
    requires TotalPreorder(le) && NoTies(le)
    requires DistinctKeys(a) && DistinctKeys(b)
    requires forall m :: m in a ==> WellFormed(m.value)
    requires forall m :: m in b ==> WellFormed(m.value)
    requires MeaningFields(a) == MeaningFields(b)
    ensures Sort(le, NormalizeMembers(le, a)) == Sort(le, NormalizeMembers(le, b))
    decreases a, 0
  {
    var na, nb := NormalizeMembers(le, a), NormalizeMembers(le, b);
    NormalizeMembersMeaning(le, a);
    NormalizeMembersMeaning(le, b);
    FieldOf(a);
    FieldOf(b);
    forall i | 0 <= i < |a|
      ensures exists j :: 0 <= j < |b| && b[j].key == a[i].key && nb[j] == na[i]
    {
      assert a[i] in a;
      var n :| n in b && n.key == a[i].key;
      MeaningDeterminesNormal(le, a[i].value, n.value);
      var j :| 0 <= j < |b| && b[j] == n;
      assert nb[j] == na[i];
    }
    forall j | 0 <= j < |b|
      ensures nb[j] in na
    {
      assert b[j] in b;
      var m :| m in a && m.key == b[j].key;
      var i :| 0 <= i < |a| && a[i] == m;
      var k :| 0 <= k < |b| && b[k].key == a[i].key && nb[k] == na[i];
      assert k == j;
    }
    SortElements(le, na);
    SortElements(le, nb);
    SortDistinct(le, na);
    SortDistinct(le, nb);
    WithinTrans(Sort(le, na), na, nb);
    WithinTrans(Sort(le, na), nb, Sort(le, nb));
    WithinTrans(Sort(le, nb), nb, na);
    WithinTrans(Sort(le, nb), na, Sort(le, na));
    SortSorted(le, na);
    SortSorted(le, nb);
    SortedUnique(le, Sort(le, na), Sort(le, nb));
  }

  /** `canonicalJson` gives equal text exactly for values equal up to key order. */
  lemma CanonicalIffSameMeaning(le: Collation, v: Json, w: Json)
    requires TotalPreorder(le) && NoTies(le)
    requires WellFormed(v) && WellFormed(w)
    ensures Canonical(le, v) == Canonical(le, w) <==> Meaning(v) == Meaning(w)
  {
    if Canonical(le, v) == Canonical(le, w) {
      TextDeterminesMeaning(le, v, w);
    }
    if Meaning(v) == Meaning(w) {
      MeaningDeterminesNormal(le, v, w);
      CanonicalIsPrint(le, v);
      CanonicalIsPrint(le, w);
    }
  }

  ghost predicate KeyOrderNeverShows(le: Collation) {
    forall v, w :: WellFormed(v) && WellFormed(w) && Meaning(v) == Meaning(w) ==> Canonical(le, v) == Canonical(le, w)
  }

  /** Two different keys that compare equal keep their insertion order, which then shows in the text. */
  lemma TiedKeysShowOrder(le: Collation, k: string, l: string)
    requires k != l && le(k, l) && le(l, k)
    ensures var v, w := Obj([Entry(k, Null), Entry(l, Null)]), Obj([Entry(l, Null), Entry(k, Null)]);
            WellFormed(v) && WellFormed(w) && Meaning(v) == Meaning(w) && Canonical(le, v) != Canonical(le, w)
  {
    var ek, el := Entry(k, Null), Entry(l, Null);
    SameFields([ek, el], [el, ek]);
    TwoMembers(le, ek, el);
    TwoMembers(le, el, ek);
    CanonicalIsPrint(le, Obj([ek, el]));
    CanonicalIsPrint(le, Obj([el, ek]));
    assert [ek, el][0] == ek && [el, ek][0] == el;
    DifferentPrints(Obj([ek, el]), Obj([el, ek]));
  }

  lemma DifferentPrints(v: Json, w: Json)
    requires Normal(v) && Normal(w) && v != w
    ensures Print(v) != Print(w)
  {
    if Print(v) == Print(w) {
      assert Print(v) + "" == Print(w) + "";
      PrintDecode(v, w, "", "");
    }
  }

  lemma TwoMembers(le: Collation, a: Entry<Json>, b: Entry<Json>)
    requires le(a.key, b.key) && a.value == b.value == Null
    ensures Normalize(le, Obj([a, b])) == Obj([a, b])
  {
    var ms := [a, b];
    assert ms[1..] == [b] && [b][1..] == [];
    assert NormalizeMembers(le, [b]) == [b];
    assert NormalizeMembers(le, ms) == [a, b];
    assert Sort(le, [b]) == [b];
    assert Sort(le, ms) == Insert(le, a, [b]) == [a, b];
  }

  /** The text forgets key order exactly when the collation never ties different keys. */
  lemma KeyOrderHiddenIffNoTies(le: Collation)
    requires TotalPreorder(le)
    ensures KeyOrderNeverShows(le) <==> NoTies(le)
  {
    if NoTies(le) {
      forall v, w | WellFormed(v) && WellFormed(w) && Meaning(v) == Meaning(w)
        ensures Canonical(le, v) == Canonical(le, w)
      {
        CanonicalIffSameMeaning(le, v, w);
      }
    } else {
      var k, l :| le(k, l) && le(l, k) && k != l;
      TiedKeysShowOrder(le, k, l);
    }
  }
}
