/** The hash-chained audit log: packages/kernel/src/crypto.ts and `recordAudit` of apps/api/src/store.ts. */
module AuditChain {
  import opened Options
  import opened CanonicalJson

  datatype ActorType = Human | Service | AiAgent

  /** A member that may be missing, and that may be there without a value. */
  datatype Member = Missing | Blank | Given(text: string)

  datatype AuditRecord = AuditRecord(
    tenantId: string,
    occurredAt: string,
    actorType: ActorType,
    actorPrincipalId: Member,
    action: string,
    resourceType: string,
    resourceId: Member,
    correlationId: string,
    allowed: bool,
    previousState: Option<Json>,
    newState: Option<Json>,
    evidence: Option<Json>
  )

  datatype ChainedRecord = ChainedRecord(body: AuditRecord, prevHash: string, rowHash: string)

  /** The hash and the key order the program takes from its platform. */
  datatype Platform = Platform(sha256: string -> string, collation: Collation)

  /** A digest is 64 hexadecimal characters. */
  ghost predicate FixedLength(p: Platform) {
    forall s :: |p.sha256(s)| == 64
  }

  const GENESIS := "0000000000000000000000000000000000000000000000000000000000000000"

  function ActorText(a: ActorType): string {
    match a
    case Human => "Human"
    case Service => "Service"
    case AiAgent => "AiAgent"
  }

  function MemberJson(m: Member): Option<Json> {
    match m
    case Missing => None
    case Blank => Some(Undefined)
    case Given(text) => Some(Str(text))
  }

  /** Every field a record may carry, absent ones included. */
  function Fields(r: AuditRecord): seq<Entry<Option<Json>>> {
    [ Entry("tenantId", Some(Str(r.tenantId))),
      Entry("occurredAt", Some(Str(r.occurredAt))),
      Entry("actorType", Some(Str(ActorText(r.actorType)))),
      Entry("actorPrincipalId", MemberJson(r.actorPrincipalId)),
      Entry("action", Some(Str(r.action))),
      Entry("resourceType", Some(Str(r.resourceType))),
      Entry("resourceId", MemberJson(r.resourceId)),
      Entry("correlationId", Some(Str(r.correlationId))),
      Entry("authorization", Some(Str(if r.allowed then "allow" else "deny"))),
      Entry("previousState", r.previousState),
      Entry("newState", r.newState),
      Entry("evidence", r.evidence) ]
  }

  function Present(fs: seq<Entry<Option<Json>>>): seq<Entry<Json>> {
    if fs == [] then []
    else (if fs[0].value.Some? then [Entry(fs[0].key, fs[0].value.value)] else []) + Present(fs[1..])
  }

  /** The record as the object `canonicalJson` is given: the chain's own two fields are left out. */
  function ToJson(r: AuditRecord): Json {
    Obj(Present(Fields(r)))
  }

  predicate WellFormedState(o: Option<Json>) {
    o.Some? ==> WellFormed(o.value)
  }

  predicate WellFormedRecord(r: AuditRecord) {
    WellFormedState(r.previousState) && WellFormedState(r.newState) && WellFormedState(r.evidence)
  }

  /** The same record: equal in every field, the free-form states up to key order. */
  predicate SameState(a: Option<Json>, b: Option<Json>) {
    a.Some? == b.Some? && (a.Some? ==> Meaning(a.value) == Meaning(b.value))
  }

  predicate SameRecord(a: AuditRecord, b: AuditRecord) {
    && a.tenantId == b.tenantId
    && a.occurredAt == b.occurredAt
    && a.actorType == b.actorType
    && a.actorPrincipalId == b.actorPrincipalId
    && a.action == b.action
    && a.resourceType == b.resourceType
    && a.resourceId == b.resourceId
    && a.correlationId == b.correlationId
    && a.allowed == b.allowed
    && SameState(a.previousState, b.previousState)
    && SameState(a.newState, b.newState)
    && SameState(a.evidence, b.evidence)
  }

  lemma FieldNamesDistinct(r: AuditRecord)
    ensures DistinctKeys(Fields(r))
  {
  }

  lemma {:induction false} PresentDistinct(fs: seq<Entry<Option<Json>>>)
    requires DistinctKeys(fs)
    ensures DistinctKeys(Present(fs))
    ensures forall k :: NoKey(k, fs) ==> NoKey(k, Present(fs))
  {
    if fs != [] {
      PresentDistinct(fs[1..]);
      assert NoKey(fs[0].key, fs[1..]);
      assert forall k :: NoKey(k, fs) ==> k != fs[0].key && NoKey(k, fs[1..]);
    }
  }

  lemma {:induction false} PresentWellFormed(fs: seq<Entry<Option<Json>>>)
    requires forall i :: 0 <= i < |fs| ==> WellFormedState(fs[i].value)
    ensures forall m :: m in Present(fs) ==> WellFormed(m.value)
  {
    if fs != [] {
      PresentWellFormed(fs[1..]);
    }
  }

  lemma RecordWellFormed(r: AuditRecord)
    requires WellFormedRecord(r)
    ensures WellFormed(ToJson(r))
  {
    FieldNamesDistinct(r);
    PresentDistinct(Fields(r));
    PresentWellFormed(Fields(r));
  }

  lemma {:induction false} AbsentField(k: string, ms: seq<Entry<Json>>)
    requires NoKey(k, ms)
    ensures k !in MeaningFields(ms)
  {
    if ms != [] {
      AbsentField(k, ms[1..]);
    }
  }

  /** The fields of the object are exactly the present ones, with their meaning. */
  lemma {:induction false} PresentFields(fs: seq<Entry<Option<Json>>>, i: nat)
    requires DistinctKeys(fs) && i < |fs|
    ensures fs[i].key in MeaningFields(Present(fs)) <==> fs[i].value.Some?
    ensures fs[i].value.Some? ==> MeaningFields(Present(fs))[fs[i].key] == Meaning(fs[i].value.value)
  {
    var rest := Present(fs[1..]);
    assert fs[0].value.Some? ==> Present(fs)[1..] == rest;
    assert !fs[0].value.Some? ==> Present(fs) == rest;
    if i == 0 {
      PresentDistinct(fs[1..]);
      assert NoKey(fs[0].key, fs[1..]);
      AbsentField(fs[0].key, rest);
    } else {
      PresentFields(fs[1..], i - 1);
      assert fs[i].key != fs[0].key;
    }
  }

  /** Two records with the same meaning as JSON are the same record. */
  lemma MeaningTellsRecord(r: AuditRecord, q: AuditRecord)
    requires Meaning(ToJson(r)) == Meaning(ToJson(q))
    ensures SameRecord(r, q)
  {
    FieldNamesDistinct(r);
    FieldNamesDistinct(q);
    forall i | 0 <= i < |Fields(r)|
      ensures SameState(Fields(r)[i].value, Fields(q)[i].value)
    {
      assert Fields(r)[i].key == Fields(q)[i].key;
      PresentFields(Fields(r), i);
      PresentFields(Fields(q), i);
    }
    FieldsTell(r, q);
  }

  lemma FieldsTell(r: AuditRecord, q: AuditRecord)
    requires forall i :: 0 <= i < |Fields(r)| ==> SameState(Fields(r)[i].value, Fields(q)[i].value)
    ensures SameRecord(r, q)
  {
    var f, g := Fields(r), Fields(q);
    assert SameState(f[0].value, g[0].value) && SameState(f[1].value, g[1].value);
    assert SameState(f[2].value, g[2].value) && SameState(f[3].value, g[3].value);
    assert SameState(f[4].value, g[4].value) && SameState(f[5].value, g[5].value);
    assert SameState(f[6].value, g[6].value) && SameState(f[7].value, g[7].value);
    assert SameState(f[8].value, g[8].value) && SameState(f[9].value, g[9].value);
    assert SameState(f[10].value, g[10].value) && SameState(f[11].value, g[11].value);
    ActorTells(r.actorType, q.actorType);
    assert |"allow"| == 5 && |"deny"| == 4;
  }

  lemma ActorTells(a: ActorType, b: ActorType)
    requires ActorText(a) == ActorText(b)
    ensures a == b
  {
    assert |"Human"| == 5 && |"Service"| == 7 && |"AiAgent"| == 7 && "AiAgent"[0] != "Service"[0];
  }

  // ---------------------------------------------------------------- chaining

  /** The text that is hashed for a row. */
  function Text(p: Platform, prevHash: string, body: AuditRecord): string {
    prevHash + "|" + Canonical(p.collation, ToJson(body))
  }

  /** `chainAudit`. */
  function ChainAudit(p: Platform, body: AuditRecord, prevHash: string): ChainedRecord {
    ChainedRecord(body, prevHash, p.sha256(Text(p, prevHash, body)))
  }

  /** The hash a next row must name: the last row's, or the genesis hash. */
  function LastHash(rows: seq<ChainedRecord>): string {
    if rows == [] then GENESIS else rows[|rows| - 1].rowHash
  }

  predicate Links(p: Platform, rows: seq<ChainedRecord>, i: nat)
    requires i < |rows|
  {
    rows[i] == ChainAudit(p, rows[i].body, LastHash(rows[..i]))
  }

  /** Every row was chained onto the one before it. */
  predicate Linked(p: Platform, rows: seq<ChainedRecord>) {
    forall i :: 0 <= i < |rows| ==> Links(p, rows, i)
  }

  /** `verifyAuditChain`: accepts exactly the linked lists, and else names the first row that does not link. */
  method VerifyAuditChain(p: Platform, rows: seq<ChainedRecord>) returns (ok: bool, brokenAt: nat)
    ensures ok <==> Linked(p, rows)
    ensures !ok ==> brokenAt < |rows| && Linked(p, rows[..brokenAt]) && !Links(p, rows, brokenAt)
  {
    var prev := GENESIS;
    for i := 0 to |rows|
      invariant prev == LastHash(rows[..i])
      invariant forall j :: 0 <= j < i ==> Links(p, rows, j)
    {
      var expected := ChainAudit(p, rows[i].body, prev);
      if rows[i].prevHash != prev || rows[i].rowHash != expected.rowHash {
        PrefixLinks(p, rows, i);
        assert !Links(p, rows, i);
        return false, i;
      }
      prev := rows[i].rowHash;
      assert rows[..i + 1][|rows[..i + 1]| - 1] == rows[i];
    }
    return true, 0;
  }

  lemma PrefixLinks(p: Platform, rows: seq<ChainedRecord>, n: nat)
    requires n <= |rows|
    requires forall j :: 0 <= j < n ==> Links(p, rows, j)
    ensures Linked(p, rows[..n])
  {
    forall j | 0 <= j < n
      ensures Links(p, rows[..n], j)
    {
      assert rows[..n][..j] == rows[..j];
      assert Links(p, rows, j);
    }
  }

  lemma AppendLinks(p: Platform, rows: seq<ChainedRecord>, body: AuditRecord)
    requires Linked(p, rows)
    ensures Linked(p, rows + [ChainAudit(p, body, LastHash(rows))])
  {
    var more := rows + [ChainAudit(p, body, LastHash(rows))];
    forall j | 0 <= j < |more|
      ensures Links(p, more, j)
    {
      assert more[..j] == rows[..j];
      assert j < |rows| ==> Links(p, rows, j);
      assert rows[..|rows|] == rows;
    }
  }

  // ---------------------------------------------------------------- binding

  /** The texts hashed along a chain. */
  function Texts(p: Platform, rows: seq<ChainedRecord>): seq<string> {
    seq(|rows|, i requires 0 <= i < |rows| => Text(p, rows[i].prevHash, rows[i].body))
  }

  /** Among these texts the hash shows no collision, and none of them hashes to the genesis hash. */
  ghost predicate NoCollision(p: Platform, texts: seq<string>) {
    && (forall i, j :: 0 <= i < |texts| && 0 <= j < |texts| && p.sha256(texts[i]) == p.sha256(texts[j]) ==> texts[i] == texts[j])
    && (forall i :: 0 <= i < |texts| ==> p.sha256(texts[i]) != GENESIS)
  }

  ghost predicate SameChain(a: seq<ChainedRecord>, b: seq<ChainedRecord>) {
    && |a| == |b|
    && forall i :: 0 <= i < |a| ==>
      a[i].prevHash == b[i].prevHash && a[i].rowHash == b[i].rowHash && SameRecord(a[i].body, b[i].body)
  }

  predicate WellFormedChain(rows: seq<ChainedRecord>) {
    forall i :: 0 <= i < |rows| ==> WellFormedRecord(rows[i].body)
  }

  lemma HashLength(p: Platform, rows: seq<ChainedRecord>)
    requires FixedLength(p) && Linked(p, rows)
    ensures |LastHash(rows)| == 64
  {
    if rows != [] {
      assert Links(p, rows, |rows| - 1);
    }
  }

  lemma TextTells(p: Platform, prev: string, a: AuditRecord, prev': string, b: AuditRecord)
    requires |prev| == 64 && |prev'| == 64
    requires WellFormedRecord(a) && WellFormedRecord(b)
    requires Text(p, prev, a) == Text(p, prev', b)
    ensures prev == prev' && SameRecord(a, b)
  {
    var s, t := Canonical(p.collation, ToJson(a)), Canonical(p.collation, ToJson(b));
    Assoc(prev, "|", s);
    Assoc(prev', "|", t);
    Cancel(prev, "|" + s, prev', "|" + t);
    Cancel("|", s, "|", t);
    RecordWellFormed(a);
    RecordWellFormed(b);
    TextDeterminesMeaning(p.collation, ToJson(a), ToJson(b));
    MeaningTellsRecord(a, b);
  }

  /**
   * The last row hash binds the whole chain: two accepted chains that end in the same hash hold the same
   * records, unless the two chains themselves exhibit a collision of the hash.
   */
  lemma {:induction false} LastHashBindsChain(p: Platform, a: seq<ChainedRecord>, b: seq<ChainedRecord>)
    requires FixedLength(p)
    requires Linked(p, a) && Linked(p, b)
    requires WellFormedChain(a) && WellFormedChain(b)
    requires LastHash(a) == LastHash(b)
    requires NoCollision(p, Texts(p, a) + Texts(p, b))
    ensures SameChain(a, b)
  {
    BothEmptyOrNeither(p, a, b);
    if a != [] {
      LastRowsAgree(p, a, b);
      FewerTexts(p, a, b);
      Shorter(p, a);
      Shorter(p, b);
      LastHashBindsChain(p, a[..|a| - 1], b[..|b| - 1]);
      SameChainGrows(a, b);
    }
  }

  lemma Shorter(p: Platform, rows: seq<ChainedRecord>)
    requires rows != [] && Linked(p, rows) && WellFormedChain(rows)
    ensures Linked(p, rows[..|rows| - 1]) && WellFormedChain(rows[..|rows| - 1])
  {
    PrefixLinks(p, rows, |rows| - 1);
  }

  lemma BothEmptyOrNeither(p: Platform, a: seq<ChainedRecord>, b: seq<ChainedRecord>)
    requires Linked(p, a) && Linked(p, b)
    requires LastHash(a) == LastHash(b)
    requires NoCollision(p, Texts(p, a) + Texts(p, b))
    ensures a == [] <==> b == []
  {
    var texts := Texts(p, a) + Texts(p, b);
    if a != [] && b == [] {
      LastRow(p, a, texts, |a| - 1);
    }
    if a == [] && b != [] {
      assert texts[|b| - 1] == Texts(p, b)[|b| - 1];
      LastRow(p, b, texts, |b| - 1);
    }
  }

  lemma LastTextsAgree(p: Platform, a: seq<ChainedRecord>, b: seq<ChainedRecord>)
    requires a != [] && b != []
    requires Linked(p, a) && Linked(p, b)
    requires LastHash(a) == LastHash(b)
    requires NoCollision(p, Texts(p, a) + Texts(p, b))
    ensures Texts(p, a)[|a| - 1] == Texts(p, b)[|b| - 1]
  {
    var texts := Texts(p, a) + Texts(p, b);
    LastRow(p, a, texts, |a| - 1);
    assert texts[|a| + (|b| - 1)] == Texts(p, b)[|b| - 1];
    LastRow(p, b, texts, |a| + (|b| - 1));
  }

  lemma LastRowsAgree(p: Platform, a: seq<ChainedRecord>, b: seq<ChainedRecord>)
    requires FixedLength(p) && a != [] && b != []
    requires Linked(p, a) && Linked(p, b)
    requires WellFormedChain(a) && WellFormedChain(b)
    requires LastHash(a) == LastHash(b)
    requires NoCollision(p, Texts(p, a) + Texts(p, b))
    ensures a[|a| - 1].prevHash == b[|b| - 1].prevHash && SameRecord(a[|a| - 1].body, b[|b| - 1].body)
    ensures LastHash(a[..|a| - 1]) == LastHash(b[..|b| - 1])
  {
    var x, y := a[|a| - 1], b[|b| - 1];
    LastTextsAgree(p, a, b);
    assert Text(p, x.prevHash, x.body) == Text(p, y.prevHash, y.body);
    PrevHash(p, a);
    PrevHash(p, b);
    TextTells(p, x.prevHash, x.body, y.prevHash, y.body);
  }

  lemma PrevHash(p: Platform, rows: seq<ChainedRecord>)
    requires FixedLength(p) && rows != [] && Linked(p, rows)
    ensures rows[|rows| - 1].prevHash == LastHash(rows[..|rows| - 1])
    ensures |rows[|rows| - 1].prevHash| == 64
  {
    PrefixLinks(p, rows, |rows| - 1);
    HashLength(p, rows[..|rows| - 1]);
    assert Links(p, rows, |rows| - 1);
  }

  lemma SameChainGrows(a: seq<ChainedRecord>, b: seq<ChainedRecord>)
    requires a != [] && b != []
    requires SameChain(a[..|a| - 1], b[..|b| - 1])
    requires a[|a| - 1].prevHash == b[|b| - 1].prevHash && a[|a| - 1].rowHash == b[|b| - 1].rowHash
    requires SameRecord(a[|a| - 1].body, b[|b| - 1].body)
    ensures SameChain(a, b)
  {
    forall i | 0 <= i < |a|
      ensures a[i].prevHash == b[i].prevHash && a[i].rowHash == b[i].rowHash && SameRecord(a[i].body, b[i].body)
    {
      if i < |a| - 1 {
        assert a[i] == a[..|a| - 1][i] && b[i] == b[..|b| - 1][i];
      }
    }
  }

  lemma LastRow(p: Platform, rows: seq<ChainedRecord>, texts: seq<string>, k: nat)
    requires Linked(p, rows) && rows != [] && k < |texts|
    requires texts[k] == Texts(p, rows)[|rows| - 1]
    requires NoCollision(p, texts)
    ensures LastHash(rows) != GENESIS
    ensures LastHash(rows) == p.sha256(texts[k])
    ensures rows[|rows| - 1].prevHash == LastHash(rows[..|rows| - 1])
  {
    assert Links(p, rows, |rows| - 1);
  }

  lemma FewerTexts(p: Platform, a: seq<ChainedRecord>, b: seq<ChainedRecord>)
    requires a != [] && b != []
    requires NoCollision(p, Texts(p, a) + Texts(p, b))
    ensures NoCollision(p, Texts(p, a[..|a| - 1]) + Texts(p, b[..|b| - 1]))
  {
    var all, fewer := Texts(p, a) + Texts(p, b), Texts(p, a[..|a| - 1]) + Texts(p, b[..|b| - 1]);
    forall i | 0 <= i < |fewer|
      ensures fewer[i] == all[if i < |a| - 1 then i else i + 1]
    {
    }
  }

  // ---------------------------------------------------------------- one list, many tenants

  /** `store.audit.filter((e) => e.tenantId === tenantId)`. */
  function OfTenant(events: seq<ChainedRecord>, tenantId: string): seq<ChainedRecord> {
    if events == [] then []
    else
      var last := events[|events| - 1];
      OfTenant(events[..|events| - 1], tenantId) + (if last.body.tenantId == tenantId then [last] else [])
  }

  /** The row hash of the tenant's latest event, looked for from the end; the genesis hash when there is none. */
  function Tip(events: seq<ChainedRecord>, tenantId: string): string {
    if events == [] then GENESIS
    else if events[|events| - 1].body.tenantId == tenantId then events[|events| - 1].rowHash
    else Tip(events[..|events| - 1], tenantId)
  }

  lemma {:induction false} TipIsLastOfTenant(events: seq<ChainedRecord>, tenantId: string)
    ensures Tip(events, tenantId) == LastHash(OfTenant(events, tenantId))
  {
    if events != [] {
      TipIsLastOfTenant(events[..|events| - 1], tenantId);
    }
  }

  /** Cutting the shared list shortens each tenant's list from its end. */
  lemma {:induction false} OfTenantPrefix(events: seq<ChainedRecord>, n: nat, tenantId: string)
    requires n <= |events|
    ensures OfTenant(events[..n], tenantId) <= OfTenant(events, tenantId)
  {
    if n < |events| {
      OfTenantPrefix(events[..|events| - 1], n, tenantId);
      assert events[..|events| - 1][..n] == events[..n];
    } else {
      assert events[..n] == events;
    }
  }

  ghost predicate EveryTenantLinked(p: Platform, events: seq<ChainedRecord>) {
    forall t :: Linked(p, OfTenant(events, t))
  }

  lemma TruncateKeepsLinked(p: Platform, events: seq<ChainedRecord>, n: nat)
    requires n <= |events| && EveryTenantLinked(p, events)
    ensures EveryTenantLinked(p, events[..n])
  {
    forall t
      ensures Linked(p, OfTenant(events[..n], t))
    {
      var all, some := OfTenant(events, t), OfTenant(events[..n], t);
      OfTenantPrefix(events, n, t);
      assert Linked(p, all);
      PrefixLinks(p, all, |some|);
      assert all[..|some|] == some;
    }
  }

  /** `recordAudit`: chain onto the latest event of the record's tenant and append to the shared list. */
  function Recorded(p: Platform, events: seq<ChainedRecord>, record: AuditRecord): seq<ChainedRecord> {
    events + [ChainAudit(p, record, Tip(events, record.tenantId))]
  }

  lemma RecordKeepsLinked(p: Platform, events: seq<ChainedRecord>, record: AuditRecord)
    requires EveryTenantLinked(p, events)
    ensures EveryTenantLinked(p, Recorded(p, events, record))
  {
    var more := Recorded(p, events, record);
    assert more[..|more| - 1] == events;
    forall t
      ensures Linked(p, OfTenant(more, t))
    {
      assert Linked(p, OfTenant(events, t));
      if t == record.tenantId {
        TipIsLastOfTenant(events, t);
        AppendLinks(p, OfTenant(events, t), record);
      } else {
        assert OfTenant(more, t) == OfTenant(events, t);
      }
    }
  }

  /** What happens to the shared list: an event is recorded, or a failed commit cuts it back. */
  datatype AuditStep = Record(record: AuditRecord) | CutBack(length: nat)

  function RunAudit(p: Platform, steps: seq<AuditStep>): seq<ChainedRecord> {
    if steps == [] then []
    else
      var events := RunAudit(p, steps[..|steps| - 1]);
      match steps[|steps| - 1]
      case Record(r) => Recorded(p, events, r)
      case CutBack(n) => if n <= |events| then events[..n] else events
  }

  /** Whatever the interleaving of tenants and failed commits, every tenant's own list verifies. */
  lemma {:induction false} EveryRunVerifies(p: Platform, steps: seq<AuditStep>)
    ensures EveryTenantLinked(p, RunAudit(p, steps))
  {
    if steps == [] {
      forall t
        ensures Linked(p, OfTenant([], t))
      {
      }
    } else {
      var events := RunAudit(p, steps[..|steps| - 1]);
      EveryRunVerifies(p, steps[..|steps| - 1]);
      match steps[|steps| - 1]
      case Record(r) => RecordKeepsLinked(p, events, r);
      case CutBack(n) =>
        if n <= |events| {
          TruncateKeepsLinked(p, events, n);
        }
    }
  }

  /** The store's audit list. */
  class AuditLog {
    const platform: Platform
    var events: seq<ChainedRecord>

    ghost predicate Valid()
      reads this
    {
      EveryTenantLinked(platform, events)
    }

    constructor (platform: Platform)
      ensures Valid() && this.platform == platform && events == []
    {
      this.platform := platform;
      events := [];
    }

    method RecordAudit(record: AuditRecord) returns (chained: ChainedRecord)
      modifies this
      ensures chained == ChainAudit(platform, record, Tip(old(events), record.tenantId))
      ensures events == old(events) + [chained]
      ensures old(Valid()) ==> Valid()
    {
      if Valid() {
        RecordKeepsLinked(platform, events, record);
      }
      chained := ChainAudit(platform, record, Tip(events, record.tenantId));
      events := events + [chained];
    }

    /** `store.audit.length = auditLen` when a commit fails. */
    method CutBackTo(length: nat)
      requires length <= |events|
      modifies this
      ensures events == old(events)[..length]
      ensures old(Valid()) ==> Valid()
    {
      if Valid() {
        TruncateKeepsLinked(platform, events, length);
      }
      events := events[..length];
    }

    /** `verifyChain`, on whatever the log holds: a log that only these operations have changed verifies. */
    method VerifyChain(tenantId: string) returns (ok: bool)
      ensures ok <==> Linked(platform, OfTenant(events, tenantId))
      ensures Valid() ==> ok
    {
      var at;
      ok, at := VerifyAuditChain(platform, OfTenant(events, tenantId));
    }
  }
}
