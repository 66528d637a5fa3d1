/**
 * The transactional outbox of apps/api/src/outbox.ts over the in-memory transport of
 * packages/kernel/src/event-transport.ts: what each operation does to the store.
 */
module Outbox {
  import opened Options

  /** `newId()`: an identifier never handed out before. */
  type Id = nat

  datatype Envelope = Envelope(eventId: Id, eventType: string, tenantId: string, aggregateId: Option<string>)

  datatype Status = Pending | Published | DeadLettered

  /** `orderingKey` is the key under which `assignSequence` numbered the row; the program keeps the number alone. */
  datatype Row = Row(
    id: Id,
    envelope: Envelope,
    attempts: nat,
    status: Status,
    lastError: Option<string>,
    orderingKey: Option<string>,
    sequence: Option<nat>
  )

  /** The two shapes of dead letter identifier: `<row>-dlq` and `<event>-<consumer>-dlq`. */
  datatype DeadLetterId = OfRow(row: Id) | OfDelivery(eventId: Id, consumer: string)

  datatype DeadLetterStatus = Failed | ReplayApproved

  datatype DeadLetter = DeadLetter(
    id: DeadLetterId,
    outboxId: Id,
    tenantId: string,
    eventId: Id,
    consumer: string,
    failureReason: string,
    attempts: nat,
    status: DeadLetterStatus,
    replayed: bool,
    remediation: Option<string>
  )

  datatype ProcessedKey = ProcessedKey(tenantId: string, consumer: string, eventId: Id)

  datatype Intent = Reconstruction | Reexecute

  datatype RequestStatus = AwaitingApproval | Approved | Executed | Rejected

  datatype ReplayRequest = ReplayRequest(
    id: Id,
    tenantId: string,
    reason: string,
    intent: Intent,
    deadLetterIds: seq<DeadLetterId>,
    status: RequestStatus
  )

  datatype Metrics = Metrics(
    eventsCommitted: nat,
    eventsPublished: nat,
    publisherFailures: nat,
    consumerFailures: nat,
    retries: nat,
    dlqCount: nat,
    replays: nat
  )

  /** The containers a commit may write, and the fields of the objects they hold. */
  datatype Domain = Domain(instances: seq<Id>, tasks: seq<Id>, payments: map<Id, Id>, fields: map<Id, string>)

  datatype State = State(
    rows: seq<Row>,
    deadLetters: seq<DeadLetter>,
    processed: seq<ProcessedKey>,
    bus: seq<Envelope>,
    sent: set<Id>, // the event ids the transport remembers
    requests: seq<ReplayRequest>,
    sequences: map<string, nat>,
    nextId: Id,
    metrics: Metrics,
    domain: Domain
  )

  const PUBLISHER := "outbox-publisher"

  const EMPTY := State([], [], [], [], {}, [], map[], 0, Metrics(0, 0, 0, 0, 0, 0, 0), Domain([], [], map[], map[]))

  // ---------------------------------------------------------------- commit

  datatype Ordering = ByAggregate | ByTenant | Unordered

  datatype CommitInput = CommitInput(
    eventType: string,
    tenantId: string,
    aggregateId: Option<string>,
    ordering: Ordering,   // the catalogue entry's ordering key
    permitted: bool,      // live mode, producer authorised, envelope schema valid
    written: Domain,      // the domain as `mutate` leaves it
    fails: bool           // `mutate` throws, or the outbox write does
  )

  function OrderingKey(input: CommitInput): Option<string> {
    match input.ordering
    case Unordered => None
    case ByAggregate => Some(input.tenantId + ":" + (if input.aggregateId.Some? then input.aggregateId.value else "none"))
    case ByTenant => Some(input.tenantId)
  }

  function LastSequence(sequences: map<string, nat>, key: string): nat {
    if key in sequences then sequences[key] else 0
  }

  /** `restoreDomain`: the containers go back, the objects they hold keep what was written to them. */
  function RestoreDomain(written: Domain, snapshot: Domain): Domain {
    written.(instances := snapshot.instances, tasks := snapshot.tasks, payments := snapshot.payments)
  }

  function NewRow(s: State, input: CommitInput): Row {
    var key := OrderingKey(input);
    Row(s.nextId + 1, Envelope(s.nextId, input.eventType, input.tenantId, input.aggregateId), 0, Pending, None,
        key, if key.Some? then Some(LastSequence(s.sequences, key.value) + 1) else None)
  }

  /** `commitWithOutbox` as one step. The sequence number is taken before the snapshot and never given back. */
  function Commit(s: State, input: CommitInput): State {
    if !input.permitted then s
    else
      var row := NewRow(s, input);
      var numbered := s.(
        nextId := s.nextId + 2,
        sequences := if row.orderingKey.Some? then s.sequences[row.orderingKey.value := row.sequence.value] else s.sequences
      );
      if input.fails then numbered.(domain := RestoreDomain(input.written, s.domain))
      else
        numbered.(
          domain := input.written,
          rows := s.rows + [row],
          metrics := s.metrics.(eventsCommitted := s.metrics.eventsCommitted + 1)
        )
  }

  // ---------------------------------------------------------------- publish

  datatype FailurePoint =
    BeforeRead | AfterRead | BeforePublish | AfterPublishBeforeMark | DuringRetry | DuringShutdown

  datatype Injection = Injection(point: FailurePoint, eventId: Option<Id>)

  datatype PublishOptions = PublishOptions(
    maxAttempts: int,
    failEventIds: set<Id>,
    throwing: set<Id>,            // the events whose publish call throws
    injection: Option<Injection>,
    allowDuplicates: bool
  )

  datatype PublishResult = PublishResult(published: nat, deadLettered: nat, remaining: nat, crashed: Option<FailurePoint>)

  predicate InjectedAt(o: PublishOptions, point: FailurePoint) {
    o.injection.Some? && o.injection.value.point == point
  }

  predicate InjectedFor(o: PublishOptions, point: FailurePoint, eventId: Id) {
    InjectedAt(o, point) && o.injection.value.eventId == Some(eventId)
  }

  /** How one row fared in a pass. */
  datatype Outcome = Sent | Dead | Left | Crashed(point: FailurePoint)

  function PublisherFailed(s: State): State {
    s.(metrics := s.metrics.(publisherFailures := s.metrics.publisherFailures + 1))
  }

  /** The first dead letter of a row for a consumer; the length of the list when there is none. */
  function FindDeadLetter(ds: seq<DeadLetter>, outboxId: Id, consumer: string): (k: nat)
    ensures k <= |ds|
    ensures k < |ds| ==> ds[k].outboxId == outboxId && ds[k].consumer == consumer
    ensures forall j :: 0 <= j < k ==> !(ds[j].outboxId == outboxId && ds[j].consumer == consumer)
  {
    if ds == [] || (ds[0].outboxId == outboxId && ds[0].consumer == consumer) then 0
    else
      var k := FindDeadLetter(ds[1..], outboxId, consumer);
      assert forall j :: 0 < j < k + 1 ==> ds[j] == ds[1..][j - 1];
      k + 1
  }

  function ErrorText(o: Option<string>): string {
    if o.Some? then o.value else "unknown"
  }

  /** `moveToDlq`: a second failure of a row refreshes its dead letter instead of adding one. */
  function MoveToDlq(s: State, i: nat): State
    requires i < |s.rows|
  {
    var row := s.rows[i];
    var reason := ErrorText(row.lastError);
    var k := FindDeadLetter(s.deadLetters, row.id, PUBLISHER);
    var moved := s.(rows := s.rows[i := row.(status := DeadLettered)]);
    if k < |s.deadLetters| then
      moved.(deadLetters := s.deadLetters[k :=
        s.deadLetters[k].(attempts := row.attempts, failureReason := reason, status := Failed)])
    else
      moved.(
        deadLetters := s.deadLetters + [DeadLetter(OfRow(row.id), row.id, row.envelope.tenantId, row.envelope.eventId,
                                                   PUBLISHER, reason, row.attempts, Failed, false, None)],
        metrics := s.metrics.(dlqCount := s.metrics.dlqCount + 1)
      )
  }

  /** The in-memory transport's `publish`: an event already sent is dropped unless duplicates are allowed. */
  function Send(s: State, e: Envelope, allowDuplicates: bool): State {
    if !allowDuplicates && e.eventId in s.sent then s
    else s.(bus := s.bus + [e], sent := s.sent + {e.eventId})
  }

  function WithError(s: State, i: nat, error: string): State
    requires i < |s.rows|
  {
    s.(rows := s.rows[i := s.rows[i].(lastError := Some(error))])
  }

  /** A failed attempt: the row goes to the dead letters once its attempts are used up. */
  function FailAttempt(s: State, i: nat, o: PublishOptions, error: string): (State, Outcome)
    requires i < |s.rows|
  {
    var failed := PublisherFailed(WithError(s, i, error));
    if s.rows[i].attempts >= o.maxAttempts then (MoveToDlq(failed, i), Dead) else (failed, Left)
  }

  function CountAttempt(s: State, i: nat): State
    requires i < |s.rows|
  {
    var row := s.rows[i].(attempts := s.rows[i].attempts + 1);
    s.(
      rows := s.rows[i := row],
      metrics := if row.attempts > 1 then s.metrics.(retries := s.metrics.retries + 1) else s.metrics
    )
  }

  function MarkPublished(s: State, i: nat): State
    requires i < |s.rows|
  {
    s.(
      rows := s.rows[i := s.rows[i].(status := Published)],
      metrics := s.metrics.(eventsPublished := s.metrics.eventsPublished + 1)
    )
  }

  /** The body of the publisher's loop for the row at position i. */
  function Attempt(s: State, i: nat, o: PublishOptions): (State, Outcome)
    requires i < |s.rows|
  {
    if InjectedAt(o, DuringShutdown) then (PublisherFailed(s), Crashed(DuringShutdown))
    else
      var t := CountAttempt(s, i);
      var e := t.rows[i].envelope;
      if InjectedFor(o, DuringRetry, e.eventId) && t.rows[i].attempts > 1 then
        (PublisherFailed(WithError(t, i, "publisher_crash_during_retry")), Crashed(DuringRetry))
      else if e.eventId in o.failEventIds || InjectedFor(o, BeforePublish, e.eventId) then
        FailAttempt(t, i, o, "publisher_transport_failure")
      else if e.eventId in o.throwing then
        FailAttempt(t, i, o, "publisher_failed")
      else
        var u := Send(t, e, o.allowDuplicates);
        if InjectedFor(o, AfterPublishBeforeMark, e.eventId) then
          (PublisherFailed(WithError(u, i, "publisher_crash_after_publish_before_mark")), Crashed(AfterPublishBeforeMark))
        else
          (MarkPublished(u, i), Sent)
  }

  function PendingCount(rows: seq<Row>): nat {
    if rows == [] then 0
    else PendingCount(rows[..|rows| - 1]) + (if rows[|rows| - 1].status.Pending? then 1 else 0)
  }

  /** The positions of the pending rows, in order. */
  function PendingRows(rows: seq<Row>): (ps: seq<nat>)
    ensures forall k :: 0 <= k < |ps| ==> ps[k] < |rows| && rows[ps[k]].status.Pending?
    ensures forall j, k :: 0 <= j < k < |ps| ==> ps[j] < ps[k]
    ensures forall i :: 0 <= i < |rows| && rows[i].status.Pending? ==> i in ps
    ensures |ps| == PendingCount(rows)
  {
    if rows == [] then []
    else
      var n := |rows| - 1;
      var ps := PendingRows(rows[..n]);
      if rows[n].status.Pending? then
        assert (ps + [n])[|ps|] == n;
        ps + [n]
      else ps
  }

  predicate InRange(s: State, ps: seq<nat>) {
    forall k :: 0 <= k < |ps| ==> ps[k] < |s.rows|
  }

  lemma AttemptLength(s: State, i: nat, o: PublishOptions)
    requires i < |s.rows|
    ensures |Attempt(s, i, o).0.rows| == |s.rows|
  {
  }

  /** The publisher's loop over the rows it read, from the k-th on. */
  function PublishRows(s: State, ps: seq<nat>, o: PublishOptions, published: nat, dead: nat): (State, PublishResult)
    requires InRange(s, ps)
    decreases |ps|
  {
    if ps == [] then (s, PublishResult(published, dead, PendingCount(s.rows), None))
    else
      AttemptLength(s, ps[0], o);
      var (t, outcome) := Attempt(s, ps[0], o);
      match outcome
      case Crashed(point) => (t, PublishResult(published, dead, PendingCount(t.rows), Some(point)))
      case Sent => PublishRows(t, ps[1..], o, published + 1, dead)
      case Dead => PublishRows(t, ps[1..], o, published, dead + 1)
      case Left => PublishRows(t, ps[1..], o, published, dead)
  }

  /** `publishPendingOutbox`. */
  function PublishPass(s: State, o: PublishOptions): (State, PublishResult) {
    if InjectedAt(o, BeforeRead) then
      (PublisherFailed(s), PublishResult(0, 0, PendingCount(s.rows), Some(BeforeRead)))
    else
      var ps := PendingRows(s.rows);
      if InjectedAt(o, AfterRead) then
        (PublisherFailed(s), PublishResult(0, 0, |ps|, Some(AfterRead)))
      else PublishRows(s, ps, o, 0, 0)
  }

  // ---------------------------------------------------------------- consume

  datatype DeliveryInput = DeliveryInput(
    event: Envelope,
    tenantId: string,   // the consuming principal's
    consumer: string,
    permitted: bool,    // consumer authorised and envelope schema valid
    force: bool,
    handlerThrows: bool
  )

  datatype DeliveryOutcome = Refused | AlreadyProcessed | HandlerFailed | Processed

  /** The position of a key among the processed ones; the length of the list when it is not there. */
  function FindKey(ks: seq<ProcessedKey>, key: ProcessedKey): (n: nat)
    ensures n <= |ks|
    ensures n < |ks| ==> ks[n] == key
    ensures forall j :: 0 <= j < n ==> ks[j] != key
  {
    if ks == [] || ks[0] == key then 0
    else
      var n := FindKey(ks[1..], key);
      assert forall j :: 0 < j < n + 1 ==> ks[j] == ks[1..][j - 1];
      n + 1
  }

  function KeyOf(d: DeliveryInput): ProcessedKey {
    ProcessedKey(d.tenantId, d.consumer, d.event.eventId)
  }

  function HandlerDeadLetter(d: DeliveryInput): DeadLetter {
    DeadLetter(OfDelivery(d.event.eventId, d.consumer), d.event.eventId, d.event.tenantId, d.event.eventId,
               d.consumer, "handler_failed", 1, Failed, false, None)
  }

  /** `consumeEventIdempotent`. A forced redelivery forgets the key before it runs the handler. */
  function Consume(s: State, d: DeliveryInput): (State, DeliveryOutcome) {
    if d.event.tenantId != d.tenantId || !d.permitted then (s, Refused)
    else
      var key := KeyOf(d);
      var n := FindKey(s.processed, key);
      if n < |s.processed| && !d.force then (s, AlreadyProcessed)
      else
        var kept := if n < |s.processed| then s.processed[..n] + s.processed[n + 1..] else s.processed;
        if d.handlerThrows then
          (s.(
            processed := kept,
            deadLetters := s.deadLetters + [HandlerDeadLetter(d)],
            metrics := s.metrics.(consumerFailures := s.metrics.consumerFailures + 1, dlqCount := s.metrics.dlqCount + 1)
          ), HandlerFailed)
        else (s.(processed := kept + [key]), Processed)
  }

  // ---------------------------------------------------------------- replay

  datatype ReplayInput = ReplayInput(
    tenantId: string,
    reason: string,
    blankReason: bool,   // nothing but white space
    intent: Intent,
    deadLetterIds: seq<DeadLetterId>,
    permitted: bool
  )

  /** The first dead letter with an id in a tenant; the length of the list when there is none. */
  function FindDeadLetterId(ds: seq<DeadLetter>, id: DeadLetterId, tenantId: string): (k: nat)
    ensures k <= |ds|
    ensures k < |ds| ==> ds[k].id == id && ds[k].tenantId == tenantId
  {
    if ds == [] || (ds[0].id == id && ds[0].tenantId == tenantId) then 0
    else FindDeadLetterId(ds[1..], id, tenantId) + 1
  }

  predicate AllFound(ds: seq<DeadLetter>, ids: seq<DeadLetterId>, tenantId: string) {
    forall i :: 0 <= i < |ids| ==> FindDeadLetterId(ds, ids[i], tenantId) < |ds|
  }

  /** `requestReplay`: a reconstruction needs no permission and starts approved. */
  function RequestReplay(s: State, r: ReplayInput): (State, Option<Id>) {
    if (r.intent.Reexecute? && !r.permitted) || r.blankReason || !AllFound(s.deadLetters, r.deadLetterIds, r.tenantId)
    then (s, None)
    else
      var request := ReplayRequest(s.nextId, r.tenantId, r.reason, r.intent, r.deadLetterIds,
                                   if r.intent.Reconstruction? then Approved else AwaitingApproval);
      (s.(requests := s.requests + [request], nextId := s.nextId + 1), Some(request.id))
  }

  function FindRequest(rs: seq<ReplayRequest>, id: Id, tenantId: string): (k: nat)
    ensures k <= |rs|
    ensures k < |rs| ==> rs[k].id == id && rs[k].tenantId == tenantId
    ensures forall j :: 0 <= j < k ==> !(rs[j].id == id && rs[j].tenantId == tenantId)
  {
    if rs == [] || (rs[0].id == id && rs[0].tenantId == tenantId) then 0
    else
      var k := FindRequest(rs[1..], id, tenantId);
      assert forall j :: 0 < j < k + 1 ==> rs[j] == rs[1..][j - 1];
      k + 1
  }

  function FindRow(rows: seq<Row>, id: Id): (k: nat)
    ensures k <= |rows|
    ensures k < |rows| ==> rows[k].id == id
    ensures forall j :: 0 <= j < k ==> rows[j].id != id
  {
    if rows == [] || rows[0].id == id then 0
    else
      var k := FindRow(rows[1..], id);
      assert forall j :: 0 < j < k + 1 ==> rows[j] == rows[1..][j - 1];
      k + 1
  }

  /** One dead letter of a replay: its row, whatever state it is in, becomes pending again with no attempts. */
  function ReplayOne(s: State, id: DeadLetterId, tenantId: string, reason: string): (State, bool) {
    var k := FindDeadLetterId(s.deadLetters, id, tenantId);
    if k == |s.deadLetters| then (s, false)
    else
      var i := FindRow(s.rows, s.deadLetters[k].outboxId);
      if i == |s.rows| then (s, false)
      else
        (s.(
          rows := s.rows[i := s.rows[i].(status := Pending, attempts := 0, lastError := None)],
          deadLetters := s.deadLetters[k :=
            s.deadLetters[k].(status := ReplayApproved, replayed := true, remediation := Some(reason))]
        ), true)
  }

  function ReplayAll(s: State, ids: seq<DeadLetterId>, tenantId: string, reason: string, replayed: nat): (State, nat)
    decreases |ids|
  {
    if ids == [] then (s, replayed)
    else
      var (t, found) := ReplayOne(s, ids[0], tenantId, reason);
      ReplayAll(t, ids[1..], tenantId, reason, if found then replayed + 1 else replayed)
  }

  /** `executeReplayRequest`; the result says how many dead letters were replayed. */
  function ExecuteReplay(s: State, tenantId: string, requestId: Id, permitted: bool): (State, Option<nat>) {
    var k := FindRequest(s.requests, requestId, tenantId);
    if !permitted || k == |s.requests| || s.requests[k].status.Executed?
      || (s.requests[k].intent.Reexecute? && s.requests[k].status.Rejected?)
    then (s, None)
    else
      var request := s.requests[k];
      var (t, n) := ReplayAll(s, request.deadLetterIds, tenantId, request.reason, 0);
      (t.(
        requests := s.requests[k := request.(status := Executed)],
        metrics := t.metrics.(replays := t.metrics.replays + n)
      ), Some(n))
  }

  // ---------------------------------------------------------------- reading published events in order

  function SequenceOf(row: Row): nat {
    if row.sequence.Some? then row.sequence.value else 0
  }

  function InsertBySequence(row: Row, rows: seq<Row>): seq<Row> {
    if rows == [] || SequenceOf(row) <= SequenceOf(rows[0]) then [row] + rows
    else [rows[0]] + InsertBySequence(row, rows[1..])
  }

  /** A stable sort by sequence number; a row without one counts as 0. */
  function SortBySequence(rows: seq<Row>): seq<Row> {
    if rows == [] then [] else InsertBySequence(rows[0], SortBySequence(rows[1..]))
  }

  /** An aggregate's published rows in commit order. */
  function PublishedOf(rows: seq<Row>, tenantId: string, aggregateId: string): seq<Row> {
    if rows == [] then []
    else
      (if rows[0].status.Published? && rows[0].envelope.tenantId == tenantId && rows[0].envelope.aggregateId == Some(aggregateId)
       then [rows[0]] else [])
      + PublishedOf(rows[1..], tenantId, aggregateId)
  }

  function Envelopes(rows: seq<Row>): seq<Envelope> {
    seq(|rows|, i requires 0 <= i < |rows| => rows[i].envelope)
  }

  /** `getOrderedPublishedEvents`. */
  function OrderedPublished(rows: seq<Row>, tenantId: string, aggregateId: string): seq<Envelope> {
    Envelopes(SortBySequence(PublishedOf(rows, tenantId, aggregateId)))
  }
}
