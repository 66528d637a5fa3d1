/** What every run of the outbox keeps. */
module OutboxRuns {
  import opened Outbox

  /** One operation on the store. `Restart` puts a new transport, with an empty memory, on the same bus. */
  datatype Step =
    | CommitStep(commit: CommitInput)
    | PublishStep(options: PublishOptions)
    | DeliverStep(row: nat, tenantId: string, consumer: string, permitted: bool, force: bool, handlerThrows: bool)
    | RequestStep(request: ReplayInput)
    | ExecuteStep(requestTenant: string, requestId: Id, mayExecute: bool)
    | RestartStep

  /** What a delivery did: whether it was let in by force, forgot an earlier key, and ran its handler to the end. */
  datatype Delivery = Delivery(key: ProcessedKey, forced: bool, forgot: bool, completed: bool)

  /** A run: the state it reaches, the deliveries it made and the replay requests it carried out. */
  datatype Trace = Trace(state: State, deliveries: seq<Delivery>, executed: seq<Id>)

  function DeliveryOf(s: State, step: Step): DeliveryInput
    requires step.DeliverStep? && step.row < |s.rows|
  {
    DeliveryInput(s.rows[step.row].envelope, step.tenantId, step.consumer, step.permitted, step.force, step.handlerThrows)
  }

  function Log(s: State, d: DeliveryInput): Delivery {
    var outcome := Consume(s, d).1;
    Delivery(KeyOf(d), !outcome.Refused? && d.force,
             !outcome.Refused? && d.force && FindKey(s.processed, KeyOf(d)) < |s.processed|,
             outcome.Processed?)
  }

  function Apply(t: Trace, step: Step): Trace {
    var s := t.state;
    match step
    case CommitStep(c) => t.(state := Commit(s, c))
    case PublishStep(o) => t.(state := PublishPass(s, o).0)
    case DeliverStep(row, _, _, _, _, _) =>
      if row < |s.rows| then
        var d := DeliveryOf(s, step);
        t.(state := Consume(s, d).0, deliveries := t.deliveries + [Log(s, d)])
      else t
    case RequestStep(r) => t.(state := RequestReplay(s, r).0)
    case ExecuteStep(tenant, id, may) =>
      var (u, n) := ExecuteReplay(s, tenant, id, may);
      t.(state := u, executed := if n.Some? then t.executed + [id] else t.executed)
    case RestartStep => t.(state := s.(sent := {}))
  }

  function Run(steps: seq<Step>): Trace {
    if steps == [] then Trace(EMPTY, [], []) else Apply(Run(steps[..|steps| - 1]), steps[|steps| - 1])
  }

  // ---------------------------------------------------------------- what one attempt changes

  /** Rows keep their identity and order; only their delivery state may change. */
  predicate SameIdentity(rows: seq<Row>, rows': seq<Row>) {
    && |rows| == |rows'|
    && forall i :: 0 <= i < |rows| ==>
      && rows'[i].id == rows[i].id
      && rows'[i].envelope == rows[i].envelope
      && rows'[i].orderingKey == rows[i].orderingKey
      && rows'[i].sequence == rows[i].sequence
  }

  predicate OthersUnchanged(rows: seq<Row>, rows': seq<Row>, i: nat) {
    |rows| == |rows'| && forall j :: 0 <= j < |rows| && j != i ==> rows'[j] == rows[j]
  }

  /** Everything but rows, dead letters, the transport and the publisher's counters. */
  predicate SameElsewhere(s: State, t: State) {
    && t.processed == s.processed
    && t.requests == s.requests
    && t.sequences == s.sequences
    && t.nextId == s.nextId
    && t.domain == s.domain
    && t.metrics.eventsCommitted == s.metrics.eventsCommitted
    && t.metrics.replays == s.metrics.replays
  }

  predicate Frame(s: State, t: State, i: nat) {
    SameIdentity(s.rows, t.rows) && OthersUnchanged(s.rows, t.rows, i) && SameElsewhere(s, t)
  }

  lemma FrameTrans(s: State, t: State, u: State, i: nat)
    requires Frame(s, t, i) && Frame(t, u, i)
    ensures Frame(s, u, i)
  {
  }

  lemma FailFrame(s: State, i: nat, o: PublishOptions, error: string)
    requires i < |s.rows|
    ensures Frame(s, FailAttempt(s, i, o, error).0, i)
  {
    var failed := PublisherFailed(WithError(s, i, error));
    assert Frame(s, failed, i);
    assert Frame(failed, MoveToDlq(failed, i), i);
  }

  /** An attempt touches one row, and of that row only its delivery state. */
  lemma AttemptFrame(s: State, i: nat, o: PublishOptions)
    requires i < |s.rows|
    ensures Frame(s, Attempt(s, i, o).0, i)
  {
    var t := CountAttempt(s, i);
    var e := t.rows[i].envelope;
    assert Frame(s, t, i);
    var u := Send(t, e, o.allowDuplicates);
    assert Frame(t, u, i);
    assert Frame(u, MarkPublished(u, i), i);
    FrameTrans(s, t, u, i);
    FailFrame(t, i, o, "publisher_transport_failure");
    FailFrame(t, i, o, "publisher_failed");
    AttemptCases(s, i, o);
    var end := Attempt(s, i, o).0;
    if end != PublisherFailed(s) {
      if end == MarkPublished(u, i) {
        FrameTrans(s, u, end, i);
      } else {
        assert Frame(t, end, i);
        FrameTrans(s, t, end, i);
      }
    }
  }

  /** The states an attempt can end in. */
  lemma AttemptCases(s: State, i: nat, o: PublishOptions)
    requires i < |s.rows|
    ensures var t := CountAttempt(s, i);
            var u := Send(t, t.rows[i].envelope, o.allowDuplicates);
            Attempt(s, i, o).0 in [
              PublisherFailed(s),
              PublisherFailed(WithError(t, i, "publisher_crash_during_retry")),
              FailAttempt(t, i, o, "publisher_transport_failure").0,
              FailAttempt(t, i, o, "publisher_failed").0,
              PublisherFailed(WithError(u, i, "publisher_crash_after_publish_before_mark")),
              MarkPublished(u, i) ]
  {
  }

  /** How an attempt leaves a row that was pending. */
  lemma AttemptStatus(s: State, i: nat, o: PublishOptions)
    requires i < |s.rows| && s.rows[i].status.Pending?
    ensures var (t, outcome) := Attempt(s, i, o);
            match outcome
            case Sent => t.rows[i].status.Published?
            case Dead => t.rows[i].status.DeadLettered?
            case Left => t.rows[i].status.Pending? && t.rows[i].attempts == s.rows[i].attempts + 1 && t.rows[i].attempts < o.maxAttempts
            case Crashed(_) => t.rows[i].status.Pending?
  {
  }

  // ---------------------------------------------------------------- conservation

  lemma {:induction false} CountUpdate(rows: seq<Row>, i: nat, row: Row)
    requires i < |rows|
    ensures PendingCount(rows[i := row]) + (if rows[i].status.Pending? then 1 else 0)
         == PendingCount(rows) + (if row.status.Pending? then 1 else 0)
  {
    var n := |rows| - 1;
    if i == n {
      assert rows[i := row][..n] == rows[..n];
    } else {
      CountUpdate(rows[..n], i, row);
      assert rows[i := row][..n] == rows[..n][i := row];
    }
  }

  /** One attempt takes a pending row out of the count exactly when it was sent or dead-lettered. */
  lemma AttemptCount(s: State, i: nat, o: PublishOptions)
    requires i < |s.rows| && s.rows[i].status.Pending?
    ensures var (t, outcome) := Attempt(s, i, o);
            PendingCount(t.rows) + (if outcome.Sent? || outcome.Dead? then 1 else 0) == PendingCount(s.rows)
  {
    var t := Attempt(s, i, o).0;
    AttemptFrame(s, i, o);
    AttemptStatus(s, i, o);
    assert t.rows == s.rows[i := t.rows[i]];
    CountUpdate(s.rows, i, t.rows[i]);
  }

  /** The positions read by a pass: increasing, and pending until their turn comes. */
  predicate StillPending(s: State, ps: seq<nat>) {
    && (forall k :: 0 <= k < |ps| ==> ps[k] < |s.rows| && s.rows[ps[k]].status.Pending?)
    && (forall j, k :: 0 <= j < k < |ps| ==> ps[j] < ps[k])
  }

  lemma AttemptKeepsRest(s: State, ps: seq<nat>, o: PublishOptions)
    requires ps != [] && StillPending(s, ps)
    ensures StillPending(Attempt(s, ps[0], o).0, ps[1..])
  {
    AttemptFrame(s, ps[0], o);
  }

  lemma {:induction false} RowsConserved(s: State, ps: seq<nat>, o: PublishOptions, published: nat, dead: nat)
    requires StillPending(s, ps)
    ensures var (t, r) := PublishRows(s, ps, o, published, dead);
            && PendingCount(s.rows) + published + dead == r.published + r.deadLettered + r.remaining
            && r.remaining == PendingCount(t.rows)
    decreases |ps|
  {
    if ps != [] {
      var (t, outcome) := Attempt(s, ps[0], o);
      AttemptLength(s, ps[0], o);
      AttemptCount(s, ps[0], o);
      AttemptKeepsRest(s, ps, o);
      match outcome
      case Crashed(_) =>
      case Sent => RowsConserved(t, ps[1..], o, published + 1, dead);
      case Dead => RowsConserved(t, ps[1..], o, published, dead + 1);
      case Left => RowsConserved(t, ps[1..], o, published, dead);
    }
  }

  /** A pass loses no row: at every crash point, what was pending is published, dead-lettered or still pending. */
  lemma PassConservesRows(s: State, o: PublishOptions)
    ensures var (t, r) := PublishPass(s, o);
            && PendingCount(s.rows) == r.published + r.deadLettered + r.remaining
            && r.remaining == PendingCount(t.rows)
  {
    RowsConserved(s, PendingRows(s.rows), o, 0, 0);
  }

  // ---------------------------------------------------------------- draining

  /** How a crash-free pass leaves a row: out of the queue, or tried once more and not yet given up. */
  predicate Advanced(before: Row, after: Row, maxAttempts: int) {
    after.status.Pending? ==> after.attempts == before.attempts + 1 && after.attempts < maxAttempts
  }

  lemma {:induction false} RowsAdvance(s: State, ps: seq<nat>, o: PublishOptions, published: nat, dead: nat)
    requires StillPending(s, ps)
    requires PublishRows(s, ps, o, published, dead).1.crashed.None?
    ensures var t := PublishRows(s, ps, o, published, dead).0;
            && |t.rows| == |s.rows|
            && (forall i :: 0 <= i < |s.rows| && i !in ps ==> t.rows[i] == s.rows[i])
            && (forall i :: 0 <= i < |s.rows| && i in ps ==> Advanced(s.rows[i], t.rows[i], o.maxAttempts))
    decreases |ps|
  {
    if ps != [] {
      var i := ps[0];
      var (u, outcome) := Attempt(s, i, o);
      AttemptFrame(s, i, o);
      AttemptStatus(s, i, o);
      AttemptKeepsRest(s, ps, o);
      assert i !in ps[1..];
      assert forall j :: j in ps <==> j == i || j in ps[1..];
      match outcome
      case Crashed(_) =>
      case Sent => RowsAdvance(u, ps[1..], o, published + 1, dead);
      case Dead => RowsAdvance(u, ps[1..], o, published, dead + 1);
      case Left => RowsAdvance(u, ps[1..], o, published, dead);
    }
  }

  /** Passes in a row, with no commit or replay between them. */
  function RunPasses(s: State, passes: seq<PublishOptions>): State {
    if passes == [] then s else PublishPass(RunPasses(s, passes[..|passes| - 1]), passes[|passes| - 1]).0
  }

  predicate CrashFree(s: State, passes: seq<PublishOptions>) {
    forall k :: 0 <= k < |passes| ==> PublishPass(RunPasses(s, passes[..k]), passes[k]).1.crashed.None?
  }

  lemma PassAdvances(s: State, o: PublishOptions)
    requires PublishPass(s, o).1.crashed.None?
    ensures var t := PublishPass(s, o).0;
            && |t.rows| == |s.rows|
            && forall i :: 0 <= i < |t.rows| && t.rows[i].status.Pending? ==>
              && s.rows[i].status.Pending?
              && t.rows[i].attempts == s.rows[i].attempts + 1
              && t.rows[i].attempts < o.maxAttempts
  {
    RowsAdvance(s, PendingRows(s.rows), o, 0, 0);
  }

  /** Every pending row has been tried at least n times, and fewer than the limit once it was tried at all. */
  predicate TriedAtLeast(rows: seq<Row>, n: nat, maxAttempts: int) {
    forall i :: 0 <= i < |rows| && rows[i].status.Pending? ==>
      rows[i].attempts >= n && (n > 0 ==> rows[i].attempts < maxAttempts)
  }

  lemma PassTries(s: State, o: PublishOptions, n: nat)
    requires PublishPass(s, o).1.crashed.None? && TriedAtLeast(s.rows, n, o.maxAttempts)
    ensures TriedAtLeast(PublishPass(s, o).0.rows, n + 1, o.maxAttempts)
  {
    PassAdvances(s, o);
  }

  lemma FewerPasses(s: State, passes: seq<PublishOptions>, n: nat)
    requires n <= |passes| && CrashFree(s, passes)
    ensures CrashFree(s, passes[..n])
  {
    assert forall k :: 0 <= k < n ==> passes[..n][..k] == passes[..k];
  }

  lemma {:induction false} PassesTry(s: State, passes: seq<PublishOptions>, maxAttempts: int)
    requires forall k :: 0 <= k < |passes| ==> passes[k].maxAttempts == maxAttempts
    requires CrashFree(s, passes)
    ensures TriedAtLeast(RunPasses(s, passes).rows, |passes|, maxAttempts)
  {
    if passes != [] {
      var n := |passes| - 1;
      FewerPasses(s, passes, n);
      PassesTry(s, passes[..n], maxAttempts);
      PassTries(RunPasses(s, passes[..n]), passes[n], n);
    }
  }

  /** After `maxAttempts` crash-free passes the queue is empty, whatever the transport did. */
  lemma PassesDrainQueue(s: State, passes: seq<PublishOptions>, maxAttempts: nat)
    requires 0 < maxAttempts <= |passes|
    requires forall k :: 0 <= k < |passes| ==> passes[k].maxAttempts == maxAttempts
    requires CrashFree(s, passes)
    ensures PendingCount(RunPasses(s, passes).rows) == 0
  {
    PassesTry(s, passes, maxAttempts);
    NoneLeft(RunPasses(s, passes).rows, |passes|, maxAttempts);
  }

  lemma NoneLeft(rows: seq<Row>, n: nat, maxAttempts: nat)
    requires 0 < maxAttempts <= n && TriedAtLeast(rows, n, maxAttempts)
    ensures PendingCount(rows) == 0
  {
    NonePending(rows);
  }

  lemma {:induction false} NonePending(rows: seq<Row>)
    requires forall i :: 0 <= i < |rows| ==> !rows[i].status.Pending?
    ensures PendingCount(rows) == 0
  {
    if rows != [] {
      NonePending(rows[..|rows| - 1]);
    }
  }

  // ---------------------------------------------------------------- identity, numbering, dead letters

  predicate IsRow(rows: seq<Row>, id: Id) {
    exists i :: 0 <= i < |rows| && rows[i].id == id
  }

  predicate IsEvent(rows: seq<Row>, id: Id) {
    exists i :: 0 <= i < |rows| && rows[i].envelope.eventId == id
  }

  /** No two rows share an id or an event, and no row id is an event id. */
  predicate IdsOk(rows: seq<Row>, nextId: Id) {
    && (forall i :: 0 <= i < |rows| ==> rows[i].id < nextId && rows[i].envelope.eventId < nextId)
    && (forall i, j :: 0 <= i < j < |rows| ==>
          rows[i].id != rows[j].id && rows[i].envelope.eventId != rows[j].envelope.eventId)
    && (forall i, j :: 0 <= i < |rows| && 0 <= j < |rows| ==> rows[i].id != rows[j].envelope.eventId)
  }

  /** Rows numbered under one ordering key carry strictly increasing numbers, in commit order. */
  predicate SequencesIncrease(rows: seq<Row>) {
    forall i, j :: 0 <= i < j < |rows| && rows[i].orderingKey.Some? && rows[i].orderingKey == rows[j].orderingKey ==>
      rows[i].sequence.Some? && rows[j].sequence.Some? && rows[i].sequence.value < rows[j].sequence.value
  }

  predicate SequencesBounded(rows: seq<Row>, sequences: map<string, nat>) {
    forall i :: 0 <= i < |rows| ==>
      && rows[i].sequence.Some? == rows[i].orderingKey.Some?
      && (rows[i].orderingKey.Some? ==> 0 < rows[i].sequence.value <= LastSequence(sequences, rows[i].orderingKey.value))
  }

  /** Each dead letter is a row's, from the publisher, or a committed event's, from a consumer. */
  predicate DeadLettersKnown(rows: seq<Row>, ds: seq<DeadLetter>) {
    forall i :: 0 <= i < |ds| ==>
      (ds[i].consumer == PUBLISHER && IsRow(rows, ds[i].outboxId)) || IsEvent(rows, ds[i].outboxId)
  }

  predicate OneDeadLetterPerRow(rows: seq<Row>, ds: seq<DeadLetter>) {
    forall i, j :: 0 <= i < j < |ds| && IsRow(rows, ds[i].outboxId) && ds[i].consumer == PUBLISHER && ds[j].consumer == PUBLISHER ==>
      ds[i].outboxId != ds[j].outboxId
  }

  predicate HasDeadLetter(ds: seq<DeadLetter>, row: Row) {
    exists k :: 0 <= k < |ds| && ds[k].outboxId == row.id && ds[k].consumer == PUBLISHER
  }

  predicate DeadRowsHaveOne(rows: seq<Row>, ds: seq<DeadLetter>) {
    forall i :: 0 <= i < |rows| && rows[i].status.DeadLettered? ==> HasDeadLetter(ds, rows[i])
  }

  predicate DeadOk(s: State) {
    && DeadLettersKnown(s.rows, s.deadLetters)
    && OneDeadLetterPerRow(s.rows, s.deadLetters)
    && DeadRowsHaveOne(s.rows, s.deadLetters)
  }

  predicate CountsOk(s: State) {
    s.metrics.eventsCommitted == |s.rows| && s.metrics.dlqCount == |s.deadLetters|
  }

  predicate KeysUnique(ks: seq<ProcessedKey>) {
    forall i, j :: 0 <= i < j < |ks| ==> ks[i] != ks[j]
  }

  predicate StoreOk(s: State) {
    && IdsOk(s.rows, s.nextId)
    && SequencesIncrease(s.rows)
    && SequencesBounded(s.rows, s.sequences)
    && DeadOk(s)
    && CountsOk(s)
    && KeysUnique(s.processed)
  }

  lemma IdentityKnown(rows: seq<Row>, rows': seq<Row>)
    requires SameIdentity(rows, rows')
    ensures forall id :: IsRow(rows, id) <==> IsRow(rows', id)
    ensures forall id :: IsEvent(rows, id) <==> IsEvent(rows', id)
  {
    forall id
      ensures IsRow(rows, id) <==> IsRow(rows', id)
      ensures IsEvent(rows, id) <==> IsEvent(rows', id)
    {
      if IsRow(rows, id) {
        var i :| 0 <= i < |rows| && rows[i].id == id;
        assert rows'[i].id == id;
      }
      if IsRow(rows', id) {
        var i :| 0 <= i < |rows| && rows'[i].id == id;
        assert rows[i].id == id;
      }
      if IsEvent(rows, id) {
        var i :| 0 <= i < |rows| && rows[i].envelope.eventId == id;
        assert rows'[i].envelope.eventId == id;
      }
      if IsEvent(rows', id) {
        var i :| 0 <= i < |rows| && rows'[i].envelope.eventId == id;
        assert rows[i].envelope.eventId == id;
      }
    }
  }

  /** Dead letters keep the row and consumer they were opened for. */
  predicate SameSubjects(ds: seq<DeadLetter>, ds': seq<DeadLetter>) {
    && |ds| <= |ds'|
    && forall k :: 0 <= k < |ds| ==> ds'[k].outboxId == ds[k].outboxId && ds'[k].consumer == ds[k].consumer
  }

  lemma SubjectsKeepDeadLetter(ds: seq<DeadLetter>, ds': seq<DeadLetter>, row: Row)
    requires SameSubjects(ds, ds') && HasDeadLetter(ds, row)
    ensures HasDeadLetter(ds', row)
  {
    var k :| 0 <= k < |ds| && ds[k].outboxId == row.id && ds[k].consumer == PUBLISHER;
    assert ds'[k].outboxId == row.id && ds'[k].consumer == PUBLISHER;
  }

  /** A change of delivery state that opens no dead letter keeps the dead letters right. */
  lemma DeadOkKept(s: State, t: State)
    requires DeadOk(s) && SameIdentity(s.rows, t.rows)
    requires SameSubjects(s.deadLetters, t.deadLetters) && |s.deadLetters| == |t.deadLetters|
    requires forall i :: 0 <= i < |s.rows| && t.rows[i].status.DeadLettered? ==>
      s.rows[i].status.DeadLettered? || HasDeadLetter(s.deadLetters, s.rows[i])
    ensures DeadOk(t)
  {
    IdentityKnown(s.rows, t.rows);
    forall i | 0 <= i < |t.rows| && t.rows[i].status.DeadLettered?
      ensures HasDeadLetter(t.deadLetters, t.rows[i])
    {
      SubjectsKeepDeadLetter(s.deadLetters, t.deadLetters, s.rows[i]);
      assert t.rows[i].id == s.rows[i].id;
      var k :| 0 <= k < |t.deadLetters| && t.deadLetters[k].outboxId == s.rows[i].id && t.deadLetters[k].consumer == PUBLISHER;
      assert t.deadLetters[k].outboxId == t.rows[i].id;
    }
  }

  lemma MoveKeepsDeadOk(s: State, i: nat)
    requires i < |s.rows| && DeadOk(s) && CountsOk(s)
    ensures DeadOk(MoveToDlq(s, i)) && CountsOk(MoveToDlq(s, i))
  {
    var t := MoveToDlq(s, i);
    var row := s.rows[i];
    var k := FindDeadLetter(s.deadLetters, row.id, PUBLISHER);
    IdentityKnown(s.rows, t.rows);
    if k < |s.deadLetters| {
      assert HasDeadLetter(s.deadLetters, row);
      DeadOkKept(s, t);
    } else {
      assert IsRow(t.rows, row.id);
      assert t.deadLetters[|s.deadLetters|].outboxId == row.id;
      assert HasDeadLetter(t.deadLetters, t.rows[i]);
      forall j | 0 <= j < |t.rows| && j != i && t.rows[j].status.DeadLettered?
        ensures HasDeadLetter(t.deadLetters, t.rows[j])
      {
        SubjectsKeepDeadLetter(s.deadLetters, t.deadLetters, s.rows[j]);
      }
    }
  }

  lemma FailKeepsDeadOk(s: State, i: nat, o: PublishOptions, error: string)
    requires i < |s.rows| && DeadOk(s) && CountsOk(s)
    ensures var t := FailAttempt(s, i, o, error).0; DeadOk(t) && CountsOk(t)
  {
    var failed := PublisherFailed(WithError(s, i, error));
    DeadOkKept(s, failed);
    MoveKeepsDeadOk(failed, i);
  }

  lemma AttemptKeepsDeadOk(s: State, i: nat, o: PublishOptions)
    requires i < |s.rows| && DeadOk(s) && CountsOk(s)
    ensures var t := Attempt(s, i, o).0; DeadOk(t) && CountsOk(t)
  {
    var t := CountAttempt(s, i);
    var u := Send(t, t.rows[i].envelope, o.allowDuplicates);
    DeadOkKept(s, PublisherFailed(s));
    DeadOkKept(s, t);
    CrashKeepsDeadOk(t, i, "publisher_crash_during_retry");
    FailKeepsDeadOk(t, i, o, "publisher_transport_failure");
    FailKeepsDeadOk(t, i, o, "publisher_failed");
    DeadOkKept(t, u);
    CrashKeepsDeadOk(u, i, "publisher_crash_after_publish_before_mark");
    DeadOkKept(u, MarkPublished(u, i));
    AttemptCases(s, i, o);
  }

  lemma CrashKeepsDeadOk(s: State, i: nat, error: string)
    requires i < |s.rows| && DeadOk(s) && CountsOk(s)
    ensures var t := PublisherFailed(WithError(s, i, error)); DeadOk(t) && CountsOk(t)
  {
    DeadOkKept(s, PublisherFailed(WithError(s, i, error)));
  }

  lemma AttemptKeepsStore(s: State, i: nat, o: PublishOptions)
    requires i < |s.rows| && StoreOk(s)
    ensures StoreOk(Attempt(s, i, o).0)
  {
    AttemptFrame(s, i, o);
    AttemptKeepsDeadOk(s, i, o);
  }

  lemma {:induction false} RowsKeepStore(s: State, ps: seq<nat>, o: PublishOptions, published: nat, dead: nat)
    requires InRange(s, ps) && StoreOk(s)
    ensures StoreOk(PublishRows(s, ps, o, published, dead).0)
    decreases |ps|
  {
    if ps != [] {
      var (t, outcome) := Attempt(s, ps[0], o);
      AttemptLength(s, ps[0], o);
      AttemptKeepsStore(s, ps[0], o);
      match outcome
      case Crashed(_) =>
      case Sent => RowsKeepStore(t, ps[1..], o, published + 1, dead);
      case Dead => RowsKeepStore(t, ps[1..], o, published, dead + 1);
      case Left => RowsKeepStore(t, ps[1..], o, published, dead);
    }
  }

  lemma PassKeepsStore(s: State, o: PublishOptions)
    requires StoreOk(s)
    ensures StoreOk(PublishPass(s, o).0)
  {
    RowsKeepStore(s, PendingRows(s.rows), o, 0, 0);
  }

  lemma CommitKeepsStore(s: State, c: CommitInput)
    requires StoreOk(s)
    ensures StoreOk(Commit(s, c))
  {
    if c.permitted && !c.fails {
      CommitKeepsIds(s, c);
      CommitKeepsSequences(s, c);
      CommitKeepsDeadOk(s, c);
    }
  }

  lemma CommitKeepsIds(s: State, c: CommitInput)
    requires c.permitted && !c.fails
    requires IdsOk(s.rows, s.nextId) && CountsOk(s) && KeysUnique(s.processed)
    ensures var t := Commit(s, c); IdsOk(t.rows, t.nextId) && CountsOk(t) && KeysUnique(t.processed)
  {
  }

  lemma CommitKeepsSequences(s: State, c: CommitInput)
    requires c.permitted && !c.fails
    requires SequencesIncrease(s.rows) && SequencesBounded(s.rows, s.sequences)
    ensures SequencesIncrease(Commit(s, c).rows) && SequencesBounded(Commit(s, c).rows, Commit(s, c).sequences)
  {
  }

  lemma CommitKeepsDeadOk(s: State, c: CommitInput)
    requires c.permitted && !c.fails
    requires IdsOk(s.rows, s.nextId) && DeadOk(s)
    ensures DeadOk(Commit(s, c))
  {
    var t := Commit(s, c);
    var ds := s.deadLetters;
    forall i | 0 <= i < |ds|
      ensures IsRow(s.rows, ds[i].outboxId) ==> IsRow(t.rows, ds[i].outboxId)
      ensures IsEvent(s.rows, ds[i].outboxId) ==> IsEvent(t.rows, ds[i].outboxId)
      ensures IsRow(t.rows, ds[i].outboxId) ==> IsRow(s.rows, ds[i].outboxId)
    {
      if IsRow(s.rows, ds[i].outboxId) {
        var k :| 0 <= k < |s.rows| && s.rows[k].id == ds[i].outboxId;
        assert t.rows[k].id == ds[i].outboxId;
      }
      if IsEvent(s.rows, ds[i].outboxId) {
        var k :| 0 <= k < |s.rows| && s.rows[k].envelope.eventId == ds[i].outboxId;
        assert t.rows[k].envelope.eventId == ds[i].outboxId;
      }
      assert ds[i].outboxId < s.nextId;
      if IsRow(t.rows, ds[i].outboxId) {
        var k :| 0 <= k < |t.rows| && t.rows[k].id == ds[i].outboxId;
        assert k < |s.rows| && s.rows[k].id == ds[i].outboxId;
      }
    }
  }

  lemma ConsumeKeepsStore(s: State, d: DeliveryInput)
    requires StoreOk(s) && IsEvent(s.rows, d.event.eventId)
    ensures StoreOk(Consume(s, d).0)
  {
    var (t, outcome) := Consume(s, d);
    if outcome.HandlerFailed? {
      var n := |s.deadLetters|;
      assert t.deadLetters == s.deadLetters + [HandlerDeadLetter(d)];
      assert !IsRow(s.rows, d.event.eventId);
      forall i | 0 <= i < |t.rows| && t.rows[i].status.DeadLettered?
        ensures HasDeadLetter(t.deadLetters, t.rows[i])
      {
        SubjectsKeepDeadLetter(s.deadLetters, t.deadLetters, s.rows[i]);
      }
      forall i, j | 0 <= i < j < |t.deadLetters| && IsRow(t.rows, t.deadLetters[i].outboxId)
        && t.deadLetters[i].consumer == PUBLISHER && t.deadLetters[j].consumer == PUBLISHER
        ensures t.deadLetters[i].outboxId != t.deadLetters[j].outboxId
      {
      }
    }
  }

  /** What a replay leaves alone: everything but the delivery state of rows and the status of dead letters. */
  predicate ReplayFrame(s: State, t: State) {
    && SameIdentity(s.rows, t.rows)
    && SameElsewhere(s, t)
    && t.bus == s.bus
    && t.sent == s.sent
    && t.metrics == s.metrics
    && SameSubjects(s.deadLetters, t.deadLetters)
    && |t.deadLetters| == |s.deadLetters|
    && forall i :: 0 <= i < |s.rows| ==> t.rows[i].status.Pending? || t.rows[i].status == s.rows[i].status
  }

  lemma ReplayOneFrame(s: State, id: DeadLetterId, tenantId: string, reason: string)
    ensures ReplayFrame(s, ReplayOne(s, id, tenantId, reason).0)
  {
  }

  lemma {:induction false} ReplayAllFrame(s: State, ids: seq<DeadLetterId>, tenantId: string, reason: string, n: nat)
    ensures ReplayFrame(s, ReplayAll(s, ids, tenantId, reason, n).0)
    decreases |ids|
  {
    if ids != [] {
      var (t, found) := ReplayOne(s, ids[0], tenantId, reason);
      ReplayOneFrame(s, ids[0], tenantId, reason);
      ReplayAllFrame(t, ids[1..], tenantId, reason, if found then n + 1 else n);
      var u := ReplayAll(t, ids[1..], tenantId, reason, if found then n + 1 else n).0;
      ReplayFrameTrans(s, t, u);
    }
  }

  lemma ReplayFrameTrans(s: State, t: State, u: State)
    requires ReplayFrame(s, t) && ReplayFrame(t, u)
    ensures ReplayFrame(s, u)
  {
  }

  lemma ReplayFrameKeepsStore(s: State, t: State)
    requires StoreOk(s) && ReplayFrame(s, t)
    ensures StoreOk(t)
  {
    DeadOkKept(s, t);
    IdentityKeepsRows(s, t);
  }

  lemma IdentityKeepsRows(s: State, t: State)
    requires StoreOk(s) && SameIdentity(s.rows, t.rows) && SameElsewhere(s, t)
    ensures IdsOk(t.rows, t.nextId) && SequencesIncrease(t.rows) && SequencesBounded(t.rows, t.sequences)
  {
  }

  lemma ExecuteKeepsStore(s: State, tenantId: string, requestId: Id, permitted: bool)
    requires StoreOk(s)
    ensures StoreOk(ExecuteReplay(s, tenantId, requestId, permitted).0)
  {
    var k := FindRequest(s.requests, requestId, tenantId);
    if k < |s.requests| {
      var r := s.requests[k];
      ReplayAllFrame(s, r.deadLetterIds, tenantId, r.reason, 0);
      ReplayFrameKeepsStore(s, ReplayAll(s, r.deadLetterIds, tenantId, r.reason, 0).0);
    }
  }

  /** In every run: ids fresh, numbers increasing, dead letters and counters right, processed keys unique. */
  lemma {:induction false} EveryRunStoreOk(steps: seq<Step>)
    ensures StoreOk(Run(steps).state)
  {
    if steps != [] {
      var before := Run(steps[..|steps| - 1]);
      EveryRunStoreOk(steps[..|steps| - 1]);
      StepKeepsStore(before, steps[|steps| - 1]);
    }
  }

  lemma DeliverKeepsStore(t: Trace, step: Step)
    requires StoreOk(t.state) && step.DeliverStep?
    ensures StoreOk(Apply(t, step).state)
  {
    if step.row < |t.state.rows| {
      assert IsEvent(t.state.rows, t.state.rows[step.row].envelope.eventId);
      ConsumeKeepsStore(t.state, DeliveryOf(t.state, step));
    }
  }

  lemma StepKeepsStore(t: Trace, step: Step)
    requires StoreOk(t.state)
    ensures StoreOk(Apply(t, step).state)
  {
    match step
    case CommitStep(c) => CommitKeepsStore(t.state, c);
    case PublishStep(o) => PassKeepsStore(t.state, o);
    case DeliverStep(row, _, _, _, _, _) => DeliverKeepsStore(t, step);
    case RequestStep(r) =>
    case ExecuteStep(tenant, id, may) => ExecuteKeepsStore(t.state, tenant, id, may);
    case RestartStep =>
  }

  // ---------------------------------------------------------------- the bus

  predicate OnBus(bus: seq<Envelope>, id: Id) {
    exists k :: 0 <= k < |bus| && bus[k].eventId == id
  }

  predicate Committed(rows: seq<Row>, e: Envelope) {
    exists i :: 0 <= i < |rows| && rows[i].envelope == e
  }

  /** Nothing on the bus but committed events, and every published or remembered event on it. */
  predicate BusFaithful(s: State) {
    && (forall k :: 0 <= k < |s.bus| ==> Committed(s.rows, s.bus[k]))
    && (forall i :: 0 <= i < |s.rows| && s.rows[i].status.Published? ==> OnBus(s.bus, s.rows[i].envelope.eventId))
    && (forall id :: id in s.sent ==> OnBus(s.bus, id))
  }

  predicate NoDuplicates(bus: seq<Envelope>) {
    forall i, j :: 0 <= i < j < |bus| ==> bus[i].eventId != bus[j].eventId
  }

  predicate BusRemembered(s: State) {
    NoDuplicates(s.bus) && forall k :: 0 <= k < |s.bus| ==> s.bus[k].eventId in s.sent
  }

  lemma IdentityCommitted(rows: seq<Row>, rows': seq<Row>, e: Envelope)
    requires Committed(rows, e) && |rows| <= |rows'|
    requires forall i :: 0 <= i < |rows| ==> rows'[i].envelope == rows[i].envelope
    ensures Committed(rows', e)
  {
    var i :| 0 <= i < |rows| && rows[i].envelope == e;
    assert rows'[i].envelope == e;
  }

  /** A step that leaves the transport alone, loses no row and publishes none keeps the bus faithful. */
  lemma QuietKeepsBus(s: State, t: State)
    requires BusFaithful(s) && t.bus == s.bus && t.sent <= s.sent && |s.rows| <= |t.rows|
    requires forall i :: 0 <= i < |s.rows| ==> t.rows[i].envelope == s.rows[i].envelope
    requires forall i :: 0 <= i < |t.rows| && t.rows[i].status.Published? ==> i < |s.rows| && s.rows[i].status.Published?
    ensures BusFaithful(t)
  {
    forall k | 0 <= k < |t.bus|
      ensures Committed(t.rows, t.bus[k])
    {
      IdentityCommitted(s.rows, t.rows, s.bus[k]);
    }
    forall i | 0 <= i < |t.rows| && t.rows[i].status.Published?
      ensures OnBus(t.bus, t.rows[i].envelope.eventId)
    {
      assert OnBus(s.bus, s.rows[i].envelope.eventId);
    }
  }

  lemma SendKeepsBus(s: State, i: nat, allow: bool)
    requires i < |s.rows| && BusFaithful(s)
    ensures var t := Send(s, s.rows[i].envelope, allow);
            BusFaithful(t) && OnBus(t.bus, s.rows[i].envelope.eventId)
    ensures !allow && BusRemembered(s) ==> BusRemembered(Send(s, s.rows[i].envelope, allow))
  {
    var e := s.rows[i].envelope;
    var t := Send(s, e, allow);
    if t != s {
      var n := |s.bus|;
      assert t.bus[n] == e;
      assert Committed(t.rows, e);
      forall id | OnBus(s.bus, id)
        ensures OnBus(t.bus, id)
      {
        var k :| 0 <= k < |s.bus| && s.bus[k].eventId == id;
        assert t.bus[k].eventId == id;
      }
      assert forall k :: 0 <= k < |t.bus| ==> k == n || t.bus[k] == s.bus[k];
    }
  }

  lemma FailKeepsBus(s: State, i: nat, o: PublishOptions, error: string)
    requires i < |s.rows| && BusFaithful(s)
    ensures var t := FailAttempt(s, i, o, error).0; BusFaithful(t) && (BusRemembered(s) ==> BusRemembered(t))
  {
    var t := FailAttempt(s, i, o, error).0;
    FailFrame(s, i, o, error);
    FailQuiet(s, i, o, error);
    QuietKeepsBus(s, t);
  }

  lemma FailQuiet(s: State, i: nat, o: PublishOptions, error: string)
    requires i < |s.rows|
    ensures var t := FailAttempt(s, i, o, error).0;
            t.bus == s.bus && t.sent == s.sent && (t.rows[i].status.Published? ==> s.rows[i].status.Published?)
  {
  }

  lemma MarkKeepsBus(s: State, i: nat)
    requires i < |s.rows| && BusFaithful(s) && OnBus(s.bus, s.rows[i].envelope.eventId)
    ensures BusFaithful(MarkPublished(s, i))
  {
    var t := MarkPublished(s, i);
    forall k | 0 <= k < |t.bus|
      ensures Committed(t.rows, t.bus[k])
    {
      IdentityCommitted(s.rows, t.rows, s.bus[k]);
    }
  }

  predicate KeepsBus(s: State, t: State, o: PublishOptions) {
    BusFaithful(t) && (!o.allowDuplicates && BusRemembered(s) ==> BusRemembered(t))
  }

  lemma AttemptKeepsBus(s: State, i: nat, o: PublishOptions)
    requires i < |s.rows| && BusFaithful(s)
    ensures KeepsBus(s, Attempt(s, i, o).0, o)
  {
    var t := CountAttempt(s, i);
    var u := Send(t, t.rows[i].envelope, o.allowDuplicates);
    var end := Attempt(s, i, o).0;
    AttemptCases(s, i, o);
    QuietKeepsBus(s, t);
    if end == PublisherFailed(s) {
      QuietKeepsBus(s, end);
    } else if end == PublisherFailed(WithError(t, i, "publisher_crash_during_retry")) {
      QuietKeepsBus(t, end);
    } else if end == FailAttempt(t, i, o, "publisher_transport_failure").0 {
      FailKeepsBus(t, i, o, "publisher_transport_failure");
    } else if end == FailAttempt(t, i, o, "publisher_failed").0 {
      FailKeepsBus(t, i, o, "publisher_failed");
    } else {
      SendKeepsBus(t, i, o.allowDuplicates);
      SentEndKeepsBus(u, i, o, end);
    }
  }

  lemma SentEndKeepsBus(u: State, i: nat, o: PublishOptions, end: State)
    requires i < |u.rows| && BusFaithful(u) && OnBus(u.bus, u.rows[i].envelope.eventId)
    requires end in [PublisherFailed(WithError(u, i, "publisher_crash_after_publish_before_mark")), MarkPublished(u, i)]
    ensures KeepsBus(u, end, o)
  {
    if end == MarkPublished(u, i) {
      MarkKeepsBus(u, i);
    } else {
      QuietKeepsBus(u, end);
    }
  }

  lemma {:induction false} RowsKeepBus(s: State, ps: seq<nat>, o: PublishOptions, published: nat, dead: nat)
    requires InRange(s, ps) && BusFaithful(s)
    ensures var t := PublishRows(s, ps, o, published, dead).0;
            BusFaithful(t) && (!o.allowDuplicates && BusRemembered(s) ==> BusRemembered(t))
    decreases |ps|
  {
    if ps != [] {
      var (t, outcome) := Attempt(s, ps[0], o);
      AttemptLength(s, ps[0], o);
      AttemptKeepsBus(s, ps[0], o);
      match outcome
      case Crashed(_) =>
      case Sent => RowsKeepBus(t, ps[1..], o, published + 1, dead);
      case Dead => RowsKeepBus(t, ps[1..], o, published, dead + 1);
      case Left => RowsKeepBus(t, ps[1..], o, published, dead);
    }
  }

  lemma StepKeepsBus(t: Trace, step: Step)
    requires BusFaithful(t.state)
    ensures BusFaithful(Apply(t, step).state)
    ensures !step.RestartStep? && (step.PublishStep? ==> !step.options.allowDuplicates) && BusRemembered(t.state)
        ==> BusRemembered(Apply(t, step).state)
  {
    match step
    case PublishStep(o) => PassKeepsBus(t.state, o);
    case ExecuteStep(tenant, id, may) => ExecuteKeepsBus(t.state, tenant, id, may);
    case _ => QuietKeepsBus(t.state, Apply(t, step).state);
  }

  lemma PassKeepsBus(s: State, o: PublishOptions)
    requires BusFaithful(s)
    ensures KeepsBus(s, PublishPass(s, o).0, o)
  {
    QuietKeepsBus(s, PublisherFailed(s));
    RowsKeepBus(s, PendingRows(s.rows), o, 0, 0);
  }

  lemma ExecuteKeepsBus(s: State, tenantId: string, requestId: Id, permitted: bool)
    requires BusFaithful(s)
    ensures var u := ExecuteReplay(s, tenantId, requestId, permitted).0;
      BusFaithful(u) && (BusRemembered(s) ==> BusRemembered(u))
  {
    var k := FindRequest(s.requests, requestId, tenantId);
    if k < |s.requests| {
      ReplayAllFrame(s, s.requests[k].deadLetterIds, tenantId, s.requests[k].reason, 0);
      QuietKeepsBus(s, ExecuteReplay(s, tenantId, requestId, permitted).0);
    }
  }

  /** One transport throughout: no restart, and duplicates never allowed. */
  predicate OneTransport(steps: seq<Step>) {
    forall k :: 0 <= k < |steps| ==>
      !steps[k].RestartStep? && (steps[k].PublishStep? ==> !steps[k].options.allowDuplicates)
  }

  lemma {:induction false} EveryRunBusOk(steps: seq<Step>)
    ensures BusFaithful(Run(steps).state)
    ensures OneTransport(steps) ==> BusRemembered(Run(steps).state)
  {
    if steps != [] {
      var n := |steps| - 1;
      EveryRunBusOk(steps[..n]);
      StepKeepsBus(Run(steps[..n]), steps[n]);
    }
  }

  /**
   * At least once, always; exactly once through one transport. In every run each published row's event is on the
   * bus and each event on the bus is a committed row's; without a restart or allowed duplicates, none is there twice.
   */
  lemma DeliveredToBus(steps: seq<Step>)
    ensures var s := Run(steps).state;
            && (forall i :: 0 <= i < |s.rows| && s.rows[i].status.Published? ==> s.rows[i].envelope in s.bus)
            && (forall k :: 0 <= k < |s.bus| ==> Committed(s.rows, s.bus[k]))
            && (OneTransport(steps) ==> NoDuplicates(s.bus))
  {
    var s := Run(steps).state;
    EveryRunStoreOk(steps);
    EveryRunBusOk(steps);
    forall i | 0 <= i < |s.rows| && s.rows[i].status.Published?
      ensures s.rows[i].envelope in s.bus
    {
      assert OnBus(s.bus, s.rows[i].envelope.eventId);
      var k :| 0 <= k < |s.bus| && s.bus[k].eventId == s.rows[i].envelope.eventId;
      assert Committed(s.rows, s.bus[k]);
      var j :| 0 <= j < |s.rows| && s.rows[j].envelope == s.bus[k];
      assert i == j;
    }
  }

  lemma RunSnoc(steps: seq<Step>, step: Step)
    ensures Run(steps + [step]) == Apply(Run(steps), step)
  {
    assert (steps + [step])[..|steps|] == steps;
  }

  // ---------------------------------------------------------------- replay requests

  function Count<T(==)>(xs: seq<T>, x: T): nat {
    if xs == [] then 0 else Count(xs[..|xs| - 1], x) + (if xs[|xs| - 1] == x then 1 else 0)
  }

  lemma CountSnoc<T>(xs: seq<T>, y: T, x: T)
    ensures Count(xs + [y], x) == Count(xs, x) + (if y == x then 1 else 0)
  {
    assert (xs + [y])[..|xs|] == xs;
  }

  /** Request ids are distinct, and the executed requests are exactly those carried out, once each. */
  ghost predicate RequestsOk(t: Trace) {
    var rs := t.state.requests;
    && (forall i :: 0 <= i < |rs| ==> rs[i].id < t.state.nextId)
    && (forall i, j :: 0 <= i < j < |rs| ==> rs[i].id != rs[j].id)
    && (forall i :: 0 <= i < |rs| ==> Count(t.executed, rs[i].id) == if rs[i].status.Executed? then 1 else 0)
    && (forall id :: Count(t.executed, id) > 0 ==> Requested(rs, id))
  }

  predicate Requested(rs: seq<ReplayRequest>, id: Id) {
    exists i :: 0 <= i < |rs| && rs[i].id == id
  }

  lemma ExecuteRequests(s: State, tenantId: string, id: Id, may: bool)
    ensures var (t, n) := ExecuteReplay(s, tenantId, id, may);
            var k := FindRequest(s.requests, id, tenantId);
            && t.nextId == s.nextId
            && (n.None? ==> t.requests == s.requests)
            && (n.Some? ==> (
                  && k < |s.requests| && !s.requests[k].status.Executed?
                  && t.requests == s.requests[k := s.requests[k].(status := Executed)]))
  {
    var k := FindRequest(s.requests, id, tenantId);
    if k < |s.requests| {
      ReplayAllFrame(s, s.requests[k].deadLetterIds, tenantId, s.requests[k].reason, 0);
    }
  }

  lemma PassKeepsRequests(s: State, o: PublishOptions)
    ensures var t := PublishPass(s, o).0; SameElsewhere(s, t)
  {
    RowsKeepElsewhere(s, PendingRows(s.rows), o, 0, 0);
  }

  lemma {:induction false} RowsKeepElsewhere(s: State, ps: seq<nat>, o: PublishOptions, published: nat, dead: nat)
    requires InRange(s, ps)
    ensures SameElsewhere(s, PublishRows(s, ps, o, published, dead).0)
    decreases |ps|
  {
    if ps != [] {
      var (t, outcome) := Attempt(s, ps[0], o);
      AttemptLength(s, ps[0], o);
      AttemptFrame(s, ps[0], o);
      match outcome
      case Crashed(_) =>
      case Sent => RowsKeepElsewhere(t, ps[1..], o, published + 1, dead);
      case Dead => RowsKeepElsewhere(t, ps[1..], o, published, dead + 1);
      case Left => RowsKeepElsewhere(t, ps[1..], o, published, dead);
    }
  }

  lemma StillRequested(rs: seq<ReplayRequest>, rs': seq<ReplayRequest>, id: Id)
    requires Requested(rs, id) && |rs| <= |rs'| && forall i :: 0 <= i < |rs| ==> rs'[i].id == rs[i].id
    ensures Requested(rs', id)
  {
    var i :| 0 <= i < |rs| && rs[i].id == id;
    assert rs'[i].id == id;
  }

  lemma ExecuteKeepsRequests(t: Trace, step: Step)
    requires step.ExecuteStep? && RequestsOk(t)
    ensures RequestsOk(Apply(t, step))
  {
    var s, u := t.state, Apply(t, step);
    var k := FindRequest(s.requests, step.requestId, step.requestTenant);
    ExecuteRequests(s, step.requestTenant, step.requestId, step.mayExecute);
    if u.executed != t.executed {
      OneExecuted(t, u, k);
    } else {
      SameRequestsOk(t, u);
    }
  }

  /** One more request carried out, which was not before. */
  lemma OneExecuted(t: Trace, u: Trace, k: nat)
    requires RequestsOk(t) && k < |t.state.requests| && !t.state.requests[k].status.Executed?
    requires u.state.requests == t.state.requests[k := t.state.requests[k].(status := Executed)]
    requires u.executed == t.executed + [t.state.requests[k].id] && u.state.nextId == t.state.nextId
    ensures RequestsOk(u)
  {
    forall id
      ensures Count(u.executed, id) == Count(t.executed, id) + (if id == t.state.requests[k].id then 1 else 0)
    {
      CountSnoc(t.executed, t.state.requests[k].id, id);
    }
    forall id | Count(u.executed, id) > 0
      ensures Requested(u.state.requests, id)
    {
      if id == t.state.requests[k].id {
        assert u.state.requests[k].id == id;
      } else {
        StillRequested(t.state.requests, u.state.requests, id);
      }
    }
  }

  lemma RequestKeepsRequests(t: Trace, step: Step)
    requires step.RequestStep? && RequestsOk(t)
    ensures RequestsOk(Apply(t, step))
  {
    var s, u := t.state, Apply(t, step);
    if u.state != s {
      assert Count(t.executed, s.nextId) == 0;
      forall id | Count(u.executed, id) > 0
        ensures Requested(u.state.requests, id)
      {
        StillRequested(s.requests, u.state.requests, id);
      }
    }
  }

  lemma {:induction false} EveryRunRequestsOk(steps: seq<Step>)
    ensures RequestsOk(Run(steps))
  {
    if steps != [] {
      var n := |steps| - 1;
      var t := Run(steps[..n]);
      EveryRunRequestsOk(steps[..n]);
      StepKeepsRequests(t, steps[n]);
    }
  }

  lemma StepKeepsRequests(t: Trace, step: Step)
    requires RequestsOk(t)
    ensures RequestsOk(Apply(t, step))
  {
    match step
    case PublishStep(o) => {
      PassKeepsRequests(t.state, o);
      SameRequestsOk(t, Apply(t, step));
    }
    case ExecuteStep(_, _, _) => ExecuteKeepsRequests(t, step);
    case RequestStep(_) => RequestKeepsRequests(t, step);
    case _ => SameRequestsOk(t, Apply(t, step));
  }

  lemma SameRequestsOk(t: Trace, u: Trace)
    requires RequestsOk(t)
    requires u.state.requests == t.state.requests && u.executed == t.executed && t.state.nextId <= u.state.nextId
    ensures RequestsOk(u)
  {
  }

  /** In every run a replay request takes effect at most once. */
  lemma ReplayTakesEffectOnce(steps: seq<Step>, id: Id)
    ensures Count(Run(steps).executed, id) <= 1
  {
    EveryRunRequestsOk(steps);
    var t := Run(steps);
    if Count(t.executed, id) > 0 {
      var i :| 0 <= i < |t.state.requests| && t.state.requests[i].id == id;
    }
  }

  // ---------------------------------------------------------------- idempotent consumption

  function Completions(ds: seq<Delivery>, key: ProcessedKey): nat {
    if ds == [] then 0
    else Completions(ds[..|ds| - 1], key) + (if ds[|ds| - 1].key == key && ds[|ds| - 1].completed then 1 else 0)
  }

  function Forgotten(ds: seq<Delivery>, key: ProcessedKey): nat {
    if ds == [] then 0
    else Forgotten(ds[..|ds| - 1], key) + (if ds[|ds| - 1].key == key && ds[|ds| - 1].forgot then 1 else 0)
  }

  /** Forced deliveries that were let in. */
  function Forced(ds: seq<Delivery>, key: ProcessedKey): nat {
    if ds == [] then 0
    else Forced(ds[..|ds| - 1], key) + (if ds[|ds| - 1].key == key && ds[|ds| - 1].forced then 1 else 0)
  }

  lemma ConsumeBalance(s: State, d: DeliveryInput, key: ProcessedKey)
    requires KeysUnique(s.processed)
    ensures (if key in Consume(s, d).0.processed then 1 else 0) + (if KeyOf(d) == key && Log(s, d).forgot then 1 else 0)
         == (if key in s.processed then 1 else 0) + (if KeyOf(d) == key && Log(s, d).completed then 1 else 0)
  {
    var n := FindKey(s.processed, KeyOf(d));
    assert n < |s.processed| <==> KeyOf(d) in s.processed;
    if n < |s.processed| {
      var kept := s.processed[..n] + s.processed[n + 1..];
      assert s.processed == s.processed[..n] + [KeyOf(d)] + s.processed[n + 1..];
      assert KeyOf(d) !in kept;
      assert key != KeyOf(d) ==> (key in kept <==> key in s.processed);
    }
  }

  lemma {:induction false} DeliveryBalance(steps: seq<Step>, key: ProcessedKey)
    ensures var t := Run(steps);
            Completions(t.deliveries, key) == Forgotten(t.deliveries, key) + (if key in t.state.processed then 1 else 0)
    ensures Forgotten(Run(steps).deliveries, key) <= Forced(Run(steps).deliveries, key)
  {
    if steps != [] {
      var n := |steps| - 1;
      var t := Run(steps[..n]);
      DeliveryBalance(steps[..n], key);
      match steps[n]
      case PublishStep(o) => PassKeepsRequests(t.state, o);
      case ExecuteStep(tenant, id, may) => ExecuteKeepsProcessed(t.state, tenant, id, may);
      case DeliverStep(row, _, _, _, _, _) =>
        if row < |t.state.rows| {
          var d := DeliveryOf(t.state, steps[n]);
          EveryRunStoreOk(steps[..n]);
          ConsumeBalance(t.state, d, key);
          assert (t.deliveries + [Log(t.state, d)])[..|t.deliveries|] == t.deliveries;
        }
      case _ =>
    }
  }

  lemma ExecuteKeepsProcessed(s: State, tenantId: string, id: Id, may: bool)
    ensures ExecuteReplay(s, tenantId, id, may).0.processed == s.processed
  {
    var k := FindRequest(s.requests, id, tenantId);
    if k < |s.requests| {
      ReplayAllFrame(s, s.requests[k].deadLetterIds, tenantId, s.requests[k].reason, 0);
    }
  }

  /** A handler completes at most once per key, plus once per forced redelivery; without force, at most once. */
  lemma CompletesOncePlusForced(steps: seq<Step>, key: ProcessedKey)
    ensures var ds := Run(steps).deliveries; Completions(ds, key) <= 1 + Forced(ds, key)
  {
    DeliveryBalance(steps, key);
  }
}
