/** The store whose fields the outbox operations update in place. */
module OutboxStore {
  import opened Options
  import opened Outbox

  class Store {
    var outboxEvents: seq<Row>
    var deadLetters: seq<DeadLetter>
    var processedEvents: seq<ProcessedKey>
    var publishedBus: seq<Envelope>
    var transportSent: set<Id>
    var replayRequests: seq<ReplayRequest>
    var aggregateSequences: map<string, nat>
    var nextId: Id
    var eventMetrics: Metrics
    var domain: Domain

    ghost function Snapshot(): State
      reads this
    {
      State(outboxEvents, deadLetters, processedEvents, publishedBus, transportSent, replayRequests,
            aggregateSequences, nextId, eventMetrics, domain)
    }

    constructor ()
      ensures Snapshot() == EMPTY
    {
      outboxEvents, deadLetters, processedEvents, publishedBus, transportSent := [], [], [], [], {};
      replayRequests, aggregateSequences, nextId := [], map[], 0;
      eventMetrics := Metrics(0, 0, 0, 0, 0, 0, 0);
      domain := Domain([], [], map[], map[]);
    }

    /** `assignSequence`. */
    method AssignSequence(input: CommitInput) returns (sequence: Option<nat>)
      modifies this`aggregateSequences
      ensures sequence == NewRow(old(Snapshot()), input).sequence
      ensures aggregateSequences == match OrderingKey(input)
                                    case None => old(aggregateSequences)
                                    case Some(key) => old(aggregateSequences)[key := LastSequence(old(aggregateSequences), key) + 1]
    {
      var key := OrderingKey(input);
      if key.None? {
        return None;
      }
      var next := LastSequence(aggregateSequences, key.value) + 1;
      aggregateSequences := aggregateSequences[key.value := next];
      return Some(next);
    }

    method CommitWithOutbox(input: CommitInput) returns (ok: bool)
      modifies this
      ensures Snapshot() == Commit(old(Snapshot()), input)
      ensures ok == (input.permitted && !input.fails)
    {
      if !input.permitted {
        return false;
      }
      var envelope := Envelope(nextId, input.eventType, input.tenantId, input.aggregateId);
      var outbox := Row(nextId + 1, envelope, 0, Pending, None, OrderingKey(input), None);
      var sequence := AssignSequence(input);
      outbox := outbox.(sequence := sequence);
      nextId := nextId + 2;
      var snapshot := domain;
      var outboxLen := |outboxEvents|;
      domain := input.written;
      if input.fails {
        domain := RestoreDomain(domain, snapshot);
        outboxEvents := outboxEvents[..outboxLen];
        return false;
      }
      outboxEvents := outboxEvents + [outbox];
      eventMetrics := eventMetrics.(eventsCommitted := eventMetrics.eventsCommitted + 1);
      return true;
    }

    method MoveRowToDlq(i: nat)
      requires i < |outboxEvents|
      modifies this
      ensures Snapshot() == MoveToDlq(old(Snapshot()), i)
    {
      var row := outboxEvents[i];
      outboxEvents := outboxEvents[i := row.(status := DeadLettered)];
      var existing := FindDeadLetter(deadLetters, row.id, PUBLISHER);
      if existing < |deadLetters| {
        deadLetters := deadLetters[existing := deadLetters[existing].(
          attempts := row.attempts, failureReason := ErrorText(row.lastError), status := Failed)];
        return;
      }
      deadLetters := deadLetters + [DeadLetter(OfRow(row.id), row.id, row.envelope.tenantId, row.envelope.eventId,
                                               PUBLISHER, ErrorText(row.lastError), row.attempts, Failed, false, None)];
      eventMetrics := eventMetrics.(dlqCount := eventMetrics.dlqCount + 1);
    }

    method Fail(i: nat, error: string)
      requires i < |outboxEvents|
      modifies this
      ensures Snapshot() == PublisherFailed(WithError(old(Snapshot()), i, error))
    {
      outboxEvents := outboxEvents[i := outboxEvents[i].(lastError := Some(error))];
      eventMetrics := eventMetrics.(publisherFailures := eventMetrics.publisherFailures + 1);
    }

    /** The transport's `publish`. */
    method TransportPublish(e: Envelope, allowDuplicates: bool)
      modifies this
      ensures Snapshot() == Send(old(Snapshot()), e, allowDuplicates)
    {
      if !allowDuplicates && e.eventId in transportSent {
        return;
      }
      publishedBus := publishedBus + [e];
      transportSent := transportSent + {e.eventId};
    }

    /** A failed attempt, after which the row may be given up. */
    method FailPublish(i: nat, o: PublishOptions, error: string) returns (outcome: Outcome)
      requires i < |outboxEvents|
      modifies this
      ensures (Snapshot(), outcome) == FailAttempt(old(Snapshot()), i, o, error)
    {
      var attempts := outboxEvents[i].attempts;
      Fail(i, error);
      if attempts >= o.maxAttempts {
        MoveRowToDlq(i);
        return Dead;
      }
      return Left;
    }

    /** One turn of the publisher's loop. */
    method PublishRow(i: nat, o: PublishOptions) returns (outcome: Outcome)
      requires i < |outboxEvents|
      modifies this
      ensures (Snapshot(), outcome) == Attempt(old(Snapshot()), i, o)
    {
      if InjectedAt(o, DuringShutdown) {
        eventMetrics := eventMetrics.(publisherFailures := eventMetrics.publisherFailures + 1);
        return Crashed(DuringShutdown);
      }
      outboxEvents := outboxEvents[i := outboxEvents[i].(attempts := outboxEvents[i].attempts + 1)];
      if outboxEvents[i].attempts > 1 {
        eventMetrics := eventMetrics.(retries := eventMetrics.retries + 1);
      }
      var row := outboxEvents[i];
      var e := row.envelope;
      if InjectedFor(o, DuringRetry, e.eventId) && row.attempts > 1 {
        Fail(i, "publisher_crash_during_retry");
        return Crashed(DuringRetry);
      }
      var refused := e.eventId in o.failEventIds || InjectedFor(o, BeforePublish, e.eventId);
      if refused || e.eventId in o.throwing {
        outcome := FailPublish(i, o, if refused then "publisher_transport_failure" else "publisher_failed");
        return;
      }
      TransportPublish(e, o.allowDuplicates);
      if InjectedFor(o, AfterPublishBeforeMark, e.eventId) {
        Fail(i, "publisher_crash_after_publish_before_mark");
        return Crashed(AfterPublishBeforeMark);
      }
      outboxEvents := outboxEvents[i := outboxEvents[i].(status := Published)];
      eventMetrics := eventMetrics.(eventsPublished := eventMetrics.eventsPublished + 1);
      return Sent;
    }

    method PublishPendingOutbox(o: PublishOptions) returns (r: PublishResult)
      modifies this
      ensures (Snapshot(), r) == PublishPass(old(Snapshot()), o)
    {
      if InjectedAt(o, BeforeRead) {
        eventMetrics := eventMetrics.(publisherFailures := eventMetrics.publisherFailures + 1);
        return PublishResult(0, 0, PendingCount(outboxEvents), Some(BeforeRead));
      }
      var pending := PendingRows(outboxEvents);
      if InjectedAt(o, AfterRead) {
        eventMetrics := eventMetrics.(publisherFailures := eventMetrics.publisherFailures + 1);
        return PublishResult(0, 0, |pending|, Some(AfterRead));
      }
      var published, deadLettered := 0, 0;
      ghost var whole := PublishRows(Snapshot(), pending, o, 0, 0);
      for k := 0 to |pending|
        invariant InRange(Snapshot(), pending)
        invariant PublishRows(Snapshot(), pending[k..], o, published, deadLettered) == whole
      {
        assert pending[k..][0] == pending[k] && pending[k..][1..] == pending[k + 1..];
        AttemptLength(Snapshot(), pending[k], o);
        var outcome := PublishRow(pending[k], o);
        match outcome
        case Crashed(point) =>
          return PublishResult(published, deadLettered, PendingCount(outboxEvents), Some(point));
        case Sent => published := published + 1;
        case Dead => deadLettered := deadLettered + 1;
        case Left =>
      }
      return PublishResult(published, deadLettered, PendingCount(outboxEvents), None);
    }

    method ConsumeEventIdempotent(d: DeliveryInput) returns (outcome: DeliveryOutcome)
      modifies this
      ensures (Snapshot(), outcome) == Consume(old(Snapshot()), d)
    {
      if d.event.tenantId != d.tenantId || !d.permitted {
        return Refused;
      }
      var key := KeyOf(d);
      var prior := FindKey(processedEvents, key);
      if prior < |processedEvents| {
        if !d.force {
          return AlreadyProcessed;
        }
        processedEvents := processedEvents[..prior] + processedEvents[prior + 1..];
      }
      if d.handlerThrows {
        deadLetters := deadLetters + [HandlerDeadLetter(d)];
        eventMetrics := eventMetrics.(consumerFailures := eventMetrics.consumerFailures + 1, dlqCount := eventMetrics.dlqCount + 1);
        return HandlerFailed;
      }
      processedEvents := processedEvents + [key];
      return Processed;
    }

    method RequestReplayOf(r: ReplayInput) returns (id: Option<Id>)
      modifies this
      ensures (Snapshot(), id) == RequestReplay(old(Snapshot()), r)
    {
      if (r.intent.Reexecute? && !r.permitted) || r.blankReason {
        return None;
      }
      for i := 0 to |r.deadLetterIds|
        invariant Snapshot() == old(Snapshot())
        invariant AllFound(deadLetters, r.deadLetterIds[..i], r.tenantId)
      {
        if FindDeadLetterId(deadLetters, r.deadLetterIds[i], r.tenantId) == |deadLetters| {
          return None;
        }
      }
      assert r.deadLetterIds[..|r.deadLetterIds|] == r.deadLetterIds;
      var request := ReplayRequest(nextId, r.tenantId, r.reason, r.intent, r.deadLetterIds,
                                   if r.intent.Reconstruction? then Approved else AwaitingApproval);
      nextId := nextId + 1;
      replayRequests := replayRequests + [request];
      return Some(request.id);
    }

    method ReplayDeadLetter(id: DeadLetterId, tenantId: string, reason: string) returns (found: bool)
      modifies this
      ensures (Snapshot(), found) == ReplayOne(old(Snapshot()), id, tenantId, reason)
    {
      var k := FindDeadLetterId(deadLetters, id, tenantId);
      if k == |deadLetters| {
        return false;
      }
      var i := FindRow(outboxEvents, deadLetters[k].outboxId);
      if i == |outboxEvents| {
        return false;
      }
      outboxEvents := outboxEvents[i := outboxEvents[i].(status := Pending, attempts := 0, lastError := None)];
      deadLetters := deadLetters[k := deadLetters[k].(status := ReplayApproved, replayed := true, remediation := Some(reason))];
      return true;
    }

    method ExecuteReplayRequest(tenantId: string, requestId: Id, permitted: bool) returns (replayed: Option<nat>)
      modifies this
      ensures (Snapshot(), replayed) == ExecuteReplay(old(Snapshot()), tenantId, requestId, permitted)
    {
      var k := FindRequest(replayRequests, requestId, tenantId);
      if !permitted || k == |replayRequests| || replayRequests[k].status.Executed? {
        return None;
      }
      var request := replayRequests[k];
      if request.intent.Reexecute? && request.status != Approved && request.status != AwaitingApproval {
        return None;
      }
      var n := 0;
      var ids := request.deadLetterIds;
      ghost var whole := ReplayAll(Snapshot(), ids, tenantId, request.reason, 0);
      for j := 0 to |ids|
        invariant ReplayAll(Snapshot(), ids[j..], tenantId, request.reason, n) == whole
        invariant replayRequests == old(replayRequests)
      {
        assert ids[j..][0] == ids[j] && ids[j..][1..] == ids[j + 1..];
        var found := ReplayDeadLetter(ids[j], tenantId, request.reason);
        if found {
          n := n + 1;
        }
      }
      replayRequests := replayRequests[k := request.(status := Executed)];
      eventMetrics := eventMetrics.(replays := eventMetrics.replays + n);
      return Some(n);
    }
  }
}
