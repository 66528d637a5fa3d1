/** What commits, deliveries, replays and reads do, told from the state and the input alone. */
module OutboxEffects {
  import opened Options
  import opened Outbox
  import opened OutboxRuns
  import OutboxOrder

  // ---------------------------------------------------------------- commit

  /** A row that was just committed. */
  predicate FreshRow(row: Row, c: CommitInput) {
    && row.status.Pending? && row.attempts == 0 && row.lastError.None?
    && row.envelope.eventType == c.eventType && row.envelope.tenantId == c.tenantId && row.envelope.aggregateId == c.aggregateId
  }

  /** Without permission nothing changes. */
  lemma RefusedCommit(s: State, c: CommitInput)
    requires !c.permitted
    ensures Commit(s, c) == s
  {
  }

  /** A failing commit puts the containers back, keeps what was written to the objects in them, and adds nothing else. */
  lemma FailingCommit(s: State, c: CommitInput)
    requires c.permitted && c.fails
    ensures var t := Commit(s, c);
      && t.domain.instances == s.domain.instances && t.domain.tasks == s.domain.tasks && t.domain.payments == s.domain.payments
      && t.domain.fields == c.written.fields
      && t == s.(domain := t.domain, nextId := t.nextId, sequences := t.sequences)
  {
  }

  /** A commit that succeeds leaves the domain as written, with one row more, under identifiers that were never used. */
  lemma SuccessfulCommit(s: State, c: CommitInput)
    requires c.permitted && !c.fails
    ensures var t := Commit(s, c);
      && t.domain == c.written
      && |t.rows| == |s.rows| + 1 && t.rows[..|s.rows|] == s.rows && FreshRow(t.rows[|s.rows|], c)
      && t.rows[|s.rows|].id >= s.nextId && t.rows[|s.rows|].envelope.eventId >= s.nextId
      && t.rows[|s.rows|].id != t.rows[|s.rows|].envelope.eventId
      && t.rows[|s.rows|].id < t.nextId && t.rows[|s.rows|].envelope.eventId < t.nextId
      && t.metrics == s.metrics.(eventsCommitted := s.metrics.eventsCommitted + 1)
      && t == s.(domain := t.domain, rows := t.rows, metrics := t.metrics, nextId := t.nextId, sequences := t.sequences)
  {
  }

  /** The key a commit numbers its event under, if it does. */
  predicate NumberedUnder(c: CommitInput, key: string) {
    match c.ordering
    case Unordered => false
    case ByTenant => key == c.tenantId
    case ByAggregate => key == c.tenantId + ":" + (if c.aggregateId.Some? then c.aggregateId.value else "none")
  }

  /** Every permitted commit, failing ones included, takes the next number of its key, and leaves those of all other keys. */
  lemma CommitNumbers(s: State, c: CommitInput, key: string)
    requires c.permitted
    ensures var t := Commit(s, c);
      var last := if key in s.sequences then s.sequences[key] else 0;
      && (NumberedUnder(c, key) ==> key in t.sequences && t.sequences[key] == last + 1)
      && (!NumberedUnder(c, key) ==> (key in t.sequences <==> key in s.sequences) && (key in t.sequences ==> t.sequences[key] == last))
      && (!c.fails && |t.rows| == |s.rows| + 1 ==>
            var row := t.rows[|s.rows|];
            && (row.sequence.Some? <==> !c.ordering.Unordered?)
            && (NumberedUnder(c, key) ==> row.sequence == Some(last + 1) && row.orderingKey == Some(key)))
  {
  }

  /** The domain that the commits of a run leave: containers by the last one that succeeded, fields by the last one permitted. */
  function Written(steps: seq<Step>): Domain {
    if steps == [] then Domain([], [], map[], map[])
    else
      var before, step := Written(steps[..|steps| - 1]), steps[|steps| - 1];
      if !step.CommitStep? || !step.commit.permitted then before
      else if step.commit.fails then before.(fields := step.commit.written.fields)
      else step.commit.written
  }

  lemma StepWrites(t: Trace, step: Step)
    requires !step.CommitStep?
    ensures Apply(t, step).state.domain == t.state.domain
  {
    match step
    case PublishStep(o) => PassKeepsRequests(t.state, o);
    case ExecuteStep(tenant, id, may) =>
      var k := FindRequest(t.state.requests, id, tenant);
      if k < |t.state.requests| {
        ReplayAllFrame(t.state, t.state.requests[k].deadLetterIds, tenant, t.state.requests[k].reason, 0);
      }
    case _ =>
  }

  /** In every run the domain is what its commits wrote: a failing one changes no container, and nothing but commits does. */
  lemma {:induction false} DomainAsWritten(steps: seq<Step>)
    ensures Run(steps).state.domain == Written(steps)
  {
    if steps != [] {
      var before, step := steps[..|steps| - 1], steps[|steps| - 1];
      DomainAsWritten(before);
      if step.CommitStep? {
        CommitWrites(Run(before).state, step.commit);
      } else {
        StepWrites(Run(before), step);
      }
    }
  }

  lemma CommitWrites(s: State, c: CommitInput)
    ensures Commit(s, c).domain ==
      if !c.permitted then s.domain else if c.fails then s.domain.(fields := c.written.fields) else c.written
  {
  }

  // ---------------------------------------------------------------- consume

  /** The consumer of the delivery has already processed its event. */
  predicate Known(s: State, d: DeliveryInput) {
    ProcessedKey(d.tenantId, d.consumer, d.event.eventId) in s.processed
  }

  /** The event is the consumer's tenant's, and the consumer may have it. */
  predicate LetIn(d: DeliveryInput) {
    d.event.tenantId == d.tenantId && d.permitted
  }

  /** Which of the four outcomes a delivery has. */
  lemma DeliveryOutcomes(s: State, d: DeliveryInput)
    ensures var outcome := Consume(s, d).1;
      && (outcome.Refused? <==> !LetIn(d))
      && (outcome.AlreadyProcessed? <==> LetIn(d) && Known(s, d) && !d.force)
      && (outcome.HandlerFailed? <==> LetIn(d) && (!Known(s, d) || d.force) && d.handlerThrows)
      && (outcome.Processed? <==> LetIn(d) && (!Known(s, d) || d.force) && !d.handlerThrows)
  {
    KnownIsFound(s.processed, KeyOf(d));
  }

  lemma KnownIsFound(ks: seq<ProcessedKey>, key: ProcessedKey)
    ensures key in ks <==> FindKey(ks, key) < |ks|
  {
    var n := FindKey(ks, key);
    if n == |ks| {
      assert forall j :: 0 <= j < |ks| ==> ks[j] != key;
    }
  }

  /** What a delivery changes: one key, and one dead letter when the handler failed. */
  lemma DeliveryEffects(s: State, d: DeliveryInput)
    ensures var (t, outcome) := Consume(s, d);
      var key := ProcessedKey(d.tenantId, d.consumer, d.event.eventId);
      match outcome
      case Refused => t == s
      case AlreadyProcessed => t == s
      case Processed => OnceMore(s.processed, t.processed, key) && t == s.(processed := t.processed)
      case HandlerFailed =>
        && Once(s.processed, t.processed, key)
        && t.deadLetters == s.deadLetters + [FailureLetter(d)]
        && t == s.(processed := t.processed, deadLetters := t.deadLetters, metrics := s.metrics.(
             consumerFailures := s.metrics.consumerFailures + 1, dlqCount := s.metrics.dlqCount + 1))
  {
    KeyForgotten(s.processed, KeyOf(d));
    DeliveryCases(s, d, WithoutKey(s.processed, KeyOf(d)));
  }

  function WithoutKey(ks: seq<ProcessedKey>, key: ProcessedKey): seq<ProcessedKey> {
    var n := FindKey(ks, key);
    if n < |ks| then ks[..n] + ks[n + 1..] else ks
  }

  lemma DeliveryCases(s: State, d: DeliveryInput, kept: seq<ProcessedKey>)
    requires kept == WithoutKey(s.processed, KeyOf(d))
    ensures var (t, outcome) := Consume(s, d);
      match outcome
      case Refused => t == s
      case AlreadyProcessed => t == s
      case Processed => t == s.(processed := kept + [KeyOf(d)])
      case HandlerFailed =>
        t == s.(processed := kept, deadLetters := s.deadLetters + [FailureLetter(d)], metrics := s.metrics.(
             consumerFailures := s.metrics.consumerFailures + 1, dlqCount := s.metrics.dlqCount + 1))
  {
  }

  /** One occurrence of the key is gone, if there was any. */
  predicate Once(ks: seq<ProcessedKey>, ks': seq<ProcessedKey>, key: ProcessedKey) {
    multiset(ks') == multiset(ks) - multiset{key}
  }

  predicate OnceMore(ks: seq<ProcessedKey>, ks': seq<ProcessedKey>, key: ProcessedKey) {
    multiset(ks') == multiset(ks) - multiset{key} + multiset{key}
  }

  lemma KeyForgotten(ks: seq<ProcessedKey>, key: ProcessedKey)
    ensures var kept := WithoutKey(ks, key); Once(ks, kept, key) && OnceMore(ks, kept + [key], key)
  {
    var n := FindKey(ks, key);
    if n < |ks| {
      WithoutOne(ks, n);
    } else {
      assert key !in ks;
    }
  }

  /** A failed handler's dead letter: it tells the event and the consumer, and stands for one attempt. */
  function FailureLetter(d: DeliveryInput): DeadLetter {
    DeadLetter(OfDelivery(d.event.eventId, d.consumer), d.event.eventId, d.event.tenantId, d.event.eventId, d.consumer,
               "handler_failed", 1, Failed, false, None)
  }

  lemma WithoutOne(ks: seq<ProcessedKey>, n: nat)
    requires n < |ks|
    ensures multiset(ks[..n] + ks[n + 1..]) == multiset(ks) - multiset{ks[n]}
  {
    assert ks == ks[..n] + [ks[n]] + ks[n + 1..];
  }

  /** A delivery of a committed event that is let in and whose handler does not throw. */
  predicate GoodDelivery(s: State, step: Step) {
    && step.DeliverStep? && step.row < |s.rows| && step.permitted && !step.handlerThrows
    && s.rows[step.row].envelope.tenantId == step.tenantId
  }

  /** The key a delivery step is about. */
  predicate About(s: State, step: Step, key: ProcessedKey) {
    step.DeliverStep? && step.row < |s.rows| && key == ProcessedKey(step.tenantId, step.consumer, s.rows[step.row].envelope.eventId)
  }

  lemma GoodDeliveryCompletes(steps: seq<Step>, step: Step, key: ProcessedKey)
    requires GoodDelivery(Run(steps).state, step) && About(Run(steps).state, step, key)
    ensures Completions(Run(steps + [step]).deliveries, key) >= 1
  {
    var s := Run(steps).state;
    RunSnoc(steps, step);
    KeyIsThere(s, DeliveryOf(s, step));
    DeliveryBalance(steps + [step], key);
  }

  lemma KeyIsThere(s: State, d: DeliveryInput)
    requires LetIn(d) && !d.handlerThrows
    ensures KeyOf(d) in Consume(s, d).0.processed
  {
    DeliveryOutcomes(s, d);
    DeliveryEffects(s, d);
    var t := Consume(s, d).0;
    if Consume(s, d).1.Processed? {
      assert multiset(t.processed)[KeyOf(d)] >= 1;
    }
  }

  lemma {:induction false} CompletionsStay(steps: seq<Step>, k: nat, key: ProcessedKey)
    requires k <= |steps|
    ensures Completions(Run(steps[..k]).deliveries, key) <= Completions(Run(steps).deliveries, key)
    decreases |steps|
  {
    if k == |steps| {
      assert steps[..k] == steps;
    } else {
      var n := |steps| - 1;
      CompletionsStay(steps[..n], k, key);
      assert steps[..n][..k] == steps[..k];
      OneStepCompletes(Run(steps[..n]), steps[n], key);
    }
  }

  lemma OneStepCompletes(t: Trace, step: Step, key: ProcessedKey)
    ensures Completions(t.deliveries, key) <= Completions(Apply(t, step).deliveries, key)
  {
    if step.DeliverStep? && step.row < |t.state.rows| {
      var d := Log(t.state, DeliveryOf(t.state, step));
      assert (t.deliveries + [d])[..|t.deliveries|] == t.deliveries;
    }
  }

  /**
   * In every run, an event that was delivered once in its tenant to a permitted consumer whose handler did not throw has
   * been processed by that consumer: at least once, and by `CompletesOncePlusForced` no more than once without force.
   */
  lemma DeliveredIsProcessed(steps: seq<Step>, k: nat, key: ProcessedKey)
    requires k < |steps| && GoodDelivery(Run(steps[..k]).state, steps[k]) && About(Run(steps[..k]).state, steps[k], key)
    ensures Completions(Run(steps).deliveries, key) >= 1
  {
    GoodDeliveryCompletes(steps[..k], steps[k], key);
    assert steps[..k] + [steps[k]] == steps[..k + 1];
    CompletionsStay(steps, k + 1, key);
  }

  // ---------------------------------------------------------------- replay

  /** The dead letter an identifier stands for in a tenant: the first one with it. */
  predicate IsLetter(ds: seq<DeadLetter>, k: nat, id: DeadLetterId, tenantId: string) {
    && k < |ds| && ds[k].id == id && ds[k].tenantId == tenantId
    && forall j :: 0 <= j < k ==> !(ds[j].id == id && ds[j].tenantId == tenantId)
  }

  predicate HasLetter(ds: seq<DeadLetter>, id: DeadLetterId, tenantId: string) {
    exists k :: 0 <= k < |ds| && ds[k].id == id && ds[k].tenantId == tenantId
  }

  lemma {:induction false} LetterFound(ds: seq<DeadLetter>, id: DeadLetterId, tenantId: string)
    ensures var k := FindDeadLetterId(ds, id, tenantId);
      if HasLetter(ds, id, tenantId) then IsLetter(ds, k, id, tenantId) else k == |ds|
  {
    if ds != [] && !(ds[0].id == id && ds[0].tenantId == tenantId) {
      LetterFound(ds[1..], id, tenantId);
      var k := FindDeadLetterId(ds[1..], id, tenantId);
      assert forall j :: 0 < j < |ds| ==> ds[j] == ds[1..][j - 1];
    }
  }

  /** The request's letters exist in its tenant. */
  predicate LettersThere(ds: seq<DeadLetter>, ids: seq<DeadLetterId>, tenantId: string) {
    forall i :: 0 <= i < |ids| ==> HasLetter(ds, ids[i], tenantId)
  }

  /** A request is taken exactly when its reason says something, its letters exist and a reexecution is permitted. */
  lemma RequestTaken(s: State, r: ReplayInput)
    ensures var (t, id) := RequestReplay(s, r);
      && (id.Some? <==> !r.blankReason && (r.intent.Reexecute? ==> r.permitted) && LettersThere(s.deadLetters, r.deadLetterIds, r.tenantId))
      && (id.None? ==> t == s)
      && (id.Some? ==>
            && id.value >= s.nextId && t.nextId > id.value
            && t == s.(nextId := t.nextId, requests := s.requests + [ReplayRequest(
                 id.value, r.tenantId, r.reason, r.intent, r.deadLetterIds, if r.intent.Reexecute? then AwaitingApproval else Approved)]))
  {
    forall i | 0 <= i < |r.deadLetterIds|
      ensures HasLetter(s.deadLetters, r.deadLetterIds[i], r.tenantId)
         <==> FindDeadLetterId(s.deadLetters, r.deadLetterIds[i], r.tenantId) < |s.deadLetters|
    {
      LetterFound(s.deadLetters, r.deadLetterIds[i], r.tenantId);
    }
  }

  /** The letter an identifier stands for is about this row or event. */
  predicate Hits(ds: seq<DeadLetter>, id: DeadLetterId, tenantId: string, outboxId: Id) {
    exists k :: 0 <= k < |ds| && IsLetter(ds, k, id, tenantId) && ds[k].outboxId == outboxId
  }

  predicate RowIdsDistinct(rows: seq<Row>) {
    forall i, j :: 0 <= i < j < |rows| ==> rows[i].id != rows[j].id
  }

  /** A row back in the queue, as if it had never been tried. */
  function Anew(row: Row): Row {
    row.(status := Pending, attempts := 0, lastError := None)
  }

  function Remedied(d: DeadLetter, reason: string): DeadLetter {
    d.(status := ReplayApproved, replayed := true, remediation := Some(reason))
  }

  predicate HitsARow(s: State, id: DeadLetterId, tenantId: string) {
    exists i :: 0 <= i < |s.rows| && Hits(s.deadLetters, id, tenantId, s.rows[i].id)
  }

  lemma OneLetter(ds: seq<DeadLetter>, j: nat, k: nat, id: DeadLetterId, tenantId: string)
    requires IsLetter(ds, j, id, tenantId) && IsLetter(ds, k, id, tenantId)
    ensures j == k
  {
  }

  lemma ReplayOneExactly(s: State, id: DeadLetterId, tenantId: string, reason: string)
    requires RowIdsDistinct(s.rows)
    ensures var (t, found) := ReplayOne(s, id, tenantId, reason);
      && (found <==> HitsARow(s, id, tenantId))
      && |t.rows| == |s.rows| && |t.deadLetters| == |s.deadLetters|
      && (forall i :: 0 <= i < |s.rows| ==>
            t.rows[i] == if Hits(s.deadLetters, id, tenantId, s.rows[i].id) then Anew(s.rows[i]) else s.rows[i])
      && (forall k :: 0 <= k < |s.deadLetters| ==>
            t.deadLetters[k] == if IsLetter(s.deadLetters, k, id, tenantId) && IsRow(s.rows, s.deadLetters[k].outboxId)
                                then Remedied(s.deadLetters[k], reason) else s.deadLetters[k])
  {
    var k := FindDeadLetterId(s.deadLetters, id, tenantId);
    LetterFound(s.deadLetters, id, tenantId);
    if k < |s.deadLetters| {
      LetterHits(s, k, id, tenantId);
      RowFound(s.rows, s.deadLetters[k].outboxId);
    } else {
      forall i | 0 <= i < |s.rows|
        ensures !Hits(s.deadLetters, id, tenantId, s.rows[i].id)
      {
      }
    }
  }

  lemma LetterHits(s: State, k: nat, id: DeadLetterId, tenantId: string)
    requires IsLetter(s.deadLetters, k, id, tenantId)
    ensures forall outboxId :: Hits(s.deadLetters, id, tenantId, outboxId) <==> outboxId == s.deadLetters[k].outboxId
    ensures forall j :: 0 <= j < |s.deadLetters| && IsLetter(s.deadLetters, j, id, tenantId) ==> j == k
  {
    forall j | 0 <= j < |s.deadLetters| && IsLetter(s.deadLetters, j, id, tenantId)
      ensures j == k
    {
      OneLetter(s.deadLetters, j, k, id, tenantId);
    }
  }

  lemma RowFound(rows: seq<Row>, id: Id)
    ensures IsRow(rows, id) <==> FindRow(rows, id) < |rows|
  {
    var i := FindRow(rows, id);
    assert i < |rows| ==> rows[i].id == id;
  }

  /** Some of the identifiers stand for a letter about this row. */
  predicate AnyHits(ds: seq<DeadLetter>, ids: seq<DeadLetterId>, tenantId: string, outboxId: Id) {
    exists j :: 0 <= j < |ids| && Hits(ds, ids[j], tenantId, outboxId)
  }

  predicate AnyIsLetter(ds: seq<DeadLetter>, k: nat, ids: seq<DeadLetterId>, tenantId: string) {
    exists j :: 0 <= j < |ids| && IsLetter(ds, k, ids[j], tenantId)
  }

  /** How many of the identifiers stand for a letter about some row. */
  function HitCount(s: State, ids: seq<DeadLetterId>, tenantId: string): nat {
    if ids == [] then 0 else (if HitsARow(s, ids[0], tenantId) then 1 else 0) + HitCount(s, ids[1..], tenantId)
  }

  /** The rows that letters are about go back to the queue, and those letters say so. */
  predicate ReplayedAs(s: State, t: State, ids: seq<DeadLetterId>, tenantId: string, reason: string) {
    && |t.rows| == |s.rows| && |t.deadLetters| == |s.deadLetters|
    && (forall i :: 0 <= i < |s.rows| ==>
          t.rows[i] == if AnyHits(s.deadLetters, ids, tenantId, s.rows[i].id) then Anew(s.rows[i]) else s.rows[i])
    && (forall k :: 0 <= k < |s.deadLetters| ==>
          t.deadLetters[k] == if AnyIsLetter(s.deadLetters, k, ids, tenantId) && IsRow(s.rows, s.deadLetters[k].outboxId)
                              then Remedied(s.deadLetters[k], reason) else s.deadLetters[k])
  }

  /** Rows and letters that can be told apart as before. */
  predicate SameNames(s: State, t: State) {
    && |t.rows| == |s.rows| && (forall i :: 0 <= i < |s.rows| ==> t.rows[i].id == s.rows[i].id)
    && |t.deadLetters| == |s.deadLetters|
    && forall k :: 0 <= k < |s.deadLetters| ==>
      && t.deadLetters[k].id == s.deadLetters[k].id && t.deadLetters[k].tenantId == s.deadLetters[k].tenantId
      && t.deadLetters[k].outboxId == s.deadLetters[k].outboxId
  }

  lemma SameLetter(s: State, t: State, k: nat, id: DeadLetterId, tenantId: string)
    requires SameNames(s, t)
    ensures IsLetter(t.deadLetters, k, id, tenantId) <==> IsLetter(s.deadLetters, k, id, tenantId)
  {
  }

  lemma SameHits(s: State, t: State, id: DeadLetterId, tenantId: string, outboxId: Id)
    requires SameNames(s, t)
    ensures Hits(t.deadLetters, id, tenantId, outboxId) <==> Hits(s.deadLetters, id, tenantId, outboxId)
  {
    forall k
      ensures IsLetter(t.deadLetters, k, id, tenantId) <==> IsLetter(s.deadLetters, k, id, tenantId)
    {
      SameLetter(s, t, k, id, tenantId);
    }
  }

  lemma SameIsRow(s: State, t: State, id: Id)
    requires SameNames(s, t)
    ensures IsRow(t.rows, id) <==> IsRow(s.rows, id)
  {
    if i :| 0 <= i < |s.rows| && s.rows[i].id == id {
      assert t.rows[i].id == id;
    }
    if i :| 0 <= i < |t.rows| && t.rows[i].id == id {
      assert s.rows[i].id == id;
    }
  }

  lemma {:induction false} SameHitCount(s: State, t: State, ids: seq<DeadLetterId>, tenantId: string)
    requires SameNames(s, t)
    ensures HitCount(t, ids, tenantId) == HitCount(s, ids, tenantId)
  {
    if ids != [] {
      forall i | 0 <= i < |s.rows|
        ensures Hits(t.deadLetters, ids[0], tenantId, t.rows[i].id) <==> Hits(s.deadLetters, ids[0], tenantId, s.rows[i].id)
      {
        SameHits(s, t, ids[0], tenantId, s.rows[i].id);
      }
      SameHitCount(s, t, ids[1..], tenantId);
    }
  }

  lemma {:induction false} ReplayAllExactly(s: State, ids: seq<DeadLetterId>, tenantId: string, reason: string, n: nat)
    requires RowIdsDistinct(s.rows)
    ensures var (t, m) := ReplayAll(s, ids, tenantId, reason, n);
      ReplayedAs(s, t, ids, tenantId, reason) && m == n + HitCount(s, ids, tenantId)
    decreases |ids|
  {
    if ids != [] {
      var (u, found) := ReplayOne(s, ids[0], tenantId, reason);
      ReplayOneExactly(s, ids[0], tenantId, reason);
      assert SameNames(s, u);
      var m := if found then n + 1 else n;
      ReplayAllExactly(u, ids[1..], tenantId, reason, m);
      SameHitCount(s, u, ids[1..], tenantId);
      var t := ReplayAll(u, ids[1..], tenantId, reason, m).0;
      RowsReplayed(s, u, t, ids, tenantId, reason);
      LettersReplayed(s, u, t, ids, tenantId, reason);
    }
  }

  lemma RowsReplayed(s: State, u: State, t: State, ids: seq<DeadLetterId>, tenantId: string, reason: string)
    requires ids != [] && SameNames(s, u) && ReplayedAs(u, t, ids[1..], tenantId, reason)
    requires forall i :: 0 <= i < |s.rows| ==>
      u.rows[i] == if Hits(s.deadLetters, ids[0], tenantId, s.rows[i].id) then Anew(s.rows[i]) else s.rows[i]
    ensures forall i :: 0 <= i < |s.rows| ==>
      t.rows[i] == if AnyHits(s.deadLetters, ids, tenantId, s.rows[i].id) then Anew(s.rows[i]) else s.rows[i]
  {
    forall i | 0 <= i < |s.rows|
      ensures AnyHits(s.deadLetters, ids, tenantId, s.rows[i].id)
         <==> Hits(s.deadLetters, ids[0], tenantId, s.rows[i].id) || AnyHits(u.deadLetters, ids[1..], tenantId, s.rows[i].id)
    {
      AnyHitsSplit(s, u, ids, tenantId, s.rows[i].id);
    }
  }

  lemma AnyHitsSplit(s: State, u: State, ids: seq<DeadLetterId>, tenantId: string, outboxId: Id)
    requires ids != [] && SameNames(s, u)
    ensures AnyHits(s.deadLetters, ids, tenantId, outboxId)
       <==> Hits(s.deadLetters, ids[0], tenantId, outboxId) || AnyHits(u.deadLetters, ids[1..], tenantId, outboxId)
  {
    forall j | 0 < j < |ids|
      ensures Hits(u.deadLetters, ids[1..][j - 1], tenantId, outboxId) <==> Hits(s.deadLetters, ids[j], tenantId, outboxId)
    {
      SameHits(s, u, ids[j], tenantId, outboxId);
    }
    if j :| 0 <= j < |ids| && Hits(s.deadLetters, ids[j], tenantId, outboxId) {
      assert j > 0 ==> Hits(u.deadLetters, ids[1..][j - 1], tenantId, outboxId);
    }
    if j :| 0 <= j < |ids[1..]| && Hits(u.deadLetters, ids[1..][j], tenantId, outboxId) {
      assert Hits(s.deadLetters, ids[j + 1], tenantId, outboxId);
    }
  }

  lemma LettersReplayed(s: State, u: State, t: State, ids: seq<DeadLetterId>, tenantId: string, reason: string)
    requires ids != [] && SameNames(s, u) && ReplayedAs(u, t, ids[1..], tenantId, reason)
    requires forall k :: 0 <= k < |s.deadLetters| ==>
      u.deadLetters[k] == if IsLetter(s.deadLetters, k, ids[0], tenantId) && IsRow(s.rows, s.deadLetters[k].outboxId)
                          then Remedied(s.deadLetters[k], reason) else s.deadLetters[k]
    ensures forall k :: 0 <= k < |s.deadLetters| ==>
      t.deadLetters[k] == if AnyIsLetter(s.deadLetters, k, ids, tenantId) && IsRow(s.rows, s.deadLetters[k].outboxId)
                          then Remedied(s.deadLetters[k], reason) else s.deadLetters[k]
  {
    forall k | 0 <= k < |s.deadLetters|
      ensures AnyIsLetter(s.deadLetters, k, ids, tenantId)
         <==> IsLetter(s.deadLetters, k, ids[0], tenantId) || AnyIsLetter(u.deadLetters, k, ids[1..], tenantId)
      ensures IsRow(u.rows, u.deadLetters[k].outboxId) <==> IsRow(s.rows, s.deadLetters[k].outboxId)
    {
      AnyLetterSplit(s, u, k, ids, tenantId);
      SameIsRow(s, u, s.deadLetters[k].outboxId);
    }
  }

  lemma AnyLetterSplit(s: State, u: State, k: nat, ids: seq<DeadLetterId>, tenantId: string)
    requires ids != [] && SameNames(s, u)
    ensures AnyIsLetter(s.deadLetters, k, ids, tenantId)
       <==> IsLetter(s.deadLetters, k, ids[0], tenantId) || AnyIsLetter(u.deadLetters, k, ids[1..], tenantId)
  {
    forall j | 0 < j < |ids|
      ensures IsLetter(u.deadLetters, k, ids[1..][j - 1], tenantId) <==> IsLetter(s.deadLetters, k, ids[j], tenantId)
    {
      SameLetter(s, u, k, ids[j], tenantId);
    }
    if j :| 0 <= j < |ids| && IsLetter(s.deadLetters, k, ids[j], tenantId) {
      assert j > 0 ==> IsLetter(u.deadLetters, k, ids[1..][j - 1], tenantId);
    }
    if j :| 0 <= j < |ids[1..]| && IsLetter(u.deadLetters, k, ids[1..][j], tenantId) {
      assert IsLetter(s.deadLetters, k, ids[j + 1], tenantId);
    }
  }

  /** The request that an execution is about: the first one with the identifier in the tenant. */
  predicate IsRequest(rs: seq<ReplayRequest>, k: nat, id: Id, tenantId: string) {
    && k < |rs| && rs[k].id == id && rs[k].tenantId == tenantId
    && forall j :: 0 <= j < k ==> !(rs[j].id == id && rs[j].tenantId == tenantId)
  }

  predicate MayExecute(r: ReplayRequest, permitted: bool) {
    permitted && !r.status.Executed? && !(r.intent.Reexecute? && r.status.Rejected?)
  }

  /** Without a request, or one that may not be executed, nothing changes. */
  lemma ExecutionRefused(s: State, tenantId: string, requestId: Id, permitted: bool)
    requires forall k :: 0 <= k < |s.requests| && IsRequest(s.requests, k, requestId, tenantId) ==> !MayExecute(s.requests[k], permitted)
    ensures ExecuteReplay(s, tenantId, requestId, permitted) == (s, None)
  {
    var k := FindRequest(s.requests, requestId, tenantId);
    assert k < |s.requests| ==> IsRequest(s.requests, k, requestId, tenantId);
  }

  /** Otherwise exactly the rows that its letters are about are pending again, untried, and the request is executed. */
  lemma ExecutionReplays(s: State, tenantId: string, requestId: Id, k: nat)
    requires RowIdsDistinct(s.rows) && IsRequest(s.requests, k, requestId, tenantId) && MayExecute(s.requests[k], true)
    ensures var (t, n) := ExecuteReplay(s, tenantId, requestId, true);
      && ReplayedAs(s, t, s.requests[k].deadLetterIds, tenantId, s.requests[k].reason)
      && n == Some(HitCount(s, s.requests[k].deadLetterIds, tenantId))
      && t.requests == s.requests[k := s.requests[k].(status := Executed)]
      && t.metrics.replays == s.metrics.replays + n.value
      && t.bus == s.bus && t.sent == s.sent && t.processed == s.processed && t.domain == s.domain
      && t.sequences == s.sequences && t.nextId == s.nextId
  {
    var r := s.requests[k];
    var u := ReplayAll(s, r.deadLetterIds, tenantId, r.reason, 0).0;
    ExecutionShape(s, tenantId, requestId, k);
    ReplayAllExactly(s, r.deadLetterIds, tenantId, r.reason, 0);
    ReplayAllFrame(s, r.deadLetterIds, tenantId, r.reason, 0);
    SameReplayed(s, u, ExecuteReplay(s, tenantId, requestId, true).0, r.deadLetterIds, tenantId, r.reason);
  }

  lemma ExecutionShape(s: State, tenantId: string, requestId: Id, k: nat)
    requires IsRequest(s.requests, k, requestId, tenantId) && MayExecute(s.requests[k], true)
    ensures var (u, n) := ReplayAll(s, s.requests[k].deadLetterIds, tenantId, s.requests[k].reason, 0);
      ExecuteReplay(s, tenantId, requestId, true) ==
        (u.(requests := s.requests[k := s.requests[k].(status := Executed)], metrics := u.metrics.(replays := u.metrics.replays + n)), Some(n))
  {
    assert FindRequest(s.requests, requestId, tenantId) == k;
  }

  lemma SameReplayed(s: State, u: State, t: State, ids: seq<DeadLetterId>, tenantId: string, reason: string)
    requires ReplayedAs(s, u, ids, tenantId, reason) && t.rows == u.rows && t.deadLetters == u.deadLetters
    ensures ReplayedAs(s, t, ids, tenantId, reason)
  {
  }

  // ---------------------------------------------------------------- reading

  /** The row is a published one of the aggregate. */
  predicate ToRead(row: Row, tenantId: string, aggregateId: string) {
    row.status.Published? && row.envelope.tenantId == tenantId && row.envelope.aggregateId == Some(aggregateId)
  }

  lemma {:induction false} InsertedRows(row: Row, rows: seq<Row>)
    ensures multiset(InsertBySequence(row, rows)) == multiset(rows) + multiset{row}
  {
    if rows != [] {
      InsertedRows(row, rows[1..]);
      assert rows == [rows[0]] + rows[1..];
    }
  }

  lemma {:induction false} SortedRows(rows: seq<Row>)
    ensures multiset(SortBySequence(rows)) == multiset(rows)
  {
    if rows != [] {
      SortedRows(rows[1..]);
      InsertedRows(rows[0], SortBySequence(rows[1..]));
      assert rows == [rows[0]] + rows[1..];
    }
  }

  lemma {:induction false} PublishedRows(rows: seq<Row>, tenantId: string, aggregateId: string, row: Row)
    ensures multiset(PublishedOf(rows, tenantId, aggregateId))[row] == if ToRead(row, tenantId, aggregateId) then multiset(rows)[row] else 0
  {
    if rows != [] {
      PublishedRows(rows[1..], tenantId, aggregateId, row);
      assert rows == [rows[0]] + rows[1..];
    }
  }

  /**
   * What is read of an aggregate are the envelopes of its published rows in the tenant, each as often as it is there and no
   * other, and their numbers never decrease, an absent one counting as zero.
   */
  lemma ReadsPublished(rows: seq<Row>, tenantId: string, aggregateId: string) returns (read: seq<Row>)
    ensures OrderedPublished(rows, tenantId, aggregateId) == seq(|read|, i requires 0 <= i < |read| => read[i].envelope)
    ensures forall row :: multiset(read)[row] == if ToRead(row, tenantId, aggregateId) then multiset(rows)[row] else 0
    ensures forall i, j :: 0 <= i < j < |read| ==> NumberOf(read[i]) <= NumberOf(read[j])
  {
    var published := PublishedOf(rows, tenantId, aggregateId);
    read := SortBySequence(published);
    SortedRows(published);
    OutboxOrder.SortSorts(published);
    forall row
      ensures multiset(read)[row] == if ToRead(row, tenantId, aggregateId) then multiset(rows)[row] else 0
    {
      PublishedRows(rows, tenantId, aggregateId, row);
    }
    forall i, j | 0 <= i < j < |read|
      ensures NumberOf(read[i]) <= NumberOf(read[j])
    {
      assert SequenceOf(read[i]) <= SequenceOf(read[j]);
    }
  }

  function NumberOf(row: Row): nat {
    if row.sequence.Some? then row.sequence.value else 0
  }
}
