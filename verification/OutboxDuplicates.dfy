/** Exactly when an event gets onto the bus twice. */
module OutboxDuplicates {
  import opened Options
  import opened Outbox
  import opened OutboxRuns

  // ---------------------------------------------------------------- what a pass hands to the transport

  /** The publish call for the row is reached and does not fail. */
  predicate Sends(row: Row, o: PublishOptions) {
    && !StopsBefore(row, o)
    && !(row.envelope.eventId in o.failEventIds || InjectedFor(o, BeforePublish, row.envelope.eventId))
    && row.envelope.eventId !in o.throwing
  }

  predicate StopsBefore(row: Row, o: PublishOptions) {
    InjectedAt(o, DuringShutdown) || (InjectedFor(o, DuringRetry, row.envelope.eventId) && row.attempts > 0)
  }

  predicate StopsAfter(row: Row, o: PublishOptions) {
    Sends(row, o) && InjectedFor(o, AfterPublishBeforeMark, row.envelope.eventId)
  }

  /** The rows sent, of the rows at some positions, until a crash ends the pass. */
  function SentRows(rows: seq<Row>, ps: seq<nat>, o: PublishOptions): seq<Envelope>
    requires forall k :: 0 <= k < |ps| ==> ps[k] < |rows|
    decreases |ps|
  {
    if ps == [] || StopsBefore(rows[ps[0]], o) then []
    else
      (if Sends(rows[ps[0]], o) then [rows[ps[0]].envelope] else [])
      + (if StopsAfter(rows[ps[0]], o) then [] else SentRows(rows, ps[1..], o))
  }

  function SentBy(s: State, o: PublishOptions): seq<Envelope> {
    if InjectedAt(o, BeforeRead) || InjectedAt(o, AfterRead) then [] else SentRows(s.rows, PendingRows(s.rows), o)
  }

  /** The transport's bus and memory after some envelopes. */
  function Delivered(bus: seq<Envelope>, sent: set<Id>, es: seq<Envelope>, allow: bool): (seq<Envelope>, set<Id>)
    decreases |es|
  {
    if es == [] then (bus, sent)
    else if !allow && es[0].eventId in sent then Delivered(bus, sent, es[1..], allow)
    else Delivered(bus + [es[0]], sent + {es[0].eventId}, es[1..], allow)
  }

  predicate SameBus(s: State, t: State) {
    t.bus == s.bus && t.sent == s.sent
  }

  lemma FailSameBus(s: State, i: nat, o: PublishOptions, error: string)
    requires i < |s.rows|
    ensures SameBus(s, FailAttempt(s, i, o, error).0) && !FailAttempt(s, i, o, error).1.Crashed?
  {
  }

  /** One attempt sends or does not, and stops the pass or does not. */
  lemma AttemptSends(s: State, i: nat, o: PublishOptions)
    requires i < |s.rows|
    ensures var (t, outcome) := Attempt(s, i, o);
      && (outcome.Crashed? <==> StopsBefore(s.rows[i], o) || StopsAfter(s.rows[i], o))
      && (if Sends(s.rows[i], o) then SameBus(Send(s, s.rows[i].envelope, o.allowDuplicates), t) else SameBus(s, t))
  {
    if !StopsBefore(s.rows[i], o) {
      var t := CountAttempt(s, i);
      FailSameBus(t, i, o, "publisher_transport_failure");
      FailSameBus(t, i, o, "publisher_failed");
    }
  }

  lemma {:induction false} SameSentRows(rows: seq<Row>, rows': seq<Row>, ps: seq<nat>, o: PublishOptions)
    requires |rows| == |rows'| && forall k :: 0 <= k < |ps| ==> ps[k] < |rows| && rows'[ps[k]] == rows[ps[k]]
    ensures SentRows(rows', ps, o) == SentRows(rows, ps, o)
    decreases |ps|
  {
    if ps != [] {
      SameSentRows(rows, rows', ps[1..], o);
    }
  }

  /** The whole effect of a pass on the transport. */
  lemma {:induction false} RowsDeliver(s: State, ps: seq<nat>, o: PublishOptions, published: nat, dead: nat)
    requires StillPending(s, ps)
    ensures var t := PublishRows(s, ps, o, published, dead).0;
      (t.bus, t.sent) == Delivered(s.bus, s.sent, SentRows(s.rows, ps, o), o.allowDuplicates)
    decreases |ps|
  {
    if ps != [] {
      var (t, outcome) := Attempt(s, ps[0], o);
      AttemptLength(s, ps[0], o);
      AttemptSends(s, ps[0], o);
      AttemptKeepsRest(s, ps, o);
      AttemptFrame(s, ps[0], o);
      SameSentRows(s.rows, t.rows, ps[1..], o);
      DeliverFirst(s, t, s.rows[ps[0]], o, if StopsAfter(s.rows[ps[0]], o) then [] else SentRows(s.rows, ps[1..], o));
      match outcome
      case Crashed(_) =>
      case Sent => RowsDeliver(t, ps[1..], o, published + 1, dead);
      case Dead => RowsDeliver(t, ps[1..], o, published, dead + 1);
      case Left => RowsDeliver(t, ps[1..], o, published, dead);
    }
  }

  lemma DeliverFirst(s: State, t: State, row: Row, o: PublishOptions, rest: seq<Envelope>)
    requires if Sends(row, o) then SameBus(Send(s, row.envelope, o.allowDuplicates), t) else SameBus(s, t)
    ensures Delivered(s.bus, s.sent, (if Sends(row, o) then [row.envelope] else []) + rest, o.allowDuplicates)
         == Delivered(t.bus, t.sent, rest, o.allowDuplicates)
  {
    if Sends(row, o) {
      assert ([row.envelope] + rest)[1..] == rest;
    } else {
      assert [] + rest == rest;
    }
  }

  lemma PassDelivers(s: State, o: PublishOptions)
    ensures var t := PublishPass(s, o).0; (t.bus, t.sent) == Delivered(s.bus, s.sent, SentBy(s, o), o.allowDuplicates)
  {
    RowsDeliver(s, PendingRows(s.rows), o, 0, 0);
  }

  // ---------------------------------------------------------------- one pass

  /** What is sent a second time is something the transport remembers and drops. */
  predicate Safe(bus: seq<Envelope>, sent: set<Id>, es: seq<Envelope>, allow: bool) {
    forall k :: 0 <= k < |es| && OnBus(bus, es[k].eventId) ==> !allow && es[k].eventId in sent
  }

  predicate SafePass(s: State, o: PublishOptions) {
    Safe(s.bus, s.sent, SentBy(s, o), o.allowDuplicates)
  }

  lemma OnLongerBus(bus: seq<Envelope>, e: Envelope, id: Id)
    ensures OnBus(bus + [e], id) <==> OnBus(bus, id) || e.eventId == id
  {
    if OnBus(bus, id) {
      var k :| 0 <= k < |bus| && bus[k].eventId == id;
      assert (bus + [e])[k].eventId == id;
    }
    assert (bus + [e])[|bus|] == e;
  }

  lemma OneMore(bus: seq<Envelope>, e: Envelope)
    requires NoDuplicates(bus)
    ensures NoDuplicates(bus + [e]) <==> !OnBus(bus, e.eventId)
  {
    if k :| 0 <= k < |bus| && bus[k].eventId == e.eventId {
      assert (bus + [e])[k].eventId == (bus + [e])[|bus|].eventId;
    }
  }

  lemma {:induction false} BusGrows(bus: seq<Envelope>, sent: set<Id>, es: seq<Envelope>, allow: bool)
    ensures bus <= Delivered(bus, sent, es, allow).0
    ensures NoDuplicates(Delivered(bus, sent, es, allow).0) ==> NoDuplicates(bus)
    decreases |es|
  {
    if es != [] {
      if !allow && es[0].eventId in sent {
        BusGrows(bus, sent, es[1..], allow);
      } else {
        BusGrows(bus + [es[0]], sent + {es[0].eventId}, es[1..], allow);
      }
    }
  }

  lemma SafeNext(bus: seq<Envelope>, sent: set<Id>, es: seq<Envelope>, allow: bool)
    requires es != [] && NoDuplicates(es)
    ensures Safe(bus + [es[0]], sent + {es[0].eventId}, es[1..], allow) <==> Safe(bus, sent, es[1..], allow)
  {
    forall k | 0 <= k < |es[1..]|
      ensures OnBus(bus + [es[0]], es[1..][k].eventId) <==> OnBus(bus, es[1..][k].eventId)
      ensures es[1..][k].eventId in sent + {es[0].eventId} <==> es[1..][k].eventId in sent
    {
      assert es[k + 1].eventId != es[0].eventId;
      OnLongerBus(bus, es[0], es[1..][k].eventId);
    }
  }

  lemma SafeSplit(bus: seq<Envelope>, sent: set<Id>, es: seq<Envelope>, allow: bool)
    requires es != []
    ensures Safe(bus, sent, es, allow) <==>
      (OnBus(bus, es[0].eventId) ==> !allow && es[0].eventId in sent) && Safe(bus, sent, es[1..], allow)
  {
    assert forall k :: 0 < k < |es| ==> es[k] == es[1..][k - 1];
  }

  lemma {:induction false} DeliveredOnce(bus: seq<Envelope>, sent: set<Id>, es: seq<Envelope>, allow: bool)
    requires NoDuplicates(bus) && NoDuplicates(es)
    ensures NoDuplicates(Delivered(bus, sent, es, allow).0) <==> Safe(bus, sent, es, allow)
    decreases |es|
  {
    if es != [] {
      SafeSplit(bus, sent, es, allow);
      assert NoDuplicates(es[1..]);
      if !allow && es[0].eventId in sent {
        DeliveredOnce(bus, sent, es[1..], allow);
      } else {
        OneMore(bus, es[0]);
        SafeNext(bus, sent, es, allow);
        if OnBus(bus, es[0].eventId) {
          BusGrows(bus + [es[0]], sent + {es[0].eventId}, es[1..], allow);
        } else {
          DeliveredOnce(bus + [es[0]], sent + {es[0].eventId}, es[1..], allow);
        }
      }
    }
  }

  /** The rows sent are rows at those positions, each once. */
  lemma {:induction false} SentAreRows(rows: seq<Row>, nextId: Id, ps: seq<nat>, o: PublishOptions)
    requires IdsOk(rows, nextId)
    requires forall k :: 0 <= k < |ps| ==> ps[k] < |rows|
    requires forall j, k :: 0 <= j < k < |ps| ==> ps[j] < ps[k]
    ensures NoDuplicates(SentRows(rows, ps, o))
    ensures forall e :: e in SentRows(rows, ps, o) ==> exists k :: 0 <= k < |ps| && rows[ps[k]].envelope == e
    decreases |ps|
  {
    if ps != [] {
      SentAreRows(rows, nextId, ps[1..], o);
      var rest := SentRows(rows, ps[1..], o);
      forall e | e in rest
        ensures e.eventId != rows[ps[0]].envelope.eventId && exists k :: 0 <= k < |ps| && rows[ps[k]].envelope == e
      {
        var k :| 0 <= k < |ps[1..]| && rows[ps[1..][k]].envelope == e;
        assert ps[1..][k] == ps[k + 1];
      }
      FirstDistinct(rows[ps[0]].envelope, rest);
      assert rows[ps[0]].envelope == rows[ps[0]].envelope;
    }
  }

  lemma FirstDistinct(e: Envelope, rest: seq<Envelope>)
    requires NoDuplicates(rest) && forall f :: f in rest ==> f.eventId != e.eventId
    ensures NoDuplicates([e] + rest)
  {
    var all := [e] + rest;
    forall i, j | 0 <= i < j < |all|
      ensures all[i].eventId != all[j].eventId
    {
      assert all[j] == rest[j - 1] && rest[j - 1] in rest;
      assert i > 0 ==> all[i] == rest[i - 1];
    }
  }

  /** A pass over a bus without duplicates leaves none exactly when all it sends again is remembered and dropped. */
  lemma PassDuplicates(s: State, o: PublishOptions)
    requires IdsOk(s.rows, s.nextId)
    ensures NoDuplicates(PublishPass(s, o).0.bus) <==> NoDuplicates(s.bus) && SafePass(s, o)
  {
    PassDelivers(s, o);
    BusGrows(s.bus, s.sent, SentBy(s, o), o.allowDuplicates);
    if NoDuplicates(s.bus) {
      SentAreRows(s.rows, s.nextId, PendingRows(s.rows), o);
      DeliveredOnce(s.bus, s.sent, SentBy(s, o), o.allowDuplicates);
    }
  }

  // ---------------------------------------------------------------- every run

  lemma OtherStepsKeepBus(t: Trace, step: Step)
    requires !step.PublishStep?
    ensures Apply(t, step).state.bus == t.state.bus
  {
    if step.ExecuteStep? {
      var k := FindRequest(t.state.requests, step.requestId, step.requestTenant);
      if k < |t.state.requests| {
        ReplayAllFrame(t.state, t.state.requests[k].deadLetterIds, step.requestTenant, t.state.requests[k].reason, 0);
      }
    }
  }

  predicate SafeAt(steps: seq<Step>, k: nat)
    requires k < |steps|
  {
    steps[k].PublishStep? ==> SafePass(Run(steps[..k]).state, steps[k].options)
  }

  /** In every run, crashes, restarts, replays and allowed duplicates included: no event is on the bus twice exactly when each pass was safe. */
  lemma {:induction false} RunDuplicates(steps: seq<Step>)
    ensures NoDuplicates(Run(steps).state.bus) <==> forall k :: 0 <= k < |steps| ==> SafeAt(steps, k)
  {
    if steps != [] {
      var n := |steps| - 1;
      var before := steps[..n];
      RunDuplicates(before);
      forall k | 0 <= k < n
        ensures SafeAt(steps, k) <==> SafeAt(before, k)
      {
        assert before[..k] == steps[..k];
      }
      assert SafeAt(steps, n) <==> (steps[n].PublishStep? ==> SafePass(Run(before).state, steps[n].options));
      assert Run(steps) == Apply(Run(before), steps[n]);
      if steps[n].PublishStep? {
        EveryRunStoreOk(before);
        PassDuplicates(Run(before).state, steps[n].options);
      } else {
        OtherStepsKeepBus(Run(before), steps[n]);
      }
    }
  }

  /** A pass without faults: no crash, no failing event, no duplicates allowed. */
  predicate Plain(o: PublishOptions) {
    o.injection.None? && o.failEventIds == {} && o.throwing == {} && !o.allowDuplicates
  }

  /** A row that waits to be sent although its event was. */
  predicate PendingOnBus(row: Row, bus: seq<Envelope>) {
    row.status.Pending? && OnBus(bus, row.envelope.eventId)
  }

  lemma {:induction false} PlainSendsAll(rows: seq<Row>, ps: seq<nat>, o: PublishOptions)
    requires Plain(o) && forall k :: 0 <= k < |ps| ==> ps[k] < |rows|
    ensures |SentRows(rows, ps, o)| == |ps|
    ensures forall k :: 0 <= k < |ps| ==> SentRows(rows, ps, o)[k] == rows[ps[k]].envelope
    decreases |ps|
  {
    if ps != [] {
      PlainSendsAll(rows, ps[1..], o);
    }
  }

  /** With an empty memory a plain pass is safe exactly when nothing pending is on the bus. */
  lemma ForgetfulPass(s: State, o: PublishOptions)
    requires Plain(o) && s.sent == {}
    ensures SafePass(s, o) <==> forall i :: 0 <= i < |s.rows| ==> !PendingOnBus(s.rows[i], s.bus)
  {
    var ps := PendingRows(s.rows);
    PlainSendsAll(s.rows, ps, o);
    forall i | 0 <= i < |s.rows| && PendingOnBus(s.rows[i], s.bus)
      ensures !SafePass(s, o)
    {
      var k :| 0 <= k < |ps| && ps[k] == i;
      assert SentBy(s, o)[k] == s.rows[i].envelope;
    }
    forall k | 0 <= k < |ps|
      ensures OnBus(s.bus, SentBy(s, o)[k].eventId) ==> PendingOnBus(s.rows[ps[k]], s.bus)
    {
      assert SentBy(s, o)[k] == s.rows[ps[k]].envelope;
    }
  }

  /**
   * After any run, replacing the transport and publishing duplicates an event exactly when some row is pending although
   * its event was sent: left so by a crash, or made so by a replay.
   */
  lemma RestartHarmless(steps: seq<Step>, o: PublishOptions)
    requires Plain(o)
    ensures var s := Run(steps).state;
      NoDuplicates(PublishPass(s.(sent := {}), o).0.bus) <==>
        NoDuplicates(s.bus) && forall i :: 0 <= i < |s.rows| ==> !PendingOnBus(s.rows[i], s.bus)
  {
    var s := Run(steps).state;
    var t := s.(sent := {});
    EveryRunStoreOk(steps);
    PassDuplicates(t, o);
    ForgetfulPass(t, o);
  }

  // ---------------------------------------------------------------- which faults it takes

  /** The faults a run may use. */
  datatype Faults = Faults(restarts: bool, allows: bool, crashesAfterSend: bool, replays: bool)

  predicate Uses(step: Step, f: Faults) {
    && (step.RestartStep? ==> f.restarts)
    && (step.ExecuteStep? ==> f.replays)
    && (step.PublishStep? ==>
          (step.options.allowDuplicates ==> f.allows) && (InjectedAt(step.options, AfterPublishBeforeMark) ==> f.crashesAfterSend))
  }

  predicate Within(steps: seq<Step>, f: Faults) {
    forall k :: 0 <= k < |steps| ==> Uses(steps[k], f)
  }

  predicate NothingPendingOnBus(s: State) {
    forall i :: 0 <= i < |s.rows| ==> !PendingOnBus(s.rows[i], s.bus)
  }

  /** Without crashes after sending and without replays nothing is pending that was sent. */
  lemma {:induction false} SentIsMarked(steps: seq<Step>, f: Faults)
    requires Within(steps, f) && !f.crashesAfterSend && !f.replays
    ensures NothingPendingOnBus(Run(steps).state)
  {
    if steps != [] {
      var n := |steps| - 1;
      SentIsMarked(steps[..n], f);
      EveryRunStoreOk(steps[..n]);
      EveryRunBusOk(steps[..n]);
      StepMarks(Run(steps[..n]), steps[n], f);
    }
  }

  lemma StepMarks(t: Trace, step: Step, f: Faults)
    requires Uses(step, f) && !f.crashesAfterSend && !f.replays
    requires StoreOk(t.state) && BusFaithful(t.state) && NothingPendingOnBus(t.state)
    ensures NothingPendingOnBus(Apply(t, step).state)
  {
    match step
    case PublishStep(o) => PassMarks(t.state, o);
    case CommitStep(c) => CommitMarks(t.state, c);
    case _ => SameRows(t, step);
  }

  lemma SameRows(t: Trace, step: Step)
    requires step.DeliverStep? || step.RequestStep? || step.RestartStep?
    ensures Apply(t, step).state.rows == t.state.rows && Apply(t, step).state.bus == t.state.bus
  {
  }

  /** A new event is on no bus yet. */
  lemma CommitMarks(s: State, c: CommitInput)
    requires StoreOk(s) && BusFaithful(s) && NothingPendingOnBus(s)
    ensures NothingPendingOnBus(Commit(s, c))
  {
    var t := Commit(s, c);
    forall k | 0 <= k < |s.bus|
      ensures s.bus[k].eventId != s.nextId
    {
      assert Committed(s.rows, s.bus[k]);
    }
    assert forall i :: 0 <= i < |t.rows| ==> i == |s.rows| || t.rows[i] == s.rows[i];
  }

  lemma PassMarks(s: State, o: PublishOptions)
    requires IdsOk(s.rows, s.nextId) && NothingPendingOnBus(s) && !InjectedAt(o, AfterPublishBeforeMark)
    ensures NothingPendingOnBus(PublishPass(s, o).0)
  {
    RowsMark(s, PendingRows(s.rows), o, 0, 0);
  }

  lemma {:induction false} RowsMark(s: State, ps: seq<nat>, o: PublishOptions, published: nat, dead: nat)
    requires InRange(s, ps) && IdsOk(s.rows, s.nextId) && NothingPendingOnBus(s) && !InjectedAt(o, AfterPublishBeforeMark)
    ensures NothingPendingOnBus(PublishRows(s, ps, o, published, dead).0)
    decreases |ps|
  {
    if ps != [] {
      var (t, outcome) := Attempt(s, ps[0], o);
      AttemptLength(s, ps[0], o);
      AttemptFrame(s, ps[0], o);
      AttemptMarks(s, ps[0], o);
      match outcome
      case Crashed(_) =>
      case Sent => RowsMark(t, ps[1..], o, published + 1, dead);
      case Dead => RowsMark(t, ps[1..], o, published, dead + 1);
      case Left => RowsMark(t, ps[1..], o, published, dead);
    }
  }

  lemma SendMarks(s: State, i: nat, o: PublishOptions)
    requires i < |s.rows| && Sends(s.rows[i], o) && !StopsAfter(s.rows[i], o)
    ensures Attempt(s, i, o).0.rows[i].status.Published?
  {
  }

  lemma AttemptMarks(s: State, i: nat, o: PublishOptions)
    requires i < |s.rows| && IdsOk(s.rows, s.nextId) && NothingPendingOnBus(s) && !InjectedAt(o, AfterPublishBeforeMark)
    ensures |Attempt(s, i, o).0.rows| == |s.rows| && NothingPendingOnBus(Attempt(s, i, o).0)
  {
    var t := Attempt(s, i, o).0;
    AttemptFrame(s, i, o);
    AttemptSends(s, i, o);
    if Sends(s.rows[i], o) {
      SendMarks(s, i, o);
    } else {
      AttemptNotRevived(s, i, o);
    }
    forall j | 0 <= j < |t.rows|
      ensures !PendingOnBus(t.rows[j], t.bus)
    {
      assert !PendingOnBus(s.rows[j], s.bus);
      if j != i && Sends(s.rows[i], o) {
        OnLongerBus(s.bus, s.rows[i].envelope, s.rows[j].envelope.eventId);
        assert s.rows[j].envelope.eventId != s.rows[i].envelope.eventId;
      }
    }
  }

  /** A row that was not pending is not made so by an attempt. */
  lemma AttemptNotRevived(s: State, i: nat, o: PublishOptions)
    requires i < |s.rows| && !Sends(s.rows[i], o)
    ensures Attempt(s, i, o).0.rows[i].status.Pending? ==> s.rows[i].status.Pending?
  {
  }

  // ---------------------------------------------------------------- runs with duplicates

  const PING := CommitInput("platform.ping.v1", "t", None, Unordered, true, Domain([], [], map[], map[]), false)
  const PINGED := Envelope(0, "platform.ping.v1", "t", None)

  const PLAIN_PASS := PublishOptions(3, {}, {}, None, false)
  const CRASH_AFTER_SEND := PublishOptions(3, {}, {}, Some(Injection(AfterPublishBeforeMark, Some(0))), false)
  const REPEATING_PASS := PublishOptions(3, {}, {}, None, true)
  const FAILING_PASS := PublishOptions(1, {0}, {}, None, false)

  const REPLAY := ReplayInput("t", "again", false, Reconstruction, [OfRow(1)], true)

  /** The store with the one event of these runs. */
  predicate OneRow(s: State, pending: bool) {
    |s.rows| == 1 && s.rows[0].id == 1 && s.rows[0].envelope == PINGED
    && s.rows[0].status.Pending? == pending
  }

  lemma RowsOfOne(rows: seq<Row>)
    requires |rows| == 1 && rows[0].status.Pending?
    ensures PendingRows(rows) == [0]
  {
    assert rows[..0] == [];
  }

  lemma PassOfOne(s: State, o: PublishOptions)
    requires OneRow(s, true) && !InjectedAt(o, BeforeRead) && !InjectedAt(o, AfterRead)
    ensures PublishPass(s, o).0 == Attempt(s, 0, o).0
  {
    RowsOfOne(s.rows);
    assert [0][1..] == [];
    assert PublishPass(s, o) == PublishRows(s, [0], o, 0, 0);
  }

  lemma AfterCrash() returns (steps: seq<Step>)
    ensures Within(steps, Faults(false, false, true, false))
    ensures var s := Run(steps).state; OneRow(s, true) && s.bus == [PINGED]
  {
    var none: seq<Step> := [];
    RunSnoc(none, CommitStep(PING));
    var one := none + [CommitStep(PING)];
    var s := Run(one).state;
    assert s.rows == [Row(1, PINGED, 0, Pending, None, None, None)] && s.bus == [] && s.sent == {};
    steps := one + [PublishStep(CRASH_AFTER_SEND)];
    RunSnoc(one, PublishStep(CRASH_AFTER_SEND));
    CrashedSend(s);
  }

  lemma CrashedSend(s: State)
    requires OneRow(s, true) && s.bus == [] && s.sent == {}
    ensures var t := PublishPass(s, CRASH_AFTER_SEND).0; OneRow(t, true) && t.bus == [PINGED]
  {
    PassOfOne(s, CRASH_AFTER_SEND);
    assert [] + [PINGED] == [PINGED];
  }

  /** A row that went to the dead letters, with two requests to replay it. */
  lemma TwiceRequested() returns (steps: seq<Step>)
    ensures Within(steps, Faults(false, false, false, false))
    ensures BothRequested(Run(steps).state, Approved, Approved) && OneRow(Run(steps).state, false)
    ensures Run(steps).state.bus == [] && Run(steps).state.sent == {}
  {
    var two := OneDead();
    var three := two + [RequestStep(REPLAY)];
    RunSnoc(two, RequestStep(REPLAY));
    steps := three + [RequestStep(REPLAY)];
    RunSnoc(three, RequestStep(REPLAY));
    TwoRequests(Run(two).state);
  }

  lemma OneDead() returns (steps: seq<Step>)
    ensures Within(steps, Faults(false, false, false, false))
    ensures var s := Run(steps).state;
      OneRow(s, false) && Dead(s) && s.requests == [] && s.nextId == 2 && s.bus == [] && s.sent == {}
  {
    var none: seq<Step> := [];
    RunSnoc(none, CommitStep(PING));
    var one := none + [CommitStep(PING)];
    steps := one + [PublishStep(FAILING_PASS)];
    RunSnoc(one, PublishStep(FAILING_PASS));
    DeadLetters(Run(one).state);
  }

  predicate Dead(s: State) {
    |s.deadLetters| == 1 && s.deadLetters[0].id == OfRow(1) && s.deadLetters[0].outboxId == 1 && s.deadLetters[0].tenantId == "t"
  }

  lemma DeadLetters(s: State)
    requires OneRow(s, true) && s.rows[0].attempts == 0 && s.deadLetters == []
    ensures var t := PublishPass(s, FAILING_PASS).0;
      OneRow(t, false) && Dead(t) && t.bus == s.bus && t.sent == s.sent && t.requests == s.requests && t.nextId == s.nextId
  {
    PassOfOne(s, FAILING_PASS);
  }

  /** Two requests for the row, standing in some way. */
  predicate BothRequested(s: State, first: RequestStatus, second: RequestStatus) {
    && Dead(s)
    && s.requests == [
      ReplayRequest(2, "t", "again", Reconstruction, [OfRow(1)], first), ReplayRequest(3, "t", "again", Reconstruction, [OfRow(1)], second)]
  }

  lemma TwoRequests(s: State)
    requires Dead(s) && s.requests == [] && s.nextId == 2
    ensures var t := RequestReplay(RequestReplay(s, REPLAY).0, REPLAY).0;
      BothRequested(t, Approved, Approved) && t.rows == s.rows && t.bus == s.bus && t.sent == s.sent
  {
    assert AllFound(s.deadLetters, [OfRow(1)], "t");
  }

  /** Carrying out one of the requests makes the row pending. */
  lemma Replayed(s: State, id: Id, first: RequestStatus, second: RequestStatus)
    requires BothRequested(s, first, second) && |s.rows| == 1 && s.rows[0].id == 1 && s.rows[0].envelope == PINGED
    requires (id == 2 && first.Approved?) || (id == 3 && second.Approved?)
    ensures var t := ExecuteReplay(s, "t", id, true).0;
      && OneRow(t, true) && t.bus == s.bus && t.sent == s.sent
      && BothRequested(t, if id == 2 then Executed else first, if id == 3 then Executed else second)
  {
    var k := FindRequest(s.requests, id, "t");
    assert s.requests[0].id == 2 && s.requests[1].id == 3 && s.requests[0].tenantId == s.requests[1].tenantId == "t";
    assert k == id - 2;
    ReplayedRow(s, "again");
  }

  lemma ReplayedRow(s: State, reason: string)
    requires Dead(s) && |s.rows| == 1 && s.rows[0].id == 1 && s.rows[0].envelope == PINGED
    ensures var t := ReplayAll(s, [OfRow(1)], "t", reason, 0).0;
      OneRow(t, true) && t.bus == s.bus && t.sent == s.sent && Dead(t) && t.requests == s.requests
  {
    var ids := [OfRow(1)];
    assert ids[1..] == [];
    assert FindDeadLetterId(s.deadLetters, OfRow(1), "t") == 0 && FindRow(s.rows, 1) == 0;
  }

  lemma AfterReplay() returns (steps: seq<Step>)
    ensures Within(steps, Faults(false, false, false, true))
    ensures var s := Run(steps).state; OneRow(s, true) && s.bus == [PINGED]
  {
    var four := TwiceRequested();
    RunSnoc(four, ExecuteStep("t", 2, true));
    Replayed(Run(four).state, 2, Approved, Approved);
    var six := ThenSent(four + [ExecuteStep("t", 2, true)]);
    steps := six + [ExecuteStep("t", 3, true)];
    RunSnoc(six, ExecuteStep("t", 3, true));
    Replayed(Run(six).state, 3, Executed, Approved);
  }

  /** The pending row is sent and published. */
  lemma ThenSent(steps: seq<Step>) returns (more: seq<Step>)
    requires Within(steps, Faults(false, false, false, true))
    requires var s := Run(steps).state; OneRow(s, true) && s.bus == [] && s.sent == {} && BothRequested(s, Executed, Approved)
    ensures Within(more, Faults(false, false, false, true))
    ensures var s := Run(more).state;
      |s.rows| == 1 && s.rows[0].id == 1 && s.rows[0].envelope == PINGED && s.bus == [PINGED] && BothRequested(s, Executed, Approved)
  {
    more := steps + [PublishStep(PLAIN_PASS)];
    RunSnoc(steps, PublishStep(PLAIN_PASS));
    PassOfOne(Run(steps).state, PLAIN_PASS);
    assert [] + [PINGED] == [PINGED];
  }

  /** A pending row whose event is on the bus goes there again, through a new transport or one that allows it. */
  lemma SentAgain(steps: seq<Step>)
    requires var s := Run(steps).state; OneRow(s, true) && s.bus == [PINGED]
    ensures !NoDuplicates(Run(steps + [RestartStep] + [PublishStep(PLAIN_PASS)]).state.bus)
    ensures !NoDuplicates(Run(steps + [PublishStep(REPEATING_PASS)]).state.bus)
  {
    RunSnoc(steps, RestartStep);
    SentBySnoc(steps + [RestartStep], PLAIN_PASS);
    SentBySnoc(steps, REPEATING_PASS);
  }

  lemma SentBySnoc(steps: seq<Step>, o: PublishOptions)
    requires var s := Run(steps).state;
      OneRow(s, true) && s.bus == [PINGED] && ((o == PLAIN_PASS && s.sent == {}) || o == REPEATING_PASS)
    ensures !NoDuplicates(Run(steps + [PublishStep(o)]).state.bus)
  {
    RunSnoc(steps, PublishStep(o));
    OneTwice(Run(steps).state, o);
  }

  lemma OneTwice(s: State, o: PublishOptions)
    requires OneRow(s, true) && s.bus == [PINGED] && ((o == PLAIN_PASS && s.sent == {}) || o == REPEATING_PASS)
    ensures !NoDuplicates(PublishPass(s, o).0.bus)
  {
    PassOfOne(s, o);
    assert ([PINGED] + [PINGED])[0] == ([PINGED] + [PINGED])[1];
  }

  ghost predicate OnceUnder(f: Faults) {
    forall steps: seq<Step> :: Within(steps, f) ==> NoDuplicates(Run(steps).state.bus)
  }

  lemma Wider(steps: seq<Step>, f: Faults, g: Faults)
    requires Within(steps, f)
    requires (f.restarts ==> g.restarts) && (f.allows ==> g.allows) && (f.crashesAfterSend ==> g.crashesAfterSend) && (f.replays ==> g.replays)
    ensures Within(steps, g)
  {
  }

  lemma DuplicatesUnder(f: Faults)
    requires (f.restarts || f.allows) && (f.crashesAfterSend || f.replays)
    ensures !OnceUnder(f)
  {
    var steps: seq<Step>;
    if f.crashesAfterSend {
      steps := AfterCrash();
      Wider(steps, Faults(false, false, true, false), f);
    } else {
      steps := AfterReplay();
      Wider(steps, Faults(false, false, false, true), f);
    }
    DuplicatesAfter(steps, f);
  }

  lemma DuplicatesAfter(steps: seq<Step>, f: Faults)
    requires (f.restarts || f.allows) && Within(steps, f)
    requires var s := Run(steps).state; OneRow(s, true) && s.bus == [PINGED]
    ensures !OnceUnder(f)
  {
    SentAgain(steps);
    if f.restarts {
      OneMoreWithin(steps, RestartStep, f);
      OneMoreWithin(steps + [RestartStep], PublishStep(PLAIN_PASS), f);
      assert Within(steps + [RestartStep] + [PublishStep(PLAIN_PASS)], f);
    } else {
      OneMoreWithin(steps, PublishStep(REPEATING_PASS), f);
      assert Within(steps + [PublishStep(REPEATING_PASS)], f);
    }
  }

  lemma OneMoreWithin(steps: seq<Step>, step: Step, f: Faults)
    requires Within(steps, f) && Uses(step, f)
    ensures Within(steps + [step], f)
  {
  }

  /**
   * No run puts an event on the bus twice exactly when it takes no second transport and no allowed duplicates, or
   * neither a crash after sending nor a replay: one fault alone is harmless, one of each kind is not.
   */
  lemma DuplicatesNeedTwoFaults(f: Faults)
    ensures OnceUnder(f) <==> !((f.restarts || f.allows) && (f.crashesAfterSend || f.replays))
  {
    if (f.restarts || f.allows) && (f.crashesAfterSend || f.replays) {
      DuplicatesUnder(f);
    } else {
      forall steps: seq<Step> | Within(steps, f)
        ensures NoDuplicates(Run(steps).state.bus)
      {
        if f.restarts || f.allows {
          NothingRepeats(steps, f);
        } else {
          DeliveredToBus(steps);
        }
      }
    }
  }

  /** With nothing pending that was sent, every pass is safe. */
  lemma NothingRepeats(steps: seq<Step>, f: Faults)
    requires Within(steps, f) && !f.crashesAfterSend && !f.replays
    ensures NoDuplicates(Run(steps).state.bus)
  {
    forall k | 0 <= k < |steps|
      ensures SafeAt(steps, k)
    {
      if steps[k].PublishStep? {
        SentIsMarked(steps[..k], f);
        EveryRunStoreOk(steps[..k]);
        MarkedPassSafe(Run(steps[..k]).state, steps[k].options);
      }
    }
    RunDuplicates(steps);
  }

  lemma MarkedPassSafe(s: State, o: PublishOptions)
    requires IdsOk(s.rows, s.nextId) && NothingPendingOnBus(s)
    ensures SafePass(s, o)
  {
    var ps := PendingRows(s.rows);
    SentAreRows(s.rows, s.nextId, ps, o);
    forall k | 0 <= k < |SentBy(s, o)|
      ensures !OnBus(s.bus, SentBy(s, o)[k].eventId)
    {
      var e := SentBy(s, o)[k];
      assert e in SentRows(s.rows, ps, o);
      var j :| 0 <= j < |ps| && s.rows[ps[j]].envelope == e;
      assert !PendingOnBus(s.rows[ps[j]], s.bus);
    }
  }
}
