/** What a publishing pass does to each row, told from the row and the options alone. */
module OutboxOutcomes {
  import opened Options
  import opened Outbox
  import opened OutboxRuns

  // ---------------------------------------------------------------- what should become of a row

  /** The transport refuses the event: by a test option or an injected fault, or because its call throws. */
  predicate Fails(row: Row, o: PublishOptions) {
    || row.envelope.eventId in o.failEventIds
    || row.envelope.eventId in o.throwing
    || o.injection == Some(Injection(BeforePublish, Some(row.envelope.eventId)))
  }

  /** The attempt about to be made is the last one allowed. */
  predicate LastAttempt(row: Row, o: PublishOptions) {
    row.attempts + 1 >= o.maxAttempts
  }

  /** The error of a failure: a call that throws is only made when nothing else refuses the event. */
  function ErrorOf(row: Row, o: PublishOptions): string {
    if row.envelope.eventId in o.failEventIds || o.injection == Some(Injection(BeforePublish, Some(row.envelope.eventId)))
    then "publisher_transport_failure" else "publisher_failed"
  }

  /** The crash that the pass ends with when it comes to the row. */
  function CrashAt(row: Row, o: PublishOptions): Option<FailurePoint> {
    match o.injection
    case None => None
    case Some(Injection(point, eventId)) =>
      if point == DuringShutdown then Some(point)
      else if point == DuringRetry && eventId == Some(row.envelope.eventId) && row.attempts > 0 then Some(point)
      else if point == AfterPublishBeforeMark && eventId == Some(row.envelope.eventId) && !Fails(row, o) then Some(point)
      else None
  }

  /** One attempt more, and everything but the delivery state as it was. */
  predicate Tried(row: Row, row': Row) {
    && row'.attempts == row.attempts + 1
    && row'.id == row.id && row'.envelope == row.envelope && row'.orderingKey == row.orderingKey && row'.sequence == row.sequence
  }

  /** Published exactly when nothing failed; given up exactly when it failed at the last attempt; else pending with its error. */
  predicate Fared(row: Row, row': Row, o: PublishOptions) {
    && Tried(row, row')
    && (row'.status.Published? <==> !Fails(row, o))
    && (row'.status.DeadLettered? <==> Fails(row, o) && LastAttempt(row, o))
    && (row'.status.Pending? <==> Fails(row, o) && !LastAttempt(row, o))
    && row'.lastError == (if Fails(row, o) then Some(ErrorOf(row, o)) else row.lastError)
  }

  /** The row a pass crashed at: still pending, tried unless the crash came first, with the crash as its error. */
  predicate Stopped(row: Row, row': Row, point: FailurePoint) {
    match point
    case DuringShutdown => row' == row
    case DuringRetry => Tried(row, row') && row'.status.Pending? && row'.lastError == Some("publisher_crash_during_retry")
    case AfterPublishBeforeMark =>
      Tried(row, row') && row'.status.Pending? && row'.lastError == Some("publisher_crash_after_publish_before_mark")
    case _ => false
  }

  // ---------------------------------------------------------------- one attempt

  lemma FailureFares(s: State, i: nat, o: PublishOptions, error: string)
    requires i < |s.rows|
    ensures var (t, outcome) := FailAttempt(s, i, o, error);
      && |t.rows| == |s.rows| && t.rows[i].lastError == Some(error)
      && outcome == (if s.rows[i].attempts >= o.maxAttempts then Dead else Left)
      && t.rows[i].status == (if s.rows[i].attempts >= o.maxAttempts then DeadLettered else s.rows[i].status)
      && t.rows[i].attempts == s.rows[i].attempts && t.rows[i].envelope == s.rows[i].envelope && t.rows[i].id == s.rows[i].id
      && t.rows[i].orderingKey == s.rows[i].orderingKey && t.rows[i].sequence == s.rows[i].sequence
  {
  }

  lemma AttemptFails(s: State, i: nat, o: PublishOptions)
    requires i < |s.rows| && CrashAt(s.rows[i], o).None? && Fails(s.rows[i], o)
    ensures Attempt(s, i, o) == FailAttempt(CountAttempt(s, i), i, o, ErrorOf(s.rows[i], o))
  {
  }

  lemma AttemptSends(s: State, i: nat, o: PublishOptions)
    requires i < |s.rows| && CrashAt(s.rows[i], o).None? && !Fails(s.rows[i], o)
    ensures Attempt(s, i, o) == (MarkPublished(Send(CountAttempt(s, i), s.rows[i].envelope, o.allowDuplicates), i), Sent)
  {
  }

  lemma AttemptFares(s: State, i: nat, o: PublishOptions)
    requires i < |s.rows| && s.rows[i].status.Pending? && CrashAt(s.rows[i], o).None?
    ensures var (t, outcome) := Attempt(s, i, o);
      && |t.rows| == |s.rows| && Fared(s.rows[i], t.rows[i], o)
      && outcome == (if !Fails(s.rows[i], o) then Sent else if LastAttempt(s.rows[i], o) then Dead else Left)
  {
    if Fails(s.rows[i], o) {
      AttemptFails(s, i, o);
      FailureFares(CountAttempt(s, i), i, o, ErrorOf(s.rows[i], o));
    } else {
      AttemptSends(s, i, o);
    }
  }

  lemma AttemptStops(s: State, i: nat, o: PublishOptions)
    requires i < |s.rows| && s.rows[i].status.Pending? && CrashAt(s.rows[i], o).Some?
    ensures var (t, outcome) := Attempt(s, i, o);
      && |t.rows| == |s.rows| && outcome == Crashed(CrashAt(s.rows[i], o).value)
      && Stopped(s.rows[i], t.rows[i], CrashAt(s.rows[i], o).value)
  {
  }

  // ---------------------------------------------------------------- a list of rows

  /** No row before the k-th of the list crashes the pass. */
  predicate ReachedAt(rows: seq<Row>, ps: seq<nat>, o: PublishOptions, k: nat)
    requires k <= |ps| && forall j :: 0 <= j < |ps| ==> ps[j] < |rows|
  {
    forall j :: 0 <= j < k ==> CrashAt(rows[ps[j]], o).None?
  }

  predicate TurnOf(rows: seq<Row>, rows': seq<Row>, ps: seq<nat>, o: PublishOptions, k: nat)
    requires |rows'| == |rows| && k < |ps| && forall j :: 0 <= j < |ps| ==> ps[j] < |rows|
  {
    var row, row' := rows[ps[k]], rows'[ps[k]];
    if !ReachedAt(rows, ps, o, k) then row' == row
    else if CrashAt(row, o).Some? then Stopped(row, row', CrashAt(row, o).value)
    else Fared(row, row', o)
  }

  /** The rows of the list fare one after the other, until a crash. */
  predicate AllFare(rows: seq<Row>, rows': seq<Row>, ps: seq<nat>, o: PublishOptions, crashed: Option<FailurePoint>)
    requires forall j :: 0 <= j < |ps| ==> ps[j] < |rows|
  {
    && |rows'| == |rows|
    && (forall i :: 0 <= i < |rows| && i !in ps ==> rows'[i] == rows[i])
    && (forall k :: 0 <= k < |ps| ==> TurnOf(rows, rows', ps, o, k))
    && (forall k :: 0 <= k < |ps| && ReachedAt(rows, ps, o, k) && CrashAt(rows[ps[k]], o).Some? ==> crashed == CrashAt(rows[ps[k]], o))
    && (crashed.None? <==> ReachedAt(rows, ps, o, |ps|))
  }

  lemma {:induction false} RowsFare(s: State, ps: seq<nat>, o: PublishOptions, published: nat, dead: nat)
    requires StillPending(s, ps)
    ensures var (t, r) := PublishRows(s, ps, o, published, dead); AllFare(s.rows, t.rows, ps, o, r.crashed)
    decreases |ps|
  {
    if ps != [] {
      var (u, outcome) := Attempt(s, ps[0], o);
      AttemptFrame(s, ps[0], o);
      if CrashAt(s.rows[ps[0]], o).Some? {
        AttemptStops(s, ps[0], o);
        StopsFirst(s.rows, u.rows, ps, o);
      } else {
        AttemptFares(s, ps[0], o);
        AttemptKeepsRest(s, ps, o);
        var (p, d) := (if outcome == Sent then published + 1 else published, if outcome == Dead then dead + 1 else dead);
        RowsFare(u, ps[1..], o, p, d);
        var (t, r) := PublishRows(u, ps[1..], o, p, d);
        OneMoreFares(s.rows, u.rows, t.rows, ps, o, r.crashed);
      }
    }
  }

  lemma StopsFirst(rows: seq<Row>, rows': seq<Row>, ps: seq<nat>, o: PublishOptions)
    requires ps != [] && forall j :: 0 <= j < |ps| ==> ps[j] < |rows|
    requires forall j :: 0 < j < |ps| ==> ps[j] > ps[0]
    requires OthersUnchanged(rows, rows', ps[0])
    requires CrashAt(rows[ps[0]], o).Some? && Stopped(rows[ps[0]], rows'[ps[0]], CrashAt(rows[ps[0]], o).value)
    ensures AllFare(rows, rows', ps, o, CrashAt(rows[ps[0]], o))
  {
    forall k | 0 <= k < |ps|
      ensures ReachedAt(rows, ps, o, k) <==> k == 0
    {
      assert k > 0 ==> CrashAt(rows[ps[0]], o).Some?;
    }
  }

  lemma OneMoreFares(
    rows: seq<Row>, mid: seq<Row>, rows': seq<Row>, ps: seq<nat>, o: PublishOptions, crashed: Option<FailurePoint>)
    requires ps != [] && (forall j :: 0 <= j < |ps| ==> ps[j] < |rows|) && (forall i, j :: 0 <= i < j < |ps| ==> ps[i] < ps[j])
    requires OthersUnchanged(rows, mid, ps[0]) && CrashAt(rows[ps[0]], o).None? && Fared(rows[ps[0]], mid[ps[0]], o)
    requires AllFare(mid, rows', ps[1..], o, crashed)
    ensures AllFare(rows, rows', ps, o, crashed)
  {
    assert forall i :: i in ps <==> i == ps[0] || i in ps[1..];
    assert ps[0] !in ps[1..];
    forall k | 0 < k <= |ps|
      ensures ReachedAt(rows, ps, o, k) <==> ReachedAt(mid, ps[1..], o, k - 1)
    {
      ReachedLater(rows, mid, ps, o, k);
    }
    forall k | 0 <= k < |ps|
      ensures TurnOf(rows, rows', ps, o, k)
      ensures ReachedAt(rows, ps, o, k) && CrashAt(rows[ps[k]], o).Some? ==> crashed == CrashAt(rows[ps[k]], o)
    {
      if k > 0 {
        assert ps[1..][k - 1] == ps[k] && mid[ps[k]] == rows[ps[k]];
        assert TurnOf(mid, rows', ps[1..], o, k - 1);
      }
    }
  }

  lemma ReachedLater(rows: seq<Row>, mid: seq<Row>, ps: seq<nat>, o: PublishOptions, k: nat)
    requires 0 < k <= |ps| && (forall j :: 0 <= j < |ps| ==> ps[j] < |rows|) && (forall i, j :: 0 <= i < j < |ps| ==> ps[i] < ps[j])
    requires OthersUnchanged(rows, mid, ps[0]) && CrashAt(rows[ps[0]], o).None?
    ensures ReachedAt(rows, ps, o, k) <==> ReachedAt(mid, ps[1..], o, k - 1)
  {
    forall j | 0 < j < k
      ensures CrashAt(rows[ps[j]], o) == CrashAt(mid[ps[1..][j - 1]], o)
    {
      assert ps[1..][j - 1] == ps[j] > ps[0];
    }
  }

  // ---------------------------------------------------------------- a pass

  /** No pending row before a position crashes the pass. */
  predicate Reached(rows: seq<Row>, o: PublishOptions, n: nat)
    requires n <= |rows|
  {
    forall i :: 0 <= i < n && rows[i].status.Pending? ==> CrashAt(rows[i], o).None?
  }

  predicate StopsAtOnce(o: PublishOptions) {
    o.injection.Some? && (o.injection.value.point == BeforeRead || o.injection.value.point == AfterRead)
  }

  /** What should become of the row at some position. */
  predicate RowAfter(rows: seq<Row>, rows': seq<Row>, o: PublishOptions, i: nat)
    requires |rows'| == |rows| && i < |rows|
  {
    var row, row' := rows[i], rows'[i];
    if !row.status.Pending? || StopsAtOnce(o) || !Reached(rows, o, i) then row' == row
    else if CrashAt(row, o).Some? then Stopped(row, row', CrashAt(row, o).value)
    else Fared(row, row', o)
  }

  /** The row is the first one at which the pass crashes. */
  predicate CrashesAt(rows: seq<Row>, o: PublishOptions, i: nat)
    requires i < |rows|
  {
    rows[i].status.Pending? && Reached(rows, o, i) && CrashAt(rows[i], o).Some?
  }

  lemma ReachedInList(rows: seq<Row>, o: PublishOptions, k: nat)
    requires k <= |PendingRows(rows)|
    ensures var ps := PendingRows(rows);
      Reached(rows, o, if k < |ps| then ps[k] else |rows|) <==> ReachedAt(rows, ps, o, k)
  {
    var ps := PendingRows(rows);
    var n := if k < |ps| then ps[k] else |rows|;
    if ReachedAt(rows, ps, o, k) {
      forall i | 0 <= i < n && rows[i].status.Pending?
        ensures CrashAt(rows[i], o).None?
      {
        var j :| 0 <= j < |ps| && ps[j] == i;
        assert j < k;
      }
    } else {
      var j :| 0 <= j < k && CrashAt(rows[ps[j]], o).Some?;
      assert ps[j] < n && rows[ps[j]].status.Pending?;
    }
  }

  /**
   * In every state and for all options: a row that was not pending, or that a crash kept the pass from, is as it was; the
   * row a pass crashed at is left pending; and every other row is published, given up or left pending as `Fared` says.
   */
  lemma PassOutcomes(s: State, o: PublishOptions)
    ensures var t := PublishPass(s, o).0;
      |t.rows| == |s.rows| && forall i :: 0 <= i < |s.rows| ==> RowAfter(s.rows, t.rows, o, i)
  {
    if !StopsAtOnce(o) {
      var ps := PendingRows(s.rows);
      RowsFare(s, ps, o, 0, 0);
      var t := PublishPass(s, o).0;
      forall i | 0 <= i < |s.rows|
        ensures RowAfter(s.rows, t.rows, o, i)
      {
        if s.rows[i].status.Pending? {
          var k :| 0 <= k < |ps| && ps[k] == i;
          ReachedInList(s.rows, o, k);
          assert TurnOf(s.rows, t.rows, ps, o, k);
        }
      }
    }
  }

  /** A pass crashes exactly when its options say so from the start or at a pending row, and reports the first such point. */
  lemma PassCrashes(s: State, o: PublishOptions)
    ensures var crashed := PublishPass(s, o).1.crashed;
      && (crashed.None? <==> !StopsAtOnce(o) && Reached(s.rows, o, |s.rows|))
      && (StopsAtOnce(o) ==> crashed == Some(o.injection.value.point))
      && (!StopsAtOnce(o) ==> forall i :: 0 <= i < |s.rows| && CrashesAt(s.rows, o, i) ==> crashed == CrashAt(s.rows[i], o))
  {
    if !StopsAtOnce(o) {
      var ps := PendingRows(s.rows);
      RowsFare(s, ps, o, 0, 0);
      ReachedInList(s.rows, o, |ps|);
      forall i | 0 <= i < |s.rows| && CrashesAt(s.rows, o, i)
        ensures PublishPass(s, o).1.crashed == CrashAt(s.rows[i], o)
      {
        var k :| 0 <= k < |ps| && ps[k] == i;
        ReachedInList(s.rows, o, k);
      }
    }
  }

  // ---------------------------------------------------------------- the report and the counters

  datatype Fate = GetsPublished | GetsFailed | GetsGivenUp | GetsRetried

  predicate Meets(row: Row, o: PublishOptions, fate: Fate) {
    match fate
    case GetsPublished => !Fails(row, o)
    case GetsFailed => Fails(row, o)
    case GetsGivenUp => Fails(row, o) && LastAttempt(row, o)
    case GetsRetried => row.attempts > 0
  }

  /** How many pending rows meet a fate. */
  function HowMany(rows: seq<Row>, o: PublishOptions, fate: Fate): nat {
    if rows == [] then 0
    else
      var last := rows[|rows| - 1];
      HowMany(rows[..|rows| - 1], o, fate) + (if last.status.Pending? && Meets(last, o, fate) then 1 else 0)
  }

  function HowManyOf(rows: seq<Row>, ps: seq<nat>, o: PublishOptions, fate: Fate): nat
    requires forall j :: 0 <= j < |ps| ==> ps[j] < |rows|
  {
    if ps == [] then 0 else (if Meets(rows[ps[0]], o, fate) then 1 else 0) + HowManyOf(rows, ps[1..], o, fate)
  }

  lemma {:induction false} HowManySnoc(rows: seq<Row>, ps: seq<nat>, n: nat, o: PublishOptions, fate: Fate)
    requires n < |rows| && forall j :: 0 <= j < |ps| ==> ps[j] < |rows|
    ensures HowManyOf(rows, ps + [n], o, fate) == HowManyOf(rows, ps, o, fate) + (if Meets(rows[n], o, fate) then 1 else 0)
  {
    if ps == [] {
      assert ([] + [n])[1..] == [] && (ps + [n])[0] == n;
    } else {
      HowManySnoc(rows, ps[1..], n, o, fate);
      assert (ps + [n])[1..] == ps[1..] + [n];
    }
  }

  lemma {:induction false} SameHowMany(rows: seq<Row>, rows': seq<Row>, ps: seq<nat>, o: PublishOptions, fate: Fate)
    requires forall j :: 0 <= j < |ps| ==> ps[j] < |rows| && ps[j] < |rows'| && rows'[ps[j]] == rows[ps[j]]
    ensures HowManyOf(rows', ps, o, fate) == HowManyOf(rows, ps, o, fate)
  {
    if ps != [] {
      SameHowMany(rows, rows', ps[1..], o, fate);
    }
  }

  lemma {:induction false} HowManyPending(rows: seq<Row>, o: PublishOptions, fate: Fate)
    ensures HowManyOf(rows, PendingRows(rows), o, fate) == HowMany(rows, o, fate)
  {
    if rows != [] {
      var n := |rows| - 1;
      HowManyPending(rows[..n], o, fate);
      SameHowMany(rows[..n], rows, PendingRows(rows[..n]), o, fate);
      if rows[n].status.Pending? {
        HowManySnoc(rows, PendingRows(rows[..n]), n, o, fate);
      }
    }
  }

  /** What a list of rows adds to the report and the counters. */
  predicate Tallied(rows: seq<Row>, ps: seq<nat>, o: PublishOptions, before: Metrics, after: Metrics, published: nat, dead: nat)
    requires forall j :: 0 <= j < |ps| ==> ps[j] < |rows|
  {
    && published == HowManyOf(rows, ps, o, GetsPublished)
    && dead == HowManyOf(rows, ps, o, GetsGivenUp)
    && after.eventsPublished == before.eventsPublished + published
    && after.publisherFailures == before.publisherFailures + HowManyOf(rows, ps, o, GetsFailed)
    && after.retries == before.retries + HowManyOf(rows, ps, o, GetsRetried)
  }

  lemma AttemptTallied(s: State, i: nat, o: PublishOptions)
    requires i < |s.rows| && CrashAt(s.rows[i], o).None?
    ensures var m, m' := s.metrics, Attempt(s, i, o).0.metrics;
      && m'.eventsPublished == m.eventsPublished + (if Fails(s.rows[i], o) then 0 else 1)
      && m'.publisherFailures == m.publisherFailures + (if Fails(s.rows[i], o) then 1 else 0)
      && m'.retries == m.retries + (if s.rows[i].attempts > 0 then 1 else 0)
  {
    if Fails(s.rows[i], o) {
      AttemptFails(s, i, o);
    } else {
      AttemptSends(s, i, o);
    }
  }

  lemma {:induction false} RowsTallied(s: State, ps: seq<nat>, o: PublishOptions, published: nat, dead: nat)
    requires StillPending(s, ps) && PublishRows(s, ps, o, published, dead).1.crashed.None?
    ensures var (t, r) := PublishRows(s, ps, o, published, dead);
      r.published >= published && r.deadLettered >= dead
      && Tallied(s.rows, ps, o, s.metrics, t.metrics, r.published - published, r.deadLettered - dead)
    decreases |ps|
  {
    if ps != [] {
      var (u, outcome) := Attempt(s, ps[0], o);
      AttemptFrame(s, ps[0], o);
      if CrashAt(s.rows[ps[0]], o).Some? {
        AttemptStops(s, ps[0], o);
        assert false;
      }
      AttemptFares(s, ps[0], o);
      AttemptTallied(s, ps[0], o);
      AttemptKeepsRest(s, ps, o);
      RowsTallied(u, ps[1..], o, if outcome == Sent then published + 1 else published, if outcome == Dead then dead + 1 else dead);
      forall fate
        ensures HowManyOf(u.rows, ps[1..], o, fate) == HowManyOf(s.rows, ps[1..], o, fate)
      {
        SameHowMany(s.rows, u.rows, ps[1..], o, fate);
      }
    }
  }

  /** The report of a pass without a crash, and its counters: how many pending rows were published, given up, refused and retried. */
  lemma PassReports(s: State, o: PublishOptions)
    requires PublishPass(s, o).1.crashed.None?
    ensures var (t, r) := PublishPass(s, o);
      && r.published == HowMany(s.rows, o, GetsPublished)
      && r.deadLettered == HowMany(s.rows, o, GetsGivenUp)
      && t.metrics.eventsPublished == s.metrics.eventsPublished + HowMany(s.rows, o, GetsPublished)
      && t.metrics.publisherFailures == s.metrics.publisherFailures + HowMany(s.rows, o, GetsFailed)
      && t.metrics.retries == s.metrics.retries + HowMany(s.rows, o, GetsRetried)
  {
    var ps := PendingRows(s.rows);
    RowsTallied(s, ps, o, 0, 0);
    HowManyPending(s.rows, o, GetsPublished);
    HowManyPending(s.rows, o, GetsGivenUp);
    HowManyPending(s.rows, o, GetsFailed);
    HowManyPending(s.rows, o, GetsRetried);
  }

  // ---------------------------------------------------------------- the dead letters

  /** The dead letters about a row or an event. */
  function LettersOf(ds: seq<DeadLetter>, id: Id): seq<DeadLetter> {
    if ds == [] then []
    else LettersOf(ds[..|ds| - 1], id) + (if ds[|ds| - 1].outboxId == id then [ds[|ds| - 1]] else [])
  }

  /** The publisher's letter about a row is refreshed, or one is added that tells the row, its tenant, event, error and attempts. */
  predicate Told(ls: seq<DeadLetter>, ls': seq<DeadLetter>, row: Row) {
    var reason := if row.lastError.Some? then row.lastError.value else "unknown";
    || (exists j :: 0 <= j < |ls| && RefreshedAt(ls, ls', row, j))
    || ((forall j :: 0 <= j < |ls| ==> ls[j].consumer != PUBLISHER)
        && ls' == ls + [DeadLetter(OfRow(row.id), row.id, row.envelope.tenantId, row.envelope.eventId, PUBLISHER,
                                   reason, row.attempts, Failed, false, None)])
  }

  predicate RefreshedAt(ls: seq<DeadLetter>, ls': seq<DeadLetter>, row: Row, j: nat)
    requires j < |ls|
  {
    && ls[j].consumer == PUBLISHER && (forall k :: 0 <= k < j ==> ls[k].consumer != PUBLISHER)
    && ls' == ls[j := ls[j].(attempts := row.attempts, status := Failed,
                             failureReason := if row.lastError.Some? then row.lastError.value else "unknown")]
  }

  lemma LettersSnoc(ds: seq<DeadLetter>, d: DeadLetter, id: Id)
    ensures LettersOf(ds + [d], id) == LettersOf(ds, id) + (if d.outboxId == id then [d] else [])
  {
    assert (ds + [d])[..|ds|] == ds;
  }

  /** Where a letter is among those about its row. */
  lemma {:induction false} LetterUpdate(ds: seq<DeadLetter>, k: nat, d: DeadLetter, id: Id) returns (j: nat)
    requires k < |ds| && d.outboxId == ds[k].outboxId
    ensures id != d.outboxId ==> LettersOf(ds[k := d], id) == LettersOf(ds, id)
    ensures id == d.outboxId ==> j < |LettersOf(ds, id)| && LettersOf(ds, id)[j] == ds[k] && LettersOf(ds[k := d], id) == LettersOf(ds, id)[j := d]
    ensures id == d.outboxId ==> LettersOf(ds[..k], id) == LettersOf(ds, id)[..j]
  {
    var n := |ds| - 1;
    if k == n {
      assert ds[k := d][..n] == ds[..n];
      j := |LettersOf(ds[..n], id)|;
    } else {
      j := LetterUpdate(ds[..n], k, d, id);
      assert ds[k := d][..n] == ds[..n][k := d] && ds[..n][..k] == ds[..k];
    }
  }

  lemma {:induction false} LettersAreSome(ds: seq<DeadLetter>, id: Id)
    ensures forall l :: l in LettersOf(ds, id) ==> l in ds && l.outboxId == id
  {
    if ds != [] {
      LettersAreSome(ds[..|ds| - 1], id);
    }
  }

  lemma MoveTells(s: State, i: nat, id: Id)
    requires i < |s.rows|
    ensures var ds' := MoveToDlq(s, i).deadLetters;
      if id == s.rows[i].id then Told(LettersOf(s.deadLetters, id), LettersOf(ds', id), s.rows[i])
      else LettersOf(ds', id) == LettersOf(s.deadLetters, id)
  {
    var row, ds := s.rows[i], s.deadLetters;
    var k := FindDeadLetter(ds, row.id, PUBLISHER);
    if k < |ds| {
      var d := ds[k].(attempts := row.attempts, failureReason := ErrorText(row.lastError), status := Failed);
      var j := LetterUpdate(ds, k, d, id);
      if id == row.id {
        LettersAreSome(ds[..k], id);
        NoneBefore(ds, k, id, j);
        assert RefreshedAt(LettersOf(ds, id), LettersOf(ds[k := d], id), row, j);
      }
    } else {
      LettersAreSome(ds, id);
      LettersSnoc(ds, DeadLetter(OfRow(row.id), row.id, row.envelope.tenantId, row.envelope.eventId, PUBLISHER,
                                 ErrorText(row.lastError), row.attempts, Failed, false, None), id);
      forall j | 0 <= j < |LettersOf(ds, id)| && id == row.id
        ensures LettersOf(ds, id)[j].consumer != PUBLISHER
      {
        assert LettersOf(ds, id)[j] in LettersOf(ds, id);
      }
    }
  }

  lemma NoneBefore(ds: seq<DeadLetter>, k: nat, id: Id, j: nat)
    requires k <= |ds| && j <= |LettersOf(ds, id)| && LettersOf(ds[..k], id) == LettersOf(ds, id)[..j]
    requires forall i :: 0 <= i < k ==> !(ds[i].outboxId == id && ds[i].consumer == PUBLISHER)
    ensures forall i :: 0 <= i < j ==> LettersOf(ds, id)[i].consumer != PUBLISHER
  {
    LettersAreSome(ds[..k], id);
    forall i | 0 <= i < j
      ensures LettersOf(ds, id)[i].consumer != PUBLISHER
    {
      assert LettersOf(ds, id)[i] == LettersOf(ds[..k], id)[i];
      assert LettersOf(ds[..k], id)[i] in LettersOf(ds[..k], id);
    }
  }

  predicate SameNews(a: Row, b: Row) {
    a.id == b.id && a.envelope == b.envelope && a.lastError == b.lastError && a.attempts == b.attempts
  }

  lemma FailureTells(s: State, i: nat, o: PublishOptions, error: string, id: Id)
    requires i < |s.rows|
    ensures var (t, outcome) := FailAttempt(s, i, o, error);
      |t.rows| == |s.rows| &&
      if outcome.Dead? && id == s.rows[i].id then Told(LettersOf(s.deadLetters, id), LettersOf(t.deadLetters, id), t.rows[i])
      else LettersOf(t.deadLetters, id) == LettersOf(s.deadLetters, id)
  {
    var failed := PublisherFailed(WithError(s, i, error));
    MoveTells(failed, i, id);
    MovedNews(failed, i);
    if id == s.rows[i].id {
      ToldSame(LettersOf(s.deadLetters, id), LettersOf(MoveToDlq(failed, i).deadLetters, id), failed.rows[i], MoveToDlq(failed, i).rows[i]);
    }
  }

  lemma MovedNews(s: State, i: nat)
    requires i < |s.rows|
    ensures |MoveToDlq(s, i).rows| == |s.rows| && SameNews(s.rows[i], MoveToDlq(s, i).rows[i])
  {
  }

  lemma ToldSame(ls: seq<DeadLetter>, ls': seq<DeadLetter>, a: Row, b: Row)
    requires SameNews(a, b)
    ensures Told(ls, ls', a) ==> Told(ls, ls', b)
  {
    if j :| 0 <= j < |ls| && RefreshedAt(ls, ls', a, j) {
      assert RefreshedAt(ls, ls', b, j);
    }
  }

  lemma SentTellsNothing(s: State, i: nat, o: PublishOptions)
    requires i < |s.rows|
    ensures CrashAt(s.rows[i], o).None? && !Fails(s.rows[i], o) ==> Attempt(s, i, o).0.deadLetters == s.deadLetters
    ensures CrashAt(s.rows[i], o).Some? ==> Attempt(s, i, o).0.deadLetters == s.deadLetters
  {
  }

  /** An attempt tells about its own row exactly when it gives it up, and about no other. */
  lemma AttemptTells(s: State, i: nat, o: PublishOptions, id: Id)
    requires i < |s.rows| && s.rows[i].status.Pending?
    ensures var (t, outcome) := Attempt(s, i, o);
      |t.rows| == |s.rows| &&
      if outcome.Dead? && id == s.rows[i].id then Told(LettersOf(s.deadLetters, id), LettersOf(t.deadLetters, id), t.rows[i])
      else LettersOf(t.deadLetters, id) == LettersOf(s.deadLetters, id)
  {
    AttemptLength(s, i, o);
    if CrashAt(s.rows[i], o).Some? {
      AttemptStops(s, i, o);
      SentTellsNothing(s, i, o);
    } else if Fails(s.rows[i], o) {
      AttemptFails(s, i, o);
      FailureTells(CountAttempt(s, i), i, o, ErrorOf(s.rows[i], o), id);
    } else {
      AttemptFares(s, i, o);
      SentTellsNothing(s, i, o);
    }
  }

  predicate GivenUp(row: Row, row': Row) {
    row.status.Pending? && row'.status.DeadLettered?
  }

  /** The letters about an identifier after some rows had their turn. */
  predicate LettersAfter(s: State, t: State, ps: seq<nat>, id: Id)
    requires |t.rows| == |s.rows| && InRange(s, ps)
  {
    && (forall k :: 0 <= k < |ps| && s.rows[ps[k]].id == id && GivenUp(s.rows[ps[k]], t.rows[ps[k]]) ==>
          Told(LettersOf(s.deadLetters, id), LettersOf(t.deadLetters, id), t.rows[ps[k]]))
    && ((forall k :: 0 <= k < |ps| && s.rows[ps[k]].id == id ==> !GivenUp(s.rows[ps[k]], t.rows[ps[k]])) ==>
          LettersOf(t.deadLetters, id) == LettersOf(s.deadLetters, id))
  }

  lemma {:induction false} RowsTell(s: State, ps: seq<nat>, o: PublishOptions, published: nat, dead: nat, id: Id)
    requires StillPending(s, ps) && forall i, j :: 0 <= i < j < |s.rows| ==> s.rows[i].id != s.rows[j].id
    ensures var t := PublishRows(s, ps, o, published, dead).0; |t.rows| == |s.rows| && LettersAfter(s, t, ps, id)
    decreases |ps|
  {
    RowsFare(s, ps, o, published, dead);
    if ps != [] {
      var (u, outcome) := Attempt(s, ps[0], o);
      AttemptFrame(s, ps[0], o);
      AttemptTells(s, ps[0], o, id);
      if CrashAt(s.rows[ps[0]], o).Some? {
        AttemptStops(s, ps[0], o);
        StopsFirst(s.rows, u.rows, ps, o);
      } else {
        AttemptFares(s, ps[0], o);
        AttemptKeepsRest(s, ps, o);
        var (p, d) := (if outcome == Sent then published + 1 else published, if outcome == Dead then dead + 1 else dead);
        RowsTell(u, ps[1..], o, p, d, id);
        RowsFare(u, ps[1..], o, p, d);
        OneMoreTells(s, u, PublishRows(u, ps[1..], o, p, d).0, ps, outcome, id);
      }
    }
  }

  lemma OneMoreTells(s: State, u: State, t: State, ps: seq<nat>, outcome: Outcome, id: Id)
    requires ps != [] && InRange(s, ps) && (forall i, j :: 0 <= i < j < |ps| ==> ps[i] < ps[j])
    requires forall i, j :: 0 <= i < j < |s.rows| ==> s.rows[i].id != s.rows[j].id
    requires OthersUnchanged(s.rows, u.rows, ps[0]) && |t.rows| == |u.rows| && t.rows[ps[0]] == u.rows[ps[0]]
    requires s.rows[ps[0]].status.Pending? && u.rows[ps[0]].id == s.rows[ps[0]].id
    requires outcome.Dead? <==> u.rows[ps[0]].status.DeadLettered?
    requires if outcome.Dead? && id == s.rows[ps[0]].id then Told(LettersOf(s.deadLetters, id), LettersOf(u.deadLetters, id), u.rows[ps[0]])
             else LettersOf(u.deadLetters, id) == LettersOf(s.deadLetters, id)
    requires LettersAfter(u, t, ps[1..], id)
    ensures LettersAfter(s, t, ps, id)
  {
    forall k | 0 < k < |ps|
      ensures ps[1..][k - 1] == ps[k] != ps[0] && u.rows[ps[k]] == s.rows[ps[k]]
    {
    }
    if s.rows[ps[0]].id == id {
      forall k | 0 <= k < |ps[1..]|
        ensures u.rows[ps[1..][k]].id != id
      {
        assert ps[1..][k] == ps[k + 1];
      }
      assert LettersOf(t.deadLetters, id) == LettersOf(u.deadLetters, id);
    } else {
      forall k | 0 <= k < |ps| && s.rows[ps[k]].id == id && GivenUp(s.rows[ps[k]], t.rows[ps[k]])
        ensures Told(LettersOf(s.deadLetters, id), LettersOf(t.deadLetters, id), t.rows[ps[k]])
      {
        assert ps[1..][k - 1] == ps[k];
      }
      if forall k :: 0 <= k < |ps| && s.rows[ps[k]].id == id ==> !GivenUp(s.rows[ps[k]], t.rows[ps[k]]) {
        assert forall k :: 0 <= k < |ps[1..]| ==> ps[1..][k] == ps[k + 1];
      }
    }
  }

  /**
   * The letters about a row the pass gave up tell its last error and its attempts, in the one letter there was or a new
   * one; those about anything else are as they were.
   */
  lemma PassTells(s: State, o: PublishOptions, id: Id)
    requires IdsOk(s.rows, s.nextId)
    ensures var t := PublishPass(s, o).0;
      && |t.rows| == |s.rows|
      && (forall i :: 0 <= i < |s.rows| && s.rows[i].id == id && GivenUp(s.rows[i], t.rows[i]) ==>
            Told(LettersOf(s.deadLetters, id), LettersOf(t.deadLetters, id), t.rows[i]))
      && ((forall i :: 0 <= i < |s.rows| && s.rows[i].id == id ==> !GivenUp(s.rows[i], t.rows[i])) ==>
            LettersOf(t.deadLetters, id) == LettersOf(s.deadLetters, id))
  {
    if !StopsAtOnce(o) {
      var ps := PendingRows(s.rows);
      RowsTell(s, ps, o, 0, 0, id);
      forall i | 0 <= i < |s.rows| && s.rows[i].status.Pending?
        ensures exists k :: 0 <= k < |ps| && ps[k] == i
      {
      }
    }
  }
}
