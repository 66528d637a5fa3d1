/** In which order an aggregate's published events are read back. */
module OutboxOrder {
  import opened Options
  import opened Outbox
  import opened OutboxRuns

  predicate NeverDecreases(rows: seq<Row>) {
    forall i, j :: 0 <= i < j < |rows| ==> SequenceOf(rows[i]) <= SequenceOf(rows[j])
  }

  // ---------------------------------------------------------------- sorting

  lemma {:induction false} InsertElements(row: Row, rows: seq<Row>)
    ensures forall r :: r in InsertBySequence(row, rows) ==> r == row || r in rows
  {
    if rows != [] {
      InsertElements(row, rows[1..]);
    }
  }

  lemma {:induction false} InsertSorts(row: Row, rows: seq<Row>)
    requires NeverDecreases(rows)
    ensures NeverDecreases(InsertBySequence(row, rows))
  {
    if rows != [] && SequenceOf(row) > SequenceOf(rows[0]) {
      InsertSorts(row, rows[1..]);
      InsertElements(row, rows[1..]);
      HeadLowest(rows[0], InsertBySequence(row, rows[1..]));
    }
  }

  lemma HeadLowest(head: Row, rest: seq<Row>)
    requires NeverDecreases(rest) && forall r :: r in rest ==> SequenceOf(head) <= SequenceOf(r)
    ensures NeverDecreases([head] + rest)
  {
    var all := [head] + rest;
    forall i, j | 0 <= i < j < |all|
      ensures SequenceOf(all[i]) <= SequenceOf(all[j])
    {
      assert all[j] == rest[j - 1] && rest[j - 1] in rest;
      assert i > 0 ==> all[i] == rest[i - 1];
    }
  }

  lemma {:induction false} SortSorts(rows: seq<Row>)
    ensures NeverDecreases(SortBySequence(rows)) && forall r :: r in SortBySequence(rows) ==> r in rows
  {
    if rows != [] {
      SortSorts(rows[1..]);
      InsertSorts(rows[0], SortBySequence(rows[1..]));
      InsertElements(rows[0], SortBySequence(rows[1..]));
    }
  }

  lemma {:induction false} SortedStays(rows: seq<Row>)
    requires NeverDecreases(rows)
    ensures SortBySequence(rows) == rows
  {
    if rows != [] {
      SortedStays(rows[1..]);
      assert rows == [rows[0]] + rows[1..];
    }
  }

  /** Sorting leaves a list alone exactly when its numbers never decrease. */
  lemma SortChangesNothing(rows: seq<Row>)
    ensures SortBySequence(rows) == rows <==> NeverDecreases(rows)
  {
    SortSorts(rows);
    if NeverDecreases(rows) {
      SortedStays(rows);
    }
  }

  // ---------------------------------------------------------------- one aggregate in a run

  /** The aggregate's published events come out in commit order. */
  predicate InOrder(rows: seq<Row>, tenantId: string, aggregateId: string) {
    OrderedPublished(rows, tenantId, aggregateId) == Envelopes(PublishedOf(rows, tenantId, aggregateId))
  }

  predicate OfAggregate(row: Row, tenantId: string, aggregateId: string) {
    row.envelope.tenantId == tenantId && row.envelope.aggregateId == Some(aggregateId)
  }

  lemma {:induction false} PublishedAreRows(rows: seq<Row>, tenantId: string, aggregateId: string)
    ensures forall r :: r in PublishedOf(rows, tenantId, aggregateId) ==> r in rows && OfAggregate(r, tenantId, aggregateId)
  {
    if rows != [] {
      PublishedAreRows(rows[1..], tenantId, aggregateId);
    }
  }

  predicate DistinctEvents(rows: seq<Row>) {
    forall i, j :: 0 <= i < j < |rows| ==> rows[i].envelope.eventId != rows[j].envelope.eventId
  }

  /** Rows with the same envelopes, in the same order, are the same rows. */
  lemma EnvelopesTell(rows: seq<Row>, a: seq<Row>, b: seq<Row>)
    requires DistinctEvents(rows) && Envelopes(a) == Envelopes(b)
    requires (forall r :: r in a ==> r in rows) && (forall r :: r in b ==> r in rows)
    ensures a == b
  {
    assert |Envelopes(a)| == |a| && |Envelopes(b)| == |b|;
    forall k | 0 <= k < |a|
      ensures a[k] == b[k]
    {
      assert Envelopes(a)[k] == a[k].envelope && Envelopes(b)[k] == b[k].envelope;
      assert a[k] in a && b[k] in b;
      var i :| 0 <= i < |rows| && rows[i] == a[k];
      var j :| 0 <= j < |rows| && rows[j] == b[k];
    }
  }

  /** In every run: commit order exactly when the numbers of the aggregate's published rows never decrease. */
  lemma InOrderExactly(steps: seq<Step>, tenantId: string, aggregateId: string)
    ensures var rows := Run(steps).state.rows;
      InOrder(rows, tenantId, aggregateId) <==> NeverDecreases(PublishedOf(rows, tenantId, aggregateId))
  {
    var rows := Run(steps).state.rows;
    var published := PublishedOf(rows, tenantId, aggregateId);
    EveryRunStoreOk(steps);
    SortChangesNothing(published);
    SortSorts(published);
    PublishedAreRows(rows, tenantId, aggregateId);
    if InOrder(rows, tenantId, aggregateId) {
      EnvelopesTell(rows, SortBySequence(published), published);
    }
  }

  /** The aggregate's rows were all numbered under one key, or all without one. */
  predicate OneKey(rows: seq<Row>, tenantId: string, aggregateId: string, key: Option<string>) {
    forall i :: 0 <= i < |rows| && OfAggregate(rows[i], tenantId, aggregateId) ==> rows[i].orderingKey == key
  }

  lemma {:induction false} OneKeyNeverDecreases(
    rows: seq<Row>, sequences: map<string, nat>, tenantId: string, aggregateId: string, key: Option<string>)
    requires SequencesIncrease(rows) && SequencesBounded(rows, sequences) && OneKey(rows, tenantId, aggregateId, key)
    ensures NeverDecreases(PublishedOf(rows, tenantId, aggregateId))
  {
    if rows != [] {
      var rest := PublishedOf(rows[1..], tenantId, aggregateId);
      assert forall i :: 0 <= i < |rows| - 1 ==> rows[1..][i] == rows[i + 1];
      OneKeyNeverDecreases(rows[1..], sequences, tenantId, aggregateId, key);
      PublishedAreRows(rows[1..], tenantId, aggregateId);
      if OfAggregate(rows[0], tenantId, aggregateId) {
        FirstIsLowest(rows, sequences, rest, key);
      }
    }
  }

  /** The first row's number is not above those of later rows with its key. */
  lemma FirstIsLowest(rows: seq<Row>, sequences: map<string, nat>, later: seq<Row>, key: Option<string>)
    requires rows != [] && SequencesIncrease(rows) && SequencesBounded(rows, sequences) && rows[0].orderingKey == key
    requires forall r :: r in later ==> r in rows[1..]
    requires forall i :: 0 <= i < |rows| && rows[i] in later ==> rows[i].orderingKey == key
    ensures forall k :: 0 <= k < |later| ==> SequenceOf(rows[0]) <= SequenceOf(later[k])
  {
    forall k | 0 <= k < |later|
      ensures SequenceOf(rows[0]) <= SequenceOf(later[k])
    {
      assert later[k] in later;
      var j :| 0 <= j < |rows[1..]| && rows[1..][j] == later[k];
      assert rows[j + 1] == later[k];
    }
  }

  /** In every run an aggregate whose rows share one ordering key, or have none, is read in commit order. */
  lemma PublishedInCommitOrder(steps: seq<Step>, tenantId: string, aggregateId: string, key: Option<string>)
    requires OneKey(Run(steps).state.rows, tenantId, aggregateId, key)
    ensures InOrder(Run(steps).state.rows, tenantId, aggregateId)
  {
    var s := Run(steps).state;
    EveryRunStoreOk(steps);
    OneKeyNeverDecreases(s.rows, s.sequences, tenantId, aggregateId, key);
    SortedStays(PublishedOf(s.rows, tenantId, aggregateId));
  }

  // ---------------------------------------------------------------- the orderings of an aggregate's event types

  /** The ordering key of each event type, as the catalogue has it. */
  type Catalogue = map<string, Ordering>

  /** Whatever is committed is in the catalogue, and numbered as it says; for the aggregate only these types are. */
  predicate CommitsWith(steps: seq<Step>, catalogue: Catalogue, tenantId: string, aggregateId: string, types: set<string>) {
    forall k :: 0 <= k < |steps| && steps[k].CommitStep? ==> Catalogued(steps[k].commit, catalogue, tenantId, aggregateId, types)
  }

  predicate Catalogued(c: CommitInput, catalogue: Catalogue, tenantId: string, aggregateId: string, types: set<string>) {
    c.permitted ==>
      && c.eventType in catalogue && c.ordering == catalogue[c.eventType]
      && (Concerns(c, tenantId, aggregateId) ==> c.eventType in types)
  }

  predicate Concerns(c: CommitInput, tenantId: string, aggregateId: string) {
    c.tenantId == tenantId && c.aggregateId == Some(aggregateId)
  }

  /** The key an aggregate's event of some ordering is numbered under. */
  function KeyFor(ordering: Ordering, tenantId: string, aggregateId: string): Option<string> {
    match ordering
    case Unordered => None
    case ByAggregate => Some(tenantId + ":" + aggregateId)
    case ByTenant => Some(tenantId)
  }

  lemma StepKeepsKeys(t: Trace, step: Step, tenantId: string, aggregateId: string, key: Option<string>)
    requires OneKey(t.state.rows, tenantId, aggregateId, key)
    requires step.CommitStep? && step.commit.permitted && Concerns(step.commit, tenantId, aggregateId) ==>
      OrderingKey(step.commit) == key
    ensures OneKey(Apply(t, step).state.rows, tenantId, aggregateId, key)
  {
    match step
    case PublishStep(o) => PassKeepsIdentity(t.state, o);
    case ExecuteStep(tenant, id, may) =>
      var k := FindRequest(t.state.requests, id, tenant);
      if k < |t.state.requests| {
        ReplayAllFrame(t.state, t.state.requests[k].deadLetterIds, tenant, t.state.requests[k].reason, 0);
      }
    case _ =>
  }

  lemma PassKeepsIdentity(s: State, o: PublishOptions)
    ensures SameIdentity(s.rows, PublishPass(s, o).0.rows)
  {
    RowsKeepIdentity(s, PendingRows(s.rows), o, 0, 0);
  }

  lemma {:induction false} RowsKeepIdentity(s: State, ps: seq<nat>, o: PublishOptions, published: nat, dead: nat)
    requires InRange(s, ps)
    ensures SameIdentity(s.rows, PublishRows(s, ps, o, published, dead).0.rows)
    decreases |ps|
  {
    if ps != [] {
      var (t, outcome) := Attempt(s, ps[0], o);
      AttemptLength(s, ps[0], o);
      AttemptFrame(s, ps[0], o);
      match outcome
      case Crashed(_) =>
      case Sent => RowsKeepIdentity(t, ps[1..], o, published + 1, dead);
      case Dead => RowsKeepIdentity(t, ps[1..], o, published, dead + 1);
      case Left => RowsKeepIdentity(t, ps[1..], o, published, dead);
    }
  }

  lemma {:induction false} OneOrderingOneKey(
    steps: seq<Step>, catalogue: Catalogue, tenantId: string, aggregateId: string, types: set<string>, ordering: Ordering)
    requires CommitsWith(steps, catalogue, tenantId, aggregateId, types)
    requires forall x :: x in types && x in catalogue ==> catalogue[x] == ordering
    ensures OneKey(Run(steps).state.rows, tenantId, aggregateId, KeyFor(ordering, tenantId, aggregateId))
  {
    if steps != [] {
      var n := |steps| - 1;
      OneOrderingOneKey(steps[..n], catalogue, tenantId, aggregateId, types, ordering);
      assert steps[n].CommitStep? ==> Catalogued(steps[n].commit, catalogue, tenantId, aggregateId, types);
      StepKeepsKeys(Run(steps[..n]), steps[n], tenantId, aggregateId, KeyFor(ordering, tenantId, aggregateId));
    }
  }

  // ---------------------------------------------------------------- runs out of order

  const PLAIN_PASS := PublishOptions(3, {}, {}, None, false)

  function Commits(eventType: string, ordering: Ordering, tenantId: string, aggregateId: string): Step {
    CommitStep(CommitInput(eventType, tenantId, Some(aggregateId), ordering, true, Domain([], [], map[], map[]), false))
  }

  predicate AllPending(rows: seq<Row>, tenantId: string, aggregateId: string) {
    forall i :: 0 <= i < |rows| ==> rows[i].status.Pending? && OfAggregate(rows[i], tenantId, aggregateId)
  }

  /** A plain attempt publishes its row and changes no other. */
  lemma {:induction false} RowsPublish(s: State, ps: seq<nat>, published: nat, dead: nat)
    requires StillPending(s, ps)
    ensures var t := PublishRows(s, ps, PLAIN_PASS, published, dead).0;
      && SameIdentity(s.rows, t.rows)
      && (forall i :: 0 <= i < |s.rows| && i in ps ==> t.rows[i].status.Published?)
      && (forall i :: 0 <= i < |s.rows| && i !in ps ==> t.rows[i] == s.rows[i])
    decreases |ps|
  {
    if ps != [] {
      var (t, outcome) := Attempt(s, ps[0], PLAIN_PASS);
      assert outcome == Sent && t.rows[ps[0]].status.Published?;
      AttemptLength(s, ps[0], PLAIN_PASS);
      AttemptFrame(s, ps[0], PLAIN_PASS);
      AttemptKeepsRest(s, ps, PLAIN_PASS);
      RowsPublish(t, ps[1..], published + 1, dead);
      assert ps == [ps[0]] + ps[1..];
      forall i | 0 <= i < |s.rows|
        ensures i in ps <==> i == ps[0] || i in ps[1..]
      {
      }
    }
  }

  lemma AllPublished(s: State, tenantId: string, aggregateId: string)
    requires AllPending(s.rows, tenantId, aggregateId)
    ensures var t := PublishPass(s, PLAIN_PASS).0;
      SameIdentity(s.rows, t.rows) && PublishedOf(t.rows, tenantId, aggregateId) == t.rows
  {
    RowsPublish(s, PendingRows(s.rows), 0, 0);
    PublishedAll(PublishPass(s, PLAIN_PASS).0.rows, tenantId, aggregateId);
  }

  lemma {:induction false} PublishedAll(rows: seq<Row>, tenantId: string, aggregateId: string)
    requires forall i :: 0 <= i < |rows| ==> rows[i].status.Published? && OfAggregate(rows[i], tenantId, aggregateId)
    ensures PublishedOf(rows, tenantId, aggregateId) == rows
  {
    if rows != [] {
      PublishedAll(rows[1..], tenantId, aggregateId);
      assert [rows[0]] + rows[1..] == rows;
    }
  }

  /** Once everything is published, an aggregate with a number that decreases is read out of commit order. */
  lemma PublishedOutOfOrder(steps: seq<Step>, tenantId: string, aggregateId: string)
    requires AllPending(Run(steps).state.rows, tenantId, aggregateId) && !NeverDecreases(Run(steps).state.rows)
    ensures !InOrder(Run(steps + [PublishStep(PLAIN_PASS)]).state.rows, tenantId, aggregateId)
  {
    var s := Run(steps).state;
    RunSnoc(steps, PublishStep(PLAIN_PASS));
    AllPublished(s, tenantId, aggregateId);
    InOrderExactly(steps + [PublishStep(PLAIN_PASS)], tenantId, aggregateId);
    StillDecreases(s.rows, Run(steps + [PublishStep(PLAIN_PASS)]).state.rows);
  }

  lemma StillDecreases(rows: seq<Row>, rows': seq<Row>)
    requires SameIdentity(rows, rows') && !NeverDecreases(rows)
    ensures !NeverDecreases(rows')
  {
    var i, j :| 0 <= i < j < |rows| && SequenceOf(rows[i]) > SequenceOf(rows[j]);
    assert SequenceOf(rows'[i]) > SequenceOf(rows'[j]);
  }

  /** A commit adds a row with the key's next number. */
  lemma CommitAdds(steps: seq<Step>, eventType: string, ordering: Ordering, tenantId: string, aggregateId: string)
    requires AllPending(Run(steps).state.rows, tenantId, aggregateId)
    ensures var s, t := Run(steps).state, Run(steps + [Commits(eventType, ordering, tenantId, aggregateId)]).state;
      var key := KeyFor(ordering, tenantId, aggregateId);
      && AllPending(t.rows, tenantId, aggregateId)
      && |t.rows| == |s.rows| + 1 && t.rows[..|s.rows|] == s.rows
      && SequenceOf(t.rows[|s.rows|]) == (if key.Some? then LastSequence(s.sequences, key.value) + 1 else 0)
      && t.sequences == if key.Some? then s.sequences[key.value := LastSequence(s.sequences, key.value) + 1] else s.sequences
  {
    RunSnoc(steps, Commits(eventType, ordering, tenantId, aggregateId));
  }

  /** A numbered event and an unordered one after it. */
  lemma ThenUnordered(catalogue: Catalogue, tenantId: string, aggregateId: string, x: string, y: string) returns (steps: seq<Step>)
    requires x in catalogue && y in catalogue && !catalogue[x].Unordered? && catalogue[y].Unordered?
    ensures CommitsWith(steps, catalogue, tenantId, aggregateId, {x, y})
    ensures !InOrder(Run(steps).state.rows, tenantId, aggregateId)
  {
    var one := OneNumbered(catalogue, tenantId, aggregateId, x);
    CommitAdds(one, y, Unordered, tenantId, aggregateId);
    var two := one + [Commits(y, Unordered, tenantId, aggregateId)];
    var rows := Run(two).state.rows;
    assert rows[..1][0] == rows[0];
    assert SequenceOf(rows[0]) > SequenceOf(rows[1]);
    PublishedOutOfOrder(two, tenantId, aggregateId);
    steps := two + [PublishStep(PLAIN_PASS)];
  }

  lemma OneNumbered(catalogue: Catalogue, tenantId: string, aggregateId: string, x: string) returns (steps: seq<Step>)
    requires x in catalogue && !catalogue[x].Unordered?
    ensures CommitsWith(steps, catalogue, tenantId, aggregateId, {x})
    ensures var s := Run(steps).state; AllPending(s.rows, tenantId, aggregateId) && |s.rows| == 1 && SequenceOf(s.rows[0]) == 1
  {
    var none: seq<Step> := [];
    CommitAdds(none, x, catalogue[x], tenantId, aggregateId);
    steps := none + [Commits(x, catalogue[x], tenantId, aggregateId)];
  }

  /** Two events numbered by aggregate, and one numbered by tenant after them. */
  lemma ThenByTenant(catalogue: Catalogue, tenantId: string, aggregateId: string, x: string, y: string) returns (steps: seq<Step>)
    requires x in catalogue && y in catalogue && catalogue[x].ByAggregate? && catalogue[y].ByTenant?
    ensures CommitsWith(steps, catalogue, tenantId, aggregateId, {x, y})
    ensures !InOrder(Run(steps).state.rows, tenantId, aggregateId)
  {
    var two := TwoNumbered(catalogue, tenantId, aggregateId, x);
    CommitAdds(two, y, ByTenant, tenantId, aggregateId);
    var three := two + [Commits(y, ByTenant, tenantId, aggregateId)];
    var rows := Run(three).state.rows;
    assert rows[..2][1] == rows[1];
    assert SequenceOf(rows[1]) == 2 && SequenceOf(rows[2]) == 1;
    PublishedOutOfOrder(three, tenantId, aggregateId);
    steps := three + [PublishStep(PLAIN_PASS)];
  }

  lemma TwoNumbered(catalogue: Catalogue, tenantId: string, aggregateId: string, x: string) returns (steps: seq<Step>)
    requires x in catalogue && catalogue[x].ByAggregate?
    ensures CommitsWith(steps, catalogue, tenantId, aggregateId, {x})
    ensures var s := Run(steps).state;
      && AllPending(s.rows, tenantId, aggregateId) && |s.rows| == 2 && SequenceOf(s.rows[1]) == 2
      && LastSequence(s.sequences, tenantId) == 0
  {
    var none: seq<Step> := [];
    CommitAdds(none, x, ByAggregate, tenantId, aggregateId);
    var one := none + [Commits(x, ByAggregate, tenantId, aggregateId)];
    CommitAdds(one, x, ByAggregate, tenantId, aggregateId);
    steps := one + [Commits(x, ByAggregate, tenantId, aggregateId)];
    assert |tenantId + ":" + aggregateId| > |tenantId|;
  }

  ghost predicate AlwaysInOrder(catalogue: Catalogue, tenantId: string, aggregateId: string, types: set<string>) {
    forall steps: seq<Step> :: CommitsWith(steps, catalogue, tenantId, aggregateId, types) ==>
      InOrder(Run(steps).state.rows, tenantId, aggregateId)
  }

  lemma MixedOutOfOrder(catalogue: Catalogue, tenantId: string, aggregateId: string, x: string, y: string) returns (steps: seq<Step>)
    requires x in catalogue && y in catalogue && catalogue[x] != catalogue[y]
    ensures CommitsWith(steps, catalogue, tenantId, aggregateId, {x, y})
    ensures !InOrder(Run(steps).state.rows, tenantId, aggregateId)
  {
    match (catalogue[x], catalogue[y])
    case (_, Unordered) => steps := ThenUnordered(catalogue, tenantId, aggregateId, x, y);
    case (Unordered, _) => steps := ThenUnordered(catalogue, tenantId, aggregateId, y, x);
    case (ByAggregate, _) => steps := ThenByTenant(catalogue, tenantId, aggregateId, x, y);
    case (ByTenant, _) => steps := ThenByTenant(catalogue, tenantId, aggregateId, y, x);
  }

  lemma MoreTypes(steps: seq<Step>, catalogue: Catalogue, tenantId: string, aggregateId: string, some: set<string>, types: set<string>)
    requires CommitsWith(steps, catalogue, tenantId, aggregateId, some) && some <= types
    ensures CommitsWith(steps, catalogue, tenantId, aggregateId, types)
  {
    forall k | 0 <= k < |steps| && steps[k].CommitStep?
      ensures Catalogued(steps[k].commit, catalogue, tenantId, aggregateId, types)
    {
      assert Catalogued(steps[k].commit, catalogue, tenantId, aggregateId, some);
    }
  }

  /**
   * For a catalogue that stays as it is: an aggregate that only some event types are committed for is read back in commit
   * order in every run exactly when the catalogue has the same ordering for them all.
   */
  lemma InOrderIffOneOrdering(catalogue: Catalogue, tenantId: string, aggregateId: string, types: set<string>)
    requires types <= catalogue.Keys
    ensures AlwaysInOrder(catalogue, tenantId, aggregateId, types) <==>
      forall x, y :: x in types && y in types ==> catalogue[x] == catalogue[y]
  {
    if x, y :| x in types && y in types && catalogue[x] != catalogue[y] {
      var steps := MixedOutOfOrder(catalogue, tenantId, aggregateId, x, y);
      MoreTypes(steps, catalogue, tenantId, aggregateId, {x, y}, types);
    } else {
      var only := if x :| x in types then catalogue[x] else Unordered;
      forall steps: seq<Step> | CommitsWith(steps, catalogue, tenantId, aggregateId, types)
        ensures InOrder(Run(steps).state.rows, tenantId, aggregateId)
      {
        OneOrderingOneKey(steps, catalogue, tenantId, aggregateId, types, only);
        PublishedInCommitOrder(steps, tenantId, aggregateId, KeyFor(only, tenantId, aggregateId));
      }
    }
  }
}
