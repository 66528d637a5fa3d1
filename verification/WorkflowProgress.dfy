/**
 * When a workflow instance can still be decided: exactly while one of its tasks is pending and the authority to decide it
 * has not run out. The clock never goes back, and nothing in the program extends the authority that a start task is given.
 */
module WorkflowProgress {
  import opened Options
  import opened Governance
  import opened WorkflowHistory
  import opened WorkflowRuns

  predicate PendingAt(s: State, i: nat, t: nat)
    requires i < |s.instances| && t < |s.tasks|
  {
    s.tasks[t].instanceId == s.instances[i].id && s.tasks[t].status.PendingTask?
  }

  /** A pending task of the instance that may still be decided when the clock reads c. */
  predicate OpenAt(s: State, i: nat, t: nat, c: int)
    requires i < |s.instances| && t < |s.tasks|
  {
    PendingAt(s, i, t) && (s.tasks[t].authorityExpiresAt.None? || c <= s.tasks[t].authorityExpiresAt.value)
  }

  predicate HasOpen(s: State, i: nat, c: int)
    requires i < |s.instances|
  {
    exists t :: 0 <= t < |s.tasks| && OpenAt(s, i, t, c)
  }

  predicate ReadsClock(step: Step) {
    step.StartStep? || step.CompleteStep? || step.EscalateStep?
  }

  /** A clock that reads c or later in every step, and goes back from none to the next. */
  predicate ClockFrom(steps: seq<Step>, c: int) {
    && (forall k :: 0 <= k < |steps| && ReadsClock(steps[k]) ==> c <= steps[k].now)
    && (forall j, k :: 0 <= j < k < |steps| && ReadsClock(steps[j]) && ReadsClock(steps[k]) ==> steps[j].now <= steps[k].now)
  }

  /** The steps take another decision on the instance. */
  predicate MovesBy(s: State, more: seq<Step>, i: nat)
    requires i < |s.instances|
  {
    i < |Run(s, more).instances| && |Taken(Run(s, more), i)| > |Taken(s, i)|
  }

  /** Some steps from c on, with whatever principals and without cancelling the instance, take another decision on it. */
  ghost predicate CanMoveFrom(s: State, i: nat, c: int)
    requires i < |s.instances|
  {
    exists more: seq<Step> :: ClockFrom(more, c) && NotCancelled(more, s.instances[i].id) && MovesBy(s, more, i)
  }

  // ---------------------------------------------------------------- nothing open, nothing moves

  /** The instance has taken no decision, and has nothing open that was not open before. */
  predicate Stays(s: State, s': State, i: nat, c: int)
    requires i < |s.instances|
  {
    && i < |s'.instances| && s'.instances[i].id == s.instances[i].id
    && Taken(s', i) == Taken(s, i) && (HasOpen(s', i, c) ==> HasOpen(s, i, c))
  }

  /** The instance and its tasks are left alone, but for the instance's own fields. */
  predicate LeftAlone(s: State, s': State, i: nat)
    requires i < |s.instances|
  {
    && i < |s'.instances| && s'.instances[i].id == s.instances[i].id
    && Untouched(s.tasks, s'.tasks, s.instances[i].id)
  }

  lemma LeftAloneStays(s: State, s': State, i: nat, c: int)
    requires i < |s.instances| && LeftAlone(s, s', i)
    ensures Stays(s, s', i, c)
  {
    SameWalk(s.tasks, s'.tasks, Positions(s.tasks, s.instances[i].id));
    if HasOpen(s', i, c) {
      var t :| 0 <= t < |s'.tasks| && OpenAt(s', i, t, c);
      var u := TaskBefore(s.tasks, s'.tasks, s.instances[i].id, t);
      assert OpenAt(s, i, u, c);
    }
  }

  lemma TaskBefore(ts: seq<Task>, ts': seq<Task>, id: Id, t: nat) returns (u: nat)
    requires Untouched(ts, ts', id) && t < |ts'| && ts'[t].instanceId == id
    ensures u < |ts| && ts[u] == ts'[t]
  {
    var ps := Positions(ts', id);
    var k :| 0 <= k < |ps| && ps[k] == t;
    u := Positions(ts, id)[k];
  }

  lemma QuietStays(s: State, s': State, i: nat, c: int)
    requires i < |s.instances|
    requires |s'.instances| == |s.instances| && s'.instances[i].id == s.instances[i].id
    requires |s'.tasks| == |s.tasks| && forall t :: 0 <= t < |s.tasks| ==> QuietChange(s.tasks[t], s'.tasks[t])
    ensures Stays(s, s', i, c)
  {
    QuietPositions(s.tasks, s'.tasks, s.instances[i].id);
    QuietWalk(s.tasks, s'.tasks, Positions(s.tasks, s.instances[i].id));
    if HasOpen(s', i, c) {
      var t :| 0 <= t < |s'.tasks| && OpenAt(s', i, t, c);
      OpenBefore(s.tasks[t], s'.tasks[t]);
      assert OpenAt(s, i, t, c);
    }
  }

  lemma OpenBefore(t: Task, t': Task)
    requires QuietChange(t, t') && t'.status.PendingTask?
    ensures t' == t
  {
  }

  lemma QuietPositions(ts: seq<Task>, ts': seq<Task>, id: Id)
    requires |ts'| == |ts| && forall t :: 0 <= t < |ts| ==> QuietChange(ts[t], ts'[t])
    ensures Positions(ts', id) == Positions(ts, id)
  {
    assert forall t :: 0 <= t < |ts| && QuietChange(ts[t], ts'[t]) ==> ts'[t].instanceId == ts[t].instanceId;
    SamePositions(ts, ts', id);
  }

  lemma CancelStays(s: State, p: Principal, id: Id, live: bool, ok: bool, i: nat, c: int)
    requires i < |s.instances|
    ensures Stays(s, CancelInstance(s, p, id, live, ok), i, c)
  {
    var s' := CancelInstance(s, p, id, live, ok);
    if s' != s {
      assert forall t :: 0 <= t < |s.tasks| ==> CancelTasks(s.tasks, id)[t] == CancelTask(s.tasks[t], id);
      QuietStays(s, s', i, c);
    }
  }

  lemma EscalateStays(s: State, now: int, i: nat, c: int)
    requires i < |s.instances|
    ensures Stays(s, Escalate(s, now), i, c)
  {
    assert forall t :: 0 <= t < |s.tasks| ==> EscalateTasks(s.tasks, now)[t] == EscalateTask(s.tasks[t], now);
    QuietStays(s, Escalate(s, now), i, c);
  }

  lemma StartStays(s: State, p: Principal, key: string, now: int, ok: bool, i: nat, c: int)
    requires i < |s.instances| && s.instances[i].id < s.nextId
    ensures Stays(s, Start(s, p, key, now, ok), i, c)
  {
    var s' := Start(s, p, key, now, ok);
    if |s'.tasks| > |s.tasks| {
      UntouchedBySnoc(s.tasks, s'.tasks[|s.tasks|], s.instances[i].id);
    }
    LeftAloneStays(s, s', i, c);
  }

  /** A decision at c or later is on a task of another instance: the instance's own windows are closed. */
  lemma CompleteStays(
    s: State, p: Principal, id: Id, d: Decision, key: string, now: int, live: bool, ok: bool, i: nat, c: int)
    requires i < |s.instances| && !HasOpen(s, i, c) && c <= now
    ensures Stays(s, Complete(s, p, id, d, key, now, live, ok).0, i, c)
  {
    if CheckComplete(s, p, id, key, now, live, ok).Decided? {
      var t := FindTask(s.tasks, id);
      assert !OpenAt(s, i, t, c);
      var j := FindInstance(s.instances, s.tasks[t].instanceId);
      var v := FindVersion(s.versions, s.instances[j].versionId);
      SettleLeaves(s, p, t, j, v, d, key, i);
      LeftAloneStays(s, Settle(s, p, t, j, v, d, key), i, c);
    }
  }

  lemma SettleLeaves(s: State, p: Principal, t: nat, j: nat, v: nat, d: Decision, key: string, i: nat)
    requires Located(s, t, j, v) && i < |s.instances| && s.tasks[t].instanceId != s.instances[i].id
    ensures LeftAlone(s, Settle(s, p, t, j, v, d, key), i)
  {
    var s' := Settle(s, p, t, j, v, d, key);
    SettleShape(s, p, t, j, v, d, key);
    SettledOthers(s, s', t, j, DecideTask(s.tasks[t], d, key), s'.instances[j], NextTasksOf(s, p, t, j, v, d), s.instances[i].id);
  }

  lemma SameRecordsStay(s: State, s': State, i: nat, c: int)
    requires i < |s.instances| && s'.tasks == s.tasks && s'.instances == s.instances
    ensures Stays(s, s', i, c)
  {
    assert forall t :: 0 <= t < |s.tasks| ==> OpenAt(s', i, t, c) == OpenAt(s, i, t, c);
  }

  lemma StepStays(s: State, step: Step, i: nat, c: int)
    requires i < |s.instances| && s.instances[i].id < s.nextId && !HasOpen(s, i, c)
    requires ReadsClock(step) ==> c <= step.now
    ensures Stays(s, Apply(s, step), i, c)
  {
    if step.CompleteStep? {
      CompleteStays(s, step.p, step.id, step.decision, step.key, step.now, step.live, step.permitted, i, c);
    } else if step.CancelStep? {
      CancelStays(s, step.p, step.id, step.live, step.permitted, i, c);
    } else if step.EscalateStep? {
      EscalateStays(s, step.now, i, c);
    } else if step.StartStep? {
      StartStays(s, step.p, step.key, step.now, step.permitted, i, c);
    } else {
      SameRecords(s, step);
      SameRecordsStay(s, Apply(s, step), i, c);
    }
  }

  lemma {:induction false} NothingMoves(s: State, more: seq<Step>, i: nat, c: int)
    requires WorkflowOk(s) && i < |s.instances| && !HasOpen(s, i, c) && ClockFrom(more, c)
    ensures WorkflowOk(Run(s, more)) && Stays(s, Run(s, more), i, c)
  {
    if more != [] {
      var before, step := more[..|more| - 1], more[|more| - 1];
      ClockBefore(more, c);
      NothingMoves(s, before, i, c);
      OneStepMovesNothing(Run(s, before), step, i, c);
    }
  }

  lemma ClockBefore(steps: seq<Step>, c: int)
    requires steps != [] && ClockFrom(steps, c)
    ensures ClockFrom(steps[..|steps| - 1], c)
    ensures ReadsClock(steps[|steps| - 1]) ==> c <= steps[|steps| - 1].now
  {
  }

  lemma OneStepMovesNothing(s: State, step: Step, i: nat, c: int)
    requires WorkflowOk(s) && i < |s.instances| && !HasOpen(s, i, c)
    requires ReadsClock(step) ==> c <= step.now
    ensures WorkflowOk(Apply(s, step)) && Stays(s, Apply(s, step), i, c)
  {
    StepStays(s, step, i, c);
    StepKeepsWorkflowOk(s, step);
  }

  // ---------------------------------------------------------------- something open, someone can decide it

  /** Every version has its definition. */
  predicate Defined(s: State) {
    forall v :: 0 <= v < |s.versions| ==> HasDefinition(s.definitions, s.versions[v].definitionId)
  }

  predicate HasDefinition(ds: seq<Definition>, id: Id) {
    exists d :: 0 <= d < |ds| && ds[d].id == id
  }

  lemma StillDefined(ds: seq<Definition>, ds': seq<Definition>, id: Id)
    requires ds <= ds' && HasDefinition(ds, id)
    ensures HasDefinition(ds', id)
  {
    var d :| 0 <= d < |ds| && ds[d].id == id;
    assert ds'[d].id == id;
  }

  lemma StepDefined(s: State, step: Step)
    requires Defined(s)
    ensures Defined(Apply(s, step))
  {
    var s' := Apply(s, step);
    VersionsBefore(s, step);
    forall v | 0 <= v < |s'.versions|
      ensures HasDefinition(s'.definitions, s'.versions[v].definitionId)
    {
      StillDefined(s.definitions, s'.definitions, s'.versions[v].definitionId);
    }
  }

  /** A version is one there was, or belongs to a definition there is. */
  lemma VersionsBefore(s: State, step: Step)
    requires Defined(s)
    ensures s.definitions <= Apply(s, step).definitions
    ensures forall v :: 0 <= v < |Apply(s, step).versions| ==> HasDefinition(s.definitions, Apply(s, step).versions[v].definitionId)
  {
    match step
    case AddVersionStep(p, id, g, ok) => AddedVersion(s, p, id, g, ok);
    case PublishStep(p, id, ok) => PublishedVersions(s, p, id, ok);
    case _ => SameVersions(s, step);
  }

  lemma AddedVersion(s: State, p: Principal, id: Id, g: Graph, ok: bool)
    requires Defined(s)
    ensures var s' := AddVersion(s, p, id, g, ok);
      forall v :: 0 <= v < |s'.versions| ==> HasDefinition(s.definitions, s'.versions[v].definitionId)
  {
    var d := FindDefinition(s.definitions, id, p.tenantId);
    assert d < |s.definitions| ==> s.definitions[d].id == id;
  }

  lemma PublishedVersions(s: State, p: Principal, id: Id, ok: bool)
    ensures var s' := PublishVersion(s, p, id, ok);
      |s'.versions| == |s.versions| && forall v :: 0 <= v < |s.versions| ==> s'.versions[v].definitionId == s.versions[v].definitionId
  {
    var k := FindVersion(s.versions, id);
    if k < |s.versions| {
      var vs := RetirePublished(s.versions, s.versions[k].definitionId);
      assert forall v :: 0 <= v < |s.versions| ==> vs[v] == RetireVersion(s.versions[v], s.versions[k].definitionId);
    }
  }

  lemma SameVersions(s: State, step: Step)
    requires !step.AddVersionStep? && !step.PublishStep?
    ensures Apply(s, step).versions == s.versions && s.definitions <= Apply(s, step).definitions
  {
  }

  lemma {:induction false} EveryRunDefined(tenantId: string, author: Id, nextId: Id, steps: seq<Step>)
    requires nextId > 0
    ensures Defined(Run(Seeded(tenantId, author, nextId), steps))
  {
    if steps != [] {
      EveryRunDefined(tenantId, author, nextId, steps[..|steps| - 1]);
      StepDefined(Run(Seeded(tenantId, author, nextId), steps[..|steps| - 1]), steps[|steps| - 1]);
    }
  }

  /** A principal who has done nothing yet. */
  function Newcomer(log: seq<Action>, besides: Id): (id: Id)
    ensures id > besides && forall i :: 0 <= i < |log| ==> log[i].principalId < id
  {
    if log == [] then besides + 1
    else
      var id := Newcomer(log[..|log| - 1], besides);
      var last := log[|log| - 1].principalId;
      if last < id then id else last + 1
  }

  lemma NewcomerSeparate(s: State, p: Principal, action: string, about: ObjectId)
    requires forall i :: 0 <= i < |s.actions| ==> s.actions[i].principalId < p.id
    ensures Separate(s, p, action, about)
  {
    forall r | 0 <= r < |SOD_RULES|
      ensures !AnyConflict(SOD_RULES[r], s.actions, Action(p.id, action, about))
    {
    }
  }

  /** A text longer than every idempotency key in use. */
  function NewKey(ts: seq<Task>): (key: string)
    ensures forall t :: 0 <= t < |ts| ==> ts[t].idempotencyKey != Some(key)
  {
    seq(LongestKey(ts) + 1, _ => 'k')
  }

  function LongestKey(ts: seq<Task>): (n: nat)
    ensures forall t :: 0 <= t < |ts| && ts[t].idempotencyKey.Some? ==> |ts[t].idempotencyKey.value| <= n
  {
    if ts == [] then 0
    else
      var n := LongestKey(ts[..|ts| - 1]);
      var last := ts[|ts| - 1].idempotencyKey;
      if last.Some? && |last.value| > n then |last.value| else n
  }

  /** The decision is added to those taken. */
  lemma SettledTakes(s: State, p: Principal, t: nat, i: nat, v: nat, d: Decision, key: string)
    requires Located(s, t, i, v) && s.tasks[t].status.PendingTask? && HistoriesOk(s)
    ensures var s' := Settle(s, p, t, i, v, d, key);
      i < |s'.instances| && Taken(s', i) == Taken(s, i) + [d]
  {
    var s' := Settle(s, p, t, i, v, d, key);
    var decided := s.tasks[t := DecideTask(s.tasks[t], d, key)];
    assert HistoryOk(s.instances[i], GraphOf(s.versions, s.instances[i].versionId), s.tasks);
    OneMoreDecision(s.instances[i], GraphOf(s.versions, s.instances[i].versionId), s.tasks, t, d, key);
    SettleShape(s, p, t, i, v, d, key);
    var more := NextTasksOf(s, p, t, i, v, d);
    if more == [] {
      assert decided + more == decided;
    } else {
      assert decided + more == decided + [more[0]];
      UndecidedAdds(decided, more[0], s.instances[i].id);
    }
  }

  lemma UndecidedAdds(ts: seq<Task>, task: Task, id: Id)
    requires task.instanceId == id && task.decision.None?
    ensures Decisions(ts + [task], Positions(ts + [task], id)) == Decisions(ts, Positions(ts, id))
  {
    PositionsSnoc(ts, task, id);
    WalkSnoc(ts, task, Positions(ts, id));
  }

  /** The two steps that move an instance at c: its version is published again, and a newcomer decides the open task. */
  function Moving(s: State, i: nat, t: nat, d: nat, c: int): seq<Step>
    requires i < |s.instances| && t < |s.tasks| && d < |s.definitions|
  {
    [ PublishStep(Publisher(s, d), s.instances[i].versionId, true),
      CompleteStep(Decider(s, i, t), s.tasks[t].id, Approve, NewKey(s.tasks), c, true, true) ]
  }

  function Publisher(s: State, d: nat): Principal
    requires d < |s.definitions|
  {
    Principal(0, s.definitions[d].tenantId, Human)
  }

  function Decider(s: State, i: nat, t: nat): Principal
    requires i < |s.instances| && t < |s.tasks|
  {
    Principal(Newcomer(s.actions, s.instances[i].startedBy), s.tasks[t].tenantId, Human)
  }

  /** Publishing an instance's version makes it effective again, and changes nothing else about instances. */
  lemma PublishedAgain(s: State, id: Id, d: nat)
    requires d < |s.definitions| && FindVersion(s.versions, id) < |s.versions|
    requires s.definitions[d].id == s.versions[FindVersion(s.versions, id)].definitionId
    ensures var v := FindVersion(s.versions, id);
      var s' := PublishVersion(s, Publisher(s, d), id, true);
      && s'.tasks == s.tasks && s'.instances == s.instances && s'.actions == s.actions
      && FindVersion(s'.versions, id) == v < |s'.versions| && s'.versions[v].status.PublishedVersion?
  {
    FoundByTenant(s.definitions, d);
    PublishedShape(s, Publisher(s, d), id);
    RepublishedFound(s.versions, id);
  }

  lemma RepublishedFound(vs: seq<Version>, id: Id)
    requires FindVersion(vs, id) < |vs|
    ensures var v := FindVersion(vs, id);
      var retired := RetirePublished(vs, vs[v].definitionId);
      FindVersion(retired[v := retired[v].(status := PublishedVersion)], id) == v
  {
    var v := FindVersion(vs, id);
    var retired := RetirePublished(vs, vs[v].definitionId);
    assert forall w :: 0 <= w < |vs| ==> retired[w] == RetireVersion(vs[w], vs[v].definitionId);
    GraphStays(vs, retired[v := retired[v].(status := PublishedVersion)], id);
  }

  lemma FoundByTenant(ds: seq<Definition>, d: nat)
    requires d < |ds|
    ensures FindDefinition(ds, ds[d].id, ds[d].tenantId) < |ds|
  {
  }

  lemma PublishedShape(s: State, p: Principal, id: Id)
    requires var v := FindVersion(s.versions, id);
      v < |s.versions| && FindDefinition(s.definitions, s.versions[v].definitionId, p.tenantId) < |s.definitions|
    ensures var v := FindVersion(s.versions, id);
      var vs := RetirePublished(s.versions, s.versions[v].definitionId);
      PublishVersion(s, p, id, true) == s.(versions := vs[v := vs[v].(status := PublishedVersion)])
  {
  }

  /** Whoever is found fit at every check may decide. */
  lemma ChecksPass(s: State, i: nat, t: nat, p: Principal, key: string, now: int)
    requires t < |s.tasks| && i < |s.instances|
    requires Located(s, t, i, FindVersion(s.versions, s.instances[i].versionId)) && FindTask(s.tasks, s.tasks[t].id) == t
    requires s.tasks[t].status.PendingTask? && s.instances[i].status.Running?
    requires s.versions[FindVersion(s.versions, s.instances[i].versionId)].status.PublishedVersion?
    requires p.actorType.Human? && p.tenantId == s.tasks[t].tenantId && p.id != s.instances[i].startedBy
    requires Separate(s, p, "workflow:approve:task", Record(s.instances[i].id))
    requires FindIdempotencyKey(s.tasks, p.tenantId, key) == |s.tasks|
    requires s.tasks[t].authorityExpiresAt.None? || now <= s.tasks[t].authorityExpiresAt.value
    ensures CheckComplete(s, p, s.tasks[t].id, key, now, true, true).Decided?
  {
  }

  predicate Newly(s: State, i: nat, p: Principal, key: string)
    requires i < |s.instances|
  {
    && p.id > s.instances[i].startedBy
    && (forall j :: 0 <= j < |s.actions| ==> s.actions[j].principalId < p.id)
    && (forall u :: 0 <= u < |s.tasks| ==> s.tasks[u].idempotencyKey != Some(key))
  }

  /** An open task of an instance with a published version: nothing stands in a newcomer's way. */
  lemma NewcomerDecides(s: State, i: nat, t: nat, p: Principal, key: string, now: int)
    requires WorkflowOk(s) && i < |s.instances| && t < |s.tasks| && OpenAt(s, i, t, now)
    requires s.versions[FindVersion(s.versions, s.instances[i].versionId)].status.PublishedVersion?
    requires p.actorType.Human? && p.tenantId == s.tasks[t].tenantId && Newly(s, i, p, key)
    ensures CheckComplete(s, p, s.tasks[t].id, key, now, true, true).Decided?
    ensures FindTask(s.tasks, s.tasks[t].id) == t && FindInstance(s.instances, s.tasks[t].instanceId) == i
  {
    TaskFound(s.tasks, s.nextId, t);
    InstanceFound(s.instances, s.versions, s.nextId, i);
    NewcomerSeparate(s, p, "workflow:approve:task", Record(s.instances[i].id));
    PendingRuns(s, i, t);
    KeyUnused(s.tasks, p.tenantId, key);
    ChecksPass(s, i, t, p, key, now);
  }

  lemma KeyUnused(ts: seq<Task>, tenantId: string, key: string)
    requires forall u :: 0 <= u < |ts| ==> ts[u].idempotencyKey != Some(key)
    ensures FindIdempotencyKey(ts, tenantId, key) == |ts|
  {
  }

  lemma TaskFound(ts: seq<Task>, nextId: Id, t: nat)
    requires TaskIdsOk(ts, nextId) && t < |ts|
    ensures FindTask(ts, ts[t].id) == t
  {
  }

  lemma InstanceFound(xs: seq<Instance>, vs: seq<Version>, nextId: Id, i: nat)
    requires InstanceIdsOk(xs, vs, nextId) && i < |xs|
    ensures FindInstance(xs, xs[i].id) == i
  {
  }

  lemma PendingRuns(s: State, i: nat, t: nat)
    requires HistoriesOk(s) && i < |s.instances| && t < |s.tasks| && PendingAt(s, i, t)
    ensures s.instances[i].status.Running?
  {
    assert HistoryOk(s.instances[i], GraphOf(s.versions, s.instances[i].versionId), s.tasks);
    PendingIsLast(s.instances[i], GraphOf(s.versions, s.instances[i].versionId), s.tasks, t);
  }

  lemma DefinitionOf(s: State, v: nat) returns (d: nat)
    requires Defined(s) && v < |s.versions|
    ensures d < |s.definitions| && s.definitions[d].id == s.versions[v].definitionId
  {
    assert HasDefinition(s.definitions, s.versions[v].definitionId);
    d :| 0 <= d < |s.definitions| && s.definitions[d].id == s.versions[v].definitionId;
  }

  lemma OpenMoves(s: State, i: nat, t: nat, c: int)
    requires WorkflowOk(s) && Defined(s) && i < |s.instances| && t < |s.tasks| && OpenAt(s, i, t, c)
    ensures CanMoveFrom(s, i, c)
  {
    var d := DefinitionOf(s, FindVersion(s.versions, s.instances[i].versionId));
    MovedBy(s, i, t, d, c);
    MovingAllowed(s, i, t, d, c);
  }

  lemma MovingAllowed(s: State, i: nat, t: nat, d: nat, c: int)
    requires i < |s.instances| && t < |s.tasks| && d < |s.definitions|
    ensures NotCancelled(Moving(s, i, t, d, c), s.instances[i].id) && ClockFrom(Moving(s, i, t, d, c), c)
  {
  }

  lemma MovedBy(s: State, i: nat, t: nat, d: nat, c: int)
    requires WorkflowOk(s) && i < |s.instances| && t < |s.tasks| && OpenAt(s, i, t, c) && d < |s.definitions|
    requires s.definitions[d].id == s.versions[FindVersion(s.versions, s.instances[i].versionId)].definitionId
    ensures MovesBy(s, Moving(s, i, t, d, c), i)
  {
    FirstMove(s, i, t, d, c);
    var s1 := PublishVersion(s, Publisher(s, d), s.instances[i].versionId, true);
    LastMove(s1, i, t, Decider(s, i, t), NewKey(s.tasks), c);
    MovingRuns(s, i, t, d, c);
  }

  /** Where the two steps lead. */
  lemma MovingRuns(s: State, i: nat, t: nat, d: nat, c: int)
    requires i < |s.instances| && t < |s.tasks| && d < |s.definitions|
    ensures Run(s, Moving(s, i, t, d, c))
         == Complete(PublishVersion(s, Publisher(s, d), s.instances[i].versionId, true), Decider(s, i, t), s.tasks[t].id, Approve,
                     NewKey(s.tasks), c, true, true).0
  {
    PublishThenComplete(s, Publisher(s, d), s.instances[i].versionId, Decider(s, i, t), s.tasks[t].id, NewKey(s.tasks), c);
  }

  lemma PublishThenComplete(s: State, p: Principal, versionId: Id, q: Principal, taskId: Id, key: string, now: int)
    ensures Run(s, [PublishStep(p, versionId, true), CompleteStep(q, taskId, Approve, key, now, true, true)])
         == Complete(PublishVersion(s, p, versionId, true), q, taskId, Approve, key, now, true, true).0
  {
    TwoSteps(s, PublishStep(p, versionId, true), CompleteStep(q, taskId, Approve, key, now, true, true));
    Publishes(s, p, versionId, true);
    Completes(PublishVersion(s, p, versionId, true), q, taskId, Approve, key, now, true, true);
  }

  lemma Publishes(s: State, p: Principal, versionId: Id, ok: bool)
    ensures Apply(s, PublishStep(p, versionId, ok)) == PublishVersion(s, p, versionId, ok)
  {
  }

  lemma Completes(s: State, q: Principal, taskId: Id, d: Decision, key: string, now: int, live: bool, ok: bool)
    ensures Apply(s, CompleteStep(q, taskId, d, key, now, live, ok)) == Complete(s, q, taskId, d, key, now, live, ok).0
  {
  }

  /** With the version published again the instance is as it was, and may be decided. */
  predicate Decidable(s: State, i: nat, t: nat, c: int) {
    && i < |s.instances| && t < |s.tasks| && OpenAt(s, i, t, c)
    && FindVersion(s.versions, s.instances[i].versionId) < |s.versions|
    && s.versions[FindVersion(s.versions, s.instances[i].versionId)].status.PublishedVersion?
  }

  lemma FirstMove(s: State, i: nat, t: nat, d: nat, c: int)
    requires WorkflowOk(s) && i < |s.instances| && t < |s.tasks| && OpenAt(s, i, t, c) && d < |s.definitions|
    requires s.definitions[d].id == s.versions[FindVersion(s.versions, s.instances[i].versionId)].definitionId
    ensures var s1 := PublishVersion(s, Publisher(s, d), s.instances[i].versionId, true);
      && WorkflowOk(s1) && s1.tasks == s.tasks && s1.instances == s.instances && s1.actions == s.actions
      && Decidable(s1, i, t, c)
  {
    PublishedAgain(s, s.instances[i].versionId, d);
    PublishOk(s, Publisher(s, d), s.instances[i].versionId, true);
  }

  lemma LastMove(s: State, i: nat, t: nat, p: Principal, key: string, now: int)
    requires WorkflowOk(s) && Decidable(s, i, t, now)
    requires p.actorType.Human? && p.tenantId == s.tasks[t].tenantId && Newly(s, i, p, key)
    ensures var s' := Complete(s, p, s.tasks[t].id, Approve, key, now, true, true).0;
      i < |s'.instances| && |Taken(s', i)| > |Taken(s, i)|
  {
    NewcomerDecides(s, i, t, p, key, now);
    DecidedMoves(s, p, i, t, key, now);
  }

  lemma DecidedMoves(s: State, p: Principal, i: nat, t: nat, key: string, now: int)
    requires HistoriesOk(s) && i < |s.instances| && t < |s.tasks|
    requires CheckComplete(s, p, s.tasks[t].id, key, now, true, true).Decided?
    requires FindTask(s.tasks, s.tasks[t].id) == t && FindInstance(s.instances, s.tasks[t].instanceId) == i
    ensures var s' := Complete(s, p, s.tasks[t].id, Approve, key, now, true, true).0;
      i < |s'.instances| && |Taken(s', i)| > |Taken(s, i)|
  {
    SettledTakes(s, p, t, i, FindVersion(s.versions, s.instances[i].versionId), Approve, key);
  }

  lemma TwoSteps(start: State, a: Step, b: Step)
    ensures Run(start, [a, b]) == Apply(Apply(start, a), b)
  {
    var none: seq<Step> := [];
    RunSnoc(start, none, a);
    RunSnoc(start, none + [a], b);
    assert none + [a] + [b] == [a, b];
  }

  /**
   * In every run, for every instance and every reading of the clock: steps from then on can take another decision on it
   * exactly when one of its tasks is pending and its authority has not run out. A retired version can be published again,
   * and within the window there is always somebody who may decide.
   */
  lemma MovesIffOpen(tenantId: string, author: Id, nextId: Id, steps: seq<Step>, i: nat, c: int)
    requires nextId > 0
    ensures var s := Run(Seeded(tenantId, author, nextId), steps);
      i < |s.instances| ==> (CanMoveFrom(s, i, c) <==> HasOpen(s, i, c))
  {
    var s := Run(Seeded(tenantId, author, nextId), steps);
    if i < |s.instances| {
      EveryRunWorkflowOk(tenantId, author, nextId, steps);
      EveryRunDefined(tenantId, author, nextId, steps);
      MovesIff(s, i, c);
    }
  }

  lemma MovesIff(s: State, i: nat, c: int)
    requires WorkflowOk(s) && Defined(s) && i < |s.instances|
    ensures CanMoveFrom(s, i, c) <==> HasOpen(s, i, c)
  {
    if HasOpen(s, i, c) {
      var t :| 0 <= t < |s.tasks| && OpenAt(s, i, t, c);
      OpenMoves(s, i, t, c);
    } else {
      forall more: seq<Step> | ClockFrom(more, c)
        ensures !MovesBy(s, more, i)
      {
        NothingMoves(s, more, i, c);
      }
    }
  }
}
