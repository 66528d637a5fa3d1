/** The workflow engine over whole runs. */
module WorkflowRuns {
  import opened Options
  import opened Governance
  import opened WorkflowHistory

  // ---------------------------------------------------------------- what holds in every reachable state

  predicate IdsOk(s: State) {
    && VersionIdsOk(s.versions, s.nextId)
    && InstanceIdsOk(s.instances, s.versions, s.nextId)
    && TaskIdsOk(s.tasks, s.nextId)
    && TasksFound(s.tasks, s.instances)
  }

  predicate InstanceIdsOk(xs: seq<Instance>, vs: seq<Version>, nextId: Id) {
    && (forall i :: 0 <= i < |xs| ==> xs[i].id < nextId)
    && (forall i, j :: 0 <= i < j < |xs| ==> xs[i].id != xs[j].id)
    && (forall i :: 0 <= i < |xs| ==> FindVersion(vs, xs[i].versionId) < |vs|)
  }

  predicate TaskIdsOk(ts: seq<Task>, nextId: Id) {
    && (forall t :: 0 <= t < |ts| ==> ts[t].id < nextId && ts[t].instanceId < nextId)
    && (forall t, u :: 0 <= t < u < |ts| ==> ts[t].id != ts[u].id)
  }

  predicate TasksFound(ts: seq<Task>, xs: seq<Instance>) {
    forall t :: 0 <= t < |ts| ==> FindInstance(xs, ts[t].instanceId) < |xs|
  }

  predicate VersionIdsOk(vs: seq<Version>, nextId: Id) {
    && (forall v :: 0 <= v < |vs| ==> vs[v].id < nextId)
    && (forall v, w :: 0 <= v < w < |vs| ==> vs[v].id != vs[w].id)
  }

  function GraphOf(vs: seq<Version>, versionId: Id): Graph {
    var v := FindVersion(vs, versionId);
    if v < |vs| then vs[v].graph else Graph("", [])
  }

  predicate HistoriesOk(s: State) {
    forall i :: 0 <= i < |s.instances| ==> HistoryOk(s.instances[i], GraphOf(s.versions, s.instances[i].versionId), s.tasks)
  }

  /** A tenant uses an idempotency key on at most one task. */
  predicate KeysUnique(ts: seq<Task>) {
    forall t, u :: 0 <= t < u < |ts| ==> !SharedKey(ts[t], ts[u])
  }

  predicate SharedKey(t: Task, u: Task) {
    t.tenantId == u.tenantId && t.idempotencyKey.Some? && t.idempotencyKey == u.idempotencyKey
  }

  predicate OnePublished(vs: seq<Version>) {
    forall v, w :: 0 <= v < w < |vs| && vs[v].status.PublishedVersion? && vs[w].status.PublishedVersion? ==>
      vs[v].definitionId != vs[w].definitionId
  }

  predicate WorkflowOk(s: State) {
    IdsOk(s) && HistoriesOk(s) && KeysUnique(s.tasks) && OnePublished(s.versions)
  }

  // ---------------------------------------------------------------- versions

  /** Versions are added at the end and only change status. */
  predicate VersionsGrow(vs: seq<Version>, vs': seq<Version>) {
    |vs| <= |vs'| && forall v :: 0 <= v < |vs| ==> vs'[v].id == vs[v].id && vs'[v].graph == vs[v].graph
  }

  lemma GraphStays(vs: seq<Version>, vs': seq<Version>, id: Id)
    requires VersionsGrow(vs, vs') && FindVersion(vs, id) < |vs|
    ensures FindVersion(vs', id) == FindVersion(vs, id) && GraphOf(vs', id) == GraphOf(vs, id)
  {
    var v, v' := FindVersion(vs, id), FindVersion(vs', id);
    assert vs'[v].id == id;
    assert vs[v'].id == id;
  }

  /** Steps that leave instances and tasks alone. */
  lemma VersionsOnly(s: State, s': State)
    requires WorkflowOk(s) && VersionsGrow(s.versions, s'.versions)
    requires OnePublished(s'.versions) && VersionIdsOk(s'.versions, s'.nextId)
    requires s'.instances == s.instances && s'.tasks == s.tasks && s.nextId <= s'.nextId
    ensures WorkflowOk(s')
  {
    forall i | 0 <= i < |s.instances|
      ensures FindVersion(s'.versions, s.instances[i].versionId) < |s'.versions|
      ensures HistoryOk(s.instances[i], GraphOf(s'.versions, s.instances[i].versionId), s.tasks)
    {
      GraphStays(s.versions, s'.versions, s.instances[i].versionId);
    }
  }

  lemma AddVersionOk(s: State, p: Principal, definitionId: Id, g: Graph, ok: bool)
    requires WorkflowOk(s)
    ensures WorkflowOk(AddVersion(s, p, definitionId, g, ok))
  {
    VersionsOnly(s, AddVersion(s, p, definitionId, g, ok));
  }

  /** Publishing retires the definition's published version first. */
  lemma PublishOk(s: State, p: Principal, id: Id, ok: bool)
    requires WorkflowOk(s)
    ensures WorkflowOk(PublishVersion(s, p, id, ok))
  {
    var s' := PublishVersion(s, p, id, ok);
    var k := FindVersion(s.versions, id);
    forall v, w | 0 <= v < w < |s'.versions| && s'.versions[v].status.PublishedVersion? && s'.versions[w].status.PublishedVersion?
      ensures s'.versions[v].definitionId != s'.versions[w].definitionId
    {
      assert s'.versions != s.versions && v != k ==> s'.versions[v] == RetireVersion(s.versions[v], s.versions[k].definitionId);
      assert s'.versions != s.versions && w != k ==> s'.versions[w] == RetireVersion(s.versions[w], s.versions[k].definitionId);
    }
    VersionsOnly(s, s');
  }

  // ---------------------------------------------------------------- instances and tasks

  lemma UntouchedBySnoc(ts: seq<Task>, task: Task, id: Id)
    requires task.instanceId != id
    ensures Untouched(ts, ts + [task], id)
  {
    PositionsSnoc(ts, task, id);
  }

  lemma UntouchedByUpdate(ts: seq<Task>, t: nat, task: Task, id: Id)
    requires t < |ts| && task.instanceId == ts[t].instanceId != id
    ensures Untouched(ts, ts[t := task], id)
  {
    SamePositions(ts, ts[t := task], id);
  }

  /** One instance and its tasks change; the rest of the histories are as they were. */
  lemma OneHistory(s: State, s': State, i: nat)
    requires HistoriesOk(s) && s'.versions == s.versions
    requires i <= |s.instances| <= |s'.instances| <= |s.instances| + 1 && (i < |s.instances| || |s'.instances| == |s.instances| + 1)
    requires i < |s.instances| ==> |s'.instances| == |s.instances|
    requires forall j :: 0 <= j < |s.instances| && j != i ==> s'.instances[j] == s.instances[j]
    requires forall j :: 0 <= j < |s.instances| && j != i ==> Untouched(s.tasks, s'.tasks, s.instances[j].id)
    requires HistoryOk(s'.instances[i], GraphOf(s'.versions, s'.instances[i].versionId), s'.tasks)
    ensures HistoriesOk(s')
  {
    forall j | 0 <= j < |s'.instances|
      ensures HistoryOk(s'.instances[j], GraphOf(s'.versions, s'.instances[j].versionId), s'.tasks)
    {
      if j != i {
        UntouchedKeeps(s.instances[j], GraphOf(s.versions, s.instances[j].versionId), s.tasks, s'.tasks);
      }
    }
  }

  /** The instance a task belongs to is still found when instances are only added. */
  lemma StillFound(xs: seq<Instance>, xs': seq<Instance>, id: Id)
    requires |xs| <= |xs'| && forall i :: 0 <= i < |xs| ==> xs'[i].id == xs[i].id
    requires FindInstance(xs, id) < |xs|
    ensures FindInstance(xs', id) < |xs'|
  {
    assert xs'[FindInstance(xs, id)].id == id;
  }

  /** What a start adds. */
  predicate Started(s: State, s': State, instance: Instance, task: Task) {
    && s'.versions == s.versions
    && s'.instances == s.instances + [instance]
    && s'.tasks == s.tasks + [task]
    && s'.nextId == s.nextId + 2
    && instance.id == s.nextId == task.instanceId
    && task.id == s.nextId + 1
    && StartedPair(instance, task)
  }

  predicate StartedPair(instance: Instance, task: Task) {
    && instance.status.Running? && instance.currentNode == Some(task.nodeKey)
    && task.status.PendingTask? && task.decision.None? && task.idempotencyKey.None?
  }

  lemma StartedIds(s: State, s': State, instance: Instance, task: Task)
    requires IdsOk(s) && KeysUnique(s.tasks) && Started(s, s', instance, task)
    requires FindVersion(s.versions, instance.versionId) < |s.versions|
    ensures IdsOk(s') && KeysUnique(s'.tasks)
  {
    forall t | 0 <= t < |s'.tasks|
      ensures FindInstance(s'.instances, s'.tasks[t].instanceId) < |s'.instances|
    {
      if t < |s.tasks| {
        StillFound(s.instances, s'.instances, s.tasks[t].instanceId);
      } else {
        assert s'.instances[|s.instances|].id == task.instanceId;
      }
    }
  }

  lemma NoTasksYet(ts: seq<Task>, id: Id)
    requires forall t :: 0 <= t < |ts| ==> ts[t].instanceId != id
    ensures Positions(ts, id) == []
  {
  }

  lemma StartedHistories(s: State, s': State, instance: Instance, task: Task)
    requires IdsOk(s) && HistoriesOk(s) && Started(s, s', instance, task)
    requires task.nodeKey == GraphOf(s.versions, instance.versionId).start
    ensures HistoriesOk(s')
  {
    NoTasksYet(s.tasks, instance.id);
    StartHistory(instance, GraphOf(s.versions, instance.versionId), s.tasks, task);
    forall j | 0 <= j < |s.instances|
      ensures Untouched(s.tasks, s'.tasks, s.instances[j].id)
    {
      UntouchedBySnoc(s.tasks, task, s.instances[j].id);
    }
    OneHistory(s, s', |s.instances|);
  }

  /** The version an instance is bound to is the one found under its identifier. */
  lemma BoundVersion(vs: seq<Version>, v: nat, nextId: Id)
    requires v < |vs| && VersionIdsOk(vs, nextId)
    ensures FindVersion(vs, vs[v].id) == v && GraphOf(vs, vs[v].id) == vs[v].graph
  {
  }

  lemma StartOk(s: State, p: Principal, key: string, now: int, ok: bool)
    requires WorkflowOk(s)
    ensures WorkflowOk(Start(s, p, key, now, ok))
  {
    var d := FindDefinitionByKey(s.definitions, p.tenantId, key);
    if ok && d < |s.definitions| && BestPublished(s.versions, s.definitions[d].id).Some? {
      var v := BestPublished(s.versions, s.definitions[d].id).value;
      var s' := Start(s, p, key, now, ok);
      var instance, task := s'.instances[|s.instances|], s'.tasks[|s.tasks|];
      BoundVersion(s.versions, v, s.nextId);
      assert instance == Instance(s.nextId, p.tenantId, s.definitions[d].id, s.versions[v].id, Running, p.id, Some(s.versions[v].graph.start));
      assert task == StartTask(s, p.tenantId, instance.id, s.versions[v].graph, now);
      StartedIds(s, s', instance, task);
      StartedHistories(s, s', instance, task);
    }
  }

  // ---------------------------------------------------------------- a decision

  /** What a decision changes: its task, its instance, and possibly one new task of that instance. */
  predicate Settled(s: State, s': State, t: nat, i: nat, task: Task, instance: Instance, more: seq<Task>) {
    && t < |s.tasks| && i < |s.instances|
    && s'.versions == s.versions
    && s'.instances == s.instances[i := instance]
    && s'.tasks == s.tasks[t := task] + more
    && s'.nextId == s.nextId + |more|
    && task.id == s.tasks[t].id && task.instanceId == s.tasks[t].instanceId == instance.id == s.instances[i].id
    && instance.versionId == s.instances[i].versionId
    && |more| <= 1
    && (|more| == 1 ==> more[0].id == s.nextId && more[0].instanceId == instance.id)
  }

  function NextTasksOf(s: State, p: Principal, t: nat, i: nat, v: nat, d: Decision): seq<Task>
    requires Located(s, t, i, v)
  {
    var next := NextNode(s.versions[v].graph, s.tasks[t].nodeKey, d);
    if next.None? then [] else [NextTask(s, p, s.instances[i].id, s.versions[v].graph, next.value)]
  }

  lemma SettleShape(s: State, p: Principal, t: nat, i: nat, v: nat, d: Decision, key: string)
    requires Located(s, t, i, v)
    ensures var s' := Settle(s, p, t, i, v, d, key);
      |s'.instances| == |s.instances| && Settled(s, s', t, i, DecideTask(s.tasks[t], d, key), s'.instances[i], NextTasksOf(s, p, t, i, v, d))
  {
    var ts := s.tasks[t := DecideTask(s.tasks[t], d, key)];
    assert ts + [] == ts;
  }

  lemma SettledFound(s: State, s': State, t: nat, i: nat, task: Task, instance: Instance, more: seq<Task>)
    requires Settled(s, s', t, i, task, instance, more)
    requires TasksFound(s.tasks, s.instances)
    ensures TasksFound(s'.tasks, s'.instances)
  {
    forall u | 0 <= u < |s'.tasks|
      ensures FindInstance(s'.instances, s'.tasks[u].instanceId) < |s'.instances|
    {
      if u < |s.tasks| {
        StillFound(s.instances, s'.instances, s.tasks[u].instanceId);
      } else {
        assert s'.instances[i].id == s'.tasks[u].instanceId;
      }
    }
  }

  lemma SettledInstanceIds(s: State, s': State, t: nat, i: nat, task: Task, instance: Instance, more: seq<Task>)
    requires InstanceIdsOk(s.instances, s.versions, s.nextId) && Settled(s, s', t, i, task, instance, more)
    ensures InstanceIdsOk(s'.instances, s'.versions, s'.nextId)
  {
    assert forall j :: 0 <= j < |s.instances| ==>
      s'.instances[j].id == s.instances[j].id && s'.instances[j].versionId == s.instances[j].versionId;
  }

  lemma SettledTaskIds(s: State, s': State, t: nat, i: nat, task: Task, instance: Instance, more: seq<Task>)
    requires TaskIdsOk(s.tasks, s.nextId) && Settled(s, s', t, i, task, instance, more)
    ensures TaskIdsOk(s'.tasks, s'.nextId)
  {
    assert forall u :: 0 <= u < |s.tasks| ==> s'.tasks[u].id == s.tasks[u].id && s'.tasks[u].instanceId == s.tasks[u].instanceId;
    assert s.tasks[t].instanceId < s.nextId;
  }

  lemma SettledOthers(s: State, s': State, t: nat, i: nat, task: Task, instance: Instance, more: seq<Task>, id: Id)
    requires Settled(s, s', t, i, task, instance, more) && id != instance.id
    ensures Untouched(s.tasks, s'.tasks, id)
  {
    var decided := s.tasks[t := task];
    UntouchedByUpdate(s.tasks, t, task, id);
    if more == [] {
      assert decided + more == decided;
    } else {
      assert more == [more[0]];
      UntouchedBySnoc(decided, more[0], id);
    }
  }

  lemma SettledHistories(s: State, s': State, t: nat, i: nat, task: Task, instance: Instance, more: seq<Task>)
    requires IdsOk(s) && HistoriesOk(s) && Settled(s, s', t, i, task, instance, more)
    requires HistoryOk(instance, GraphOf(s.versions, instance.versionId), s'.tasks)
    ensures HistoriesOk(s')
  {
    forall j | 0 <= j < |s.instances| && j != i
      ensures Untouched(s.tasks, s'.tasks, s.instances[j].id)
    {
      SettledOthers(s, s', t, i, task, instance, more, s.instances[j].id);
    }
    OneHistory(s, s', i);
  }

  /** The decided instance's own history. */
  lemma SettledHistory(s: State, p: Principal, t: nat, i: nat, v: nat, d: Decision, key: string)
    requires Located(s, t, i, v) && s.tasks[t].status.PendingTask?
    requires HistoriesOk(s)
    ensures var s' := Settle(s, p, t, i, v, d, key);
      && |s'.instances| == |s.instances|
      && HistoryOk(s'.instances[i], GraphOf(s.versions, s'.instances[i].versionId), s'.tasks)
  {
    var s' := Settle(s, p, t, i, v, d, key);
    var g := s.versions[v].graph;
    assert HistoryOk(s.instances[i], GraphOf(s.versions, s.instances[i].versionId), s.tasks);
    PendingIsLast(s.instances[i], g, s.tasks, t);
    if NextNode(g, s.tasks[t].nodeKey, d).None? {
      EndHistory(s.instances[i], s'.instances[i], g, s.tasks, t, d, key);
    } else {
      ContinueHistory(s.instances[i], s'.instances[i], g, s.tasks, t, d, key, NextTasksOf(s, p, t, i, v, d)[0]);
    }
  }

  /** The key is new in the tenant, so it stays on one task. */
  lemma SettledKeys(s: State, s': State, t: nat, i: nat, task: Task, instance: Instance, more: seq<Task>, key: string)
    requires KeysUnique(s.tasks) && Settled(s, s', t, i, task, instance, more)
    requires task.idempotencyKey == Some(key) && forall j :: 0 <= j < |more| ==> more[j].idempotencyKey.None?
    requires FindIdempotencyKey(s.tasks, task.tenantId, key) == |s.tasks|
    ensures KeysUnique(s'.tasks)
  {
  }

  lemma CompleteOk(s: State, p: Principal, id: Id, d: Decision, key: string, now: int, live: bool, ok: bool)
    requires WorkflowOk(s)
    ensures WorkflowOk(Complete(s, p, id, d, key, now, live, ok).0)
  {
    if CheckComplete(s, p, id, key, now, live, ok).Decided? {
      var t := FindTask(s.tasks, id);
      var i := FindInstance(s.instances, s.tasks[t].instanceId);
      var v := FindVersion(s.versions, s.instances[i].versionId);
      KeyIsNew(s, t, i, key);
      SettleOk(s, p, t, i, v, d, key);
    }
  }

  /** A pending task has no key yet, so the key found in the tenant is on no task at all. */
  lemma KeyIsNew(s: State, t: nat, i: nat, key: string)
    requires WorkflowOk(s) && t < |s.tasks| && s.tasks[t].status.PendingTask?
    requires i == FindInstance(s.instances, s.tasks[t].instanceId) < |s.instances|
    requires var e := FindIdempotencyKey(s.tasks, s.tasks[t].tenantId, key); e == |s.tasks| || s.tasks[e].id == s.tasks[t].id
    ensures FindIdempotencyKey(s.tasks, s.tasks[t].tenantId, key) == |s.tasks|
  {
    TaskRecorded(s.instances[i], GraphOf(s.versions, s.instances[i].versionId), s.tasks, t);
    KeylessIsNew(s.tasks, s.nextId, t, key);
  }

  lemma KeylessIsNew(ts: seq<Task>, nextId: Id, t: nat, key: string)
    requires TaskIdsOk(ts, nextId) && t < |ts| && ts[t].idempotencyKey.None?
    requires var e := FindIdempotencyKey(ts, ts[t].tenantId, key); e == |ts| || ts[e].id == ts[t].id
    ensures FindIdempotencyKey(ts, ts[t].tenantId, key) == |ts|
  {
    var e := FindIdempotencyKey(ts, ts[t].tenantId, key);
    assert e < |ts| ==> e == t;
  }

  lemma SettledOk(s: State, s': State, t: nat, i: nat, task: Task, instance: Instance, more: seq<Task>, key: string)
    requires WorkflowOk(s) && Settled(s, s', t, i, task, instance, more)
    requires HistoryOk(instance, GraphOf(s.versions, instance.versionId), s'.tasks)
    requires task.idempotencyKey == Some(key) && forall j :: 0 <= j < |more| ==> more[j].idempotencyKey.None?
    requires FindIdempotencyKey(s.tasks, task.tenantId, key) == |s.tasks|
    ensures WorkflowOk(s')
  {
    SettledFound(s, s', t, i, task, instance, more);
    SettledInstanceIds(s, s', t, i, task, instance, more);
    SettledTaskIds(s, s', t, i, task, instance, more);
    SettledHistories(s, s', t, i, task, instance, more);
    SettledKeys(s, s', t, i, task, instance, more, key);
  }

  lemma SettledByOk(s: State, s': State, p: Principal, t: nat, i: nat, v: nat, d: Decision, key: string)
    requires WorkflowOk(s) && Located(s, t, i, v) && |s'.instances| == |s.instances|
    requires Settled(s, s', t, i, DecideTask(s.tasks[t], d, key), s'.instances[i], NextTasksOf(s, p, t, i, v, d))
    requires HistoryOk(s'.instances[i], GraphOf(s.versions, s'.instances[i].versionId), s'.tasks)
    requires FindIdempotencyKey(s.tasks, s.tasks[t].tenantId, key) == |s.tasks|
    ensures WorkflowOk(s')
  {
    SettledOk(s, s', t, i, DecideTask(s.tasks[t], d, key), s'.instances[i], NextTasksOf(s, p, t, i, v, d), key);
  }

  lemma SettleOk(s: State, p: Principal, t: nat, i: nat, v: nat, d: Decision, key: string)
    requires WorkflowOk(s) && Located(s, t, i, v) && s.tasks[t].status.PendingTask?
    requires FindIdempotencyKey(s.tasks, s.tasks[t].tenantId, key) == |s.tasks|
    ensures WorkflowOk(Settle(s, p, t, i, v, d, key))
  {
    SettleShape(s, p, t, i, v, d, key);
    SettledHistory(s, p, t, i, v, d, key);
    var s' := Settle(s, p, t, i, v, d, key);
    SettledByOk(s, s', p, t, i, v, d, key);
  }

  // ---------------------------------------------------------------- cancellation and escalation

  /** Tasks change quietly, instances keep their identity, and each history still ends as it should. */
  predicate QuietStep(s: State, s': State) {
    && s'.versions == s.versions && s'.nextId == s.nextId
    && |s'.instances| == |s.instances| && |s'.tasks| == |s.tasks|
    && (forall i :: 0 <= i < |s.instances| ==>
          s'.instances[i].id == s.instances[i].id && s'.instances[i].versionId == s.instances[i].versionId)
    && (forall i :: 0 <= i < |s.instances| ==>
          EndKept(s.instances[i], s'.instances[i], GraphOf(s.versions, s.instances[i].versionId), s.tasks, s'.tasks))
    && (forall t :: 0 <= t < |s.tasks| ==> QuietChange(s.tasks[t], s'.tasks[t]))
  }

  lemma QuietIds(s: State, s': State)
    requires IdsOk(s) && KeysUnique(s.tasks) && QuietStep(s, s')
    ensures IdsOk(s') && KeysUnique(s'.tasks)
  {
    forall t | 0 <= t < |s.tasks|
      ensures s'.tasks[t].id == s.tasks[t].id && s'.tasks[t].instanceId == s.tasks[t].instanceId
      ensures s'.tasks[t].tenantId == s.tasks[t].tenantId && s'.tasks[t].idempotencyKey == s.tasks[t].idempotencyKey
    {
      assert QuietChange(s.tasks[t], s'.tasks[t]);
    }
    QuietFound(s, s');
    forall t, u | 0 <= t < u < |s'.tasks|
      ensures !SharedKey(s'.tasks[t], s'.tasks[u])
    {
      assert !SharedKey(s.tasks[t], s.tasks[u]);
    }
  }

  lemma QuietFound(s: State, s': State)
    requires QuietStep(s, s')
    requires TasksFound(s.tasks, s.instances)
    ensures TasksFound(s'.tasks, s'.instances)
  {
    forall u | 0 <= u < |s'.tasks|
      ensures FindInstance(s'.instances, s'.tasks[u].instanceId) < |s'.instances|
    {
      assert QuietChange(s.tasks[u], s'.tasks[u]);
      StillFound(s.instances, s'.instances, s.tasks[u].instanceId);
    }
  }

  lemma QuietOk(s: State, s': State)
    requires WorkflowOk(s) && QuietStep(s, s')
    ensures WorkflowOk(s')
  {
    QuietIds(s, s');
    forall j | 0 <= j < |s'.instances|
      ensures HistoryOk(s'.instances[j], GraphOf(s'.versions, s'.instances[j].versionId), s'.tasks)
    {
      QuietHistory(s.instances[j], s'.instances[j], GraphOf(s.versions, s.instances[j].versionId), s.tasks, s'.tasks);
    }
  }

  lemma CancelOk(s: State, p: Principal, id: Id, live: bool, ok: bool)
    requires WorkflowOk(s)
    ensures WorkflowOk(CancelInstance(s, p, id, live, ok))
  {
    var s' := CancelInstance(s, p, id, live, ok);
    if s' != s {
      CancelQuiet(s, p, id, live, ok);
      QuietOk(s, s');
    }
  }

  lemma CancelQuiet(s: State, p: Principal, id: Id, live: bool, ok: bool)
    requires IdsOk(s) && CancelInstance(s, p, id, live, ok) != s
    ensures QuietStep(s, CancelInstance(s, p, id, live, ok))
  {
    var s' := CancelInstance(s, p, id, live, ok);
    var ts := CancelTasks(s.tasks, id);
    forall i | 0 <= i < |s.instances|
      ensures EndKept(s.instances[i], s'.instances[i], GraphOf(s.versions, s.instances[i].versionId), s.tasks, ts)
    {
      CancelKeepsEnd(s.instances[i], s'.instances[i], GraphOf(s.versions, s.instances[i].versionId), s.tasks, id);
    }
  }

  lemma CancelKeepsEnd(instance: Instance, instance': Instance, g: Graph, ts: seq<Task>, id: Id)
    requires instance' == if instance.id == id && instance.status.Running? then instance.(status := Cancelled) else instance
    requires instance.id == id ==> instance.status.Running?
    ensures EndKept(instance, instance', g, ts, CancelTasks(ts, id))
  {
    forall t | 0 <= t < |ts| && ts[t].instanceId == instance.id && EndsWell(instance, g, ts[t])
      ensures EndsWell(instance', g, CancelTasks(ts, id)[t])
    {
      assert CancelTasks(ts, id)[t] == CancelTask(ts[t], id);
    }
  }

  lemma EscalateOk(s: State, now: int)
    requires WorkflowOk(s)
    ensures WorkflowOk(Escalate(s, now))
  {
    EscalateQuiet(s, now);
    QuietOk(s, Escalate(s, now));
  }

  lemma EscalateQuiet(s: State, now: int)
    ensures QuietStep(s, Escalate(s, now))
  {
    var ts := EscalateTasks(s.tasks, now);
    forall i | 0 <= i < |s.instances|
      ensures EndKept(s.instances[i], s.instances[i], GraphOf(s.versions, s.instances[i].versionId), s.tasks, ts)
    {
      EscalateKeepsEnd(s.instances[i], GraphOf(s.versions, s.instances[i].versionId), s.tasks, now);
    }
  }

  lemma EscalateKeepsEnd(instance: Instance, g: Graph, ts: seq<Task>, now: int)
    ensures EndKept(instance, instance, g, ts, EscalateTasks(ts, now))
  {
    forall t | 0 <= t < |ts| && EndsWell(instance, g, ts[t])
      ensures EndsWell(instance, g, EscalateTasks(ts, now)[t])
    {
      assert EscalateTasks(ts, now)[t] == EscalateTask(ts[t], now);
    }
  }

  // ---------------------------------------------------------------- every run

  lemma StepKeepsWorkflowOk(s: State, step: Step)
    requires WorkflowOk(s)
    ensures WorkflowOk(Apply(s, step))
  {
    if IsElsewhere(step) {
      ElsewhereStep(s, step);
    } else {
      WorkflowStep(s, step);
    }
  }

  lemma WorkflowStep(s: State, step: Step)
    requires WorkflowOk(s) && !IsElsewhere(step)
    ensures WorkflowOk(Apply(s, step))
  {
    if step.AddVersionStep? || step.PublishStep? || step.StartStep? {
      DefinitionStep(s, step);
    } else {
      InstanceStep(s, step);
    }
  }

  lemma DefinitionStep(s: State, step: Step)
    requires WorkflowOk(s) && (step.AddVersionStep? || step.PublishStep? || step.StartStep?)
    ensures WorkflowOk(Apply(s, step))
  {
    match step
    case AddVersionStep(p, id, g, ok) => AddVersionOk(s, p, id, g, ok);
    case PublishStep(p, id, ok) => PublishOk(s, p, id, ok);
    case StartStep(p, key, now, ok) => StartOk(s, p, key, now, ok);
  }

  lemma InstanceStep(s: State, step: Step)
    requires WorkflowOk(s) && (step.CompleteStep? || step.CancelStep? || step.EscalateStep?)
    ensures WorkflowOk(Apply(s, step))
  {
    if step.CompleteStep? {
      CompleteStepOk(s, step);
    } else if step.CancelStep? {
      CancelOk(s, step.p, step.id, step.live, step.permitted);
    } else {
      EscalateOk(s, step.now);
    }
  }

  lemma CompleteStepOk(s: State, step: Step)
    requires WorkflowOk(s) && step.CompleteStep?
    ensures WorkflowOk(Apply(s, step))
  {
    CompleteOk(s, step.p, step.id, step.decision, step.key, step.now, step.live, step.permitted);
  }

  predicate IsElsewhere(step: Step) {
    !(step.AddVersionStep? || step.PublishStep? || step.StartStep? || step.CompleteStep? || step.CancelStep? || step.EscalateStep?)
  }

  /** Payments, configuration, rules and definitions do not touch the workflow's records. */
  lemma ElsewhereSame(s: State, step: Step)
    requires IsElsewhere(step)
    ensures var s' := Apply(s, step);
      s'.versions == s.versions && s'.instances == s.instances && s'.tasks == s.tasks && s.nextId <= s'.nextId
  {
  }

  lemma ElsewhereStep(s: State, step: Step)
    requires WorkflowOk(s) && IsElsewhere(step)
    ensures WorkflowOk(Apply(s, step))
  {
    ElsewhereSame(s, step);
    VersionsOnly(s, Apply(s, step));
  }

  lemma {:induction false} EveryRunWorkflowOk(tenantId: string, author: Id, nextId: Id, steps: seq<Step>)
    requires nextId > 0
    ensures WorkflowOk(Run(Seeded(tenantId, author, nextId), steps))
  {
    if steps != [] {
      EveryRunWorkflowOk(tenantId, author, nextId, steps[..|steps| - 1]);
      StepKeepsWorkflowOk(Run(Seeded(tenantId, author, nextId), steps[..|steps| - 1]), steps[|steps| - 1]);
    }
  }

  /** The decisions taken so far on an instance, oldest first, and the nodes its tasks were created for. */
  function Taken(s: State, i: nat): seq<Decision>
    requires i < |s.instances|
  {
    Decisions(s.tasks, Positions(s.tasks, s.instances[i].id))
  }

  function Visited(s: State, i: nat): seq<string>
    requires i < |s.instances|
  {
    Keys(s.tasks, Positions(s.tasks, s.instances[i].id))
  }

  /** Simulation refines live execution: the tasks of every instance in every run walk the simulated path. */
  lemma LiveFollowsSimulation(tenantId: string, author: Id, nextId: Id, steps: seq<Step>, i: nat)
    requires nextId > 0 && i < |Run(Seeded(tenantId, author, nextId), steps).instances|
    ensures var s := Run(Seeded(tenantId, author, nextId), steps);
      var g := GraphOf(s.versions, s.instances[i].versionId);
      Visited(s, i) == PathFrom(g, g.start, Taken(s, i))
  {
    EveryRunWorkflowOk(tenantId, author, nextId, steps);
    var s := Run(Seeded(tenantId, author, nextId), steps);
    assert HistoryOk(s.instances[i], GraphOf(s.versions, s.instances[i].versionId), s.tasks);
  }

  /** The only open task of an instance, at its current node. */
  predicate OnlyOpenTask(s: State, i: nat, t: nat)
    requires i < |s.instances| && t < |s.tasks|
  {
    && s.tasks[t].instanceId == s.instances[i].id && IsOpen(s.tasks[t])
    && s.instances[i].currentNode == Some(s.tasks[t].nodeKey)
    && forall u :: 0 <= u < |s.tasks| && u != t && s.tasks[u].instanceId == s.instances[i].id ==> IsDecided(s.tasks[u])
  }

  /** A running instance has exactly one open task, the others being decided; one that ended has none pending. */
  lemma OpenTasks(s: State, i: nat)
    requires WorkflowOk(s) && i < |s.instances|
    ensures s.instances[i].status.Running? ==> exists t :: 0 <= t < |s.tasks| && OnlyOpenTask(s, i, t)
    ensures !s.instances[i].status.Running? ==>
              forall t :: 0 <= t < |s.tasks| && s.tasks[t].instanceId == s.instances[i].id ==> !s.tasks[t].status.PendingTask?
  {
    var g := GraphOf(s.versions, s.instances[i].versionId);
    if s.instances[i].status.Running? {
      var t := OneOpen(s.instances[i], g, s.tasks);
      assert OnlyOpenTask(s, i, t);
    } else {
      NonePending(s.instances[i], g, s.tasks);
    }
  }

  /** All the instance's tasks but one are decided, and that one accounts for how the instance stands. */
  predicate AccountedFor(s: State, i: nat, t: nat)
    requires i < |s.instances| && t < |s.tasks|
  {
    && s.tasks[t].instanceId == s.instances[i].id
    && EndsWell(s.instances[i], GraphOf(s.versions, s.instances[i].versionId), s.tasks[t])
    && forall u :: 0 <= u < |s.tasks| && u != t && s.tasks[u].instanceId == s.instances[i].id ==> IsDecided(s.tasks[u])
  }

  /**
   * An instance is completed only by an approval that leads nowhere further, and cancelled by a rejection that leads
   * nowhere further or by hand, with its last task cancelled or escalated.
   */
  lemma EndsAsDecided(s: State, i: nat)
    requires WorkflowOk(s) && i < |s.instances|
    ensures exists t :: 0 <= t < |s.tasks| && AccountedFor(s, i, t)
  {
    var last := LastAlone(s.instances[i], GraphOf(s.versions, s.instances[i].versionId), s.tasks);
    assert AccountedFor(s, i, last);
  }

  // ---------------------------------------------------------------- what never changes again

  /** Only pending tasks and running instances ever change. */
  predicate Settling(s: State, s': State) {
    && |s.tasks| <= |s'.tasks| && |s.instances| <= |s'.instances|
    && (forall t :: 0 <= t < |s.tasks| && !s.tasks[t].status.PendingTask? ==> s'.tasks[t] == s.tasks[t])
    && (forall i :: 0 <= i < |s.instances| && !s.instances[i].status.Running? ==> s'.instances[i] == s.instances[i])
  }

  lemma StepSettles(s: State, step: Step)
    ensures Settling(s, Apply(s, step))
  {
    match step
    case CompleteStep(p, id, d, key, now, live, ok) => CompleteSettles(s, p, id, d, key, now, live, ok);
    case CancelStep(p, id, live, ok) => CancelSettles(s, p, id, live, ok);
    case EscalateStep(now) => EscalateSettles(s, now);
    case StartStep(p, key, now, ok) => StartSettles(s, p, key, now, ok);
    case _ => SameRecords(s, step);
  }

  lemma StartSettles(s: State, p: Principal, key: string, now: int, ok: bool)
    ensures Settling(s, Start(s, p, key, now, ok))
  {
  }

  lemma CompleteSettles(s: State, p: Principal, id: Id, d: Decision, key: string, now: int, live: bool, ok: bool)
    ensures Settling(s, Complete(s, p, id, d, key, now, live, ok).0)
  {
    if CheckComplete(s, p, id, key, now, live, ok).Decided? {
      var t := FindTask(s.tasks, id);
      var i := FindInstance(s.instances, s.tasks[t].instanceId);
      var v := FindVersion(s.versions, s.instances[i].versionId);
      SettleShape(s, p, t, i, v, d, key);
      var s' := Settle(s, p, t, i, v, d, key);
      SettledSettles(s, s', t, i, DecideTask(s.tasks[t], d, key), s'.instances[i], NextTasksOf(s, p, t, i, v, d));
    }
  }

  lemma SettledSettles(s: State, s': State, t: nat, i: nat, task: Task, instance: Instance, more: seq<Task>)
    requires Settled(s, s', t, i, task, instance, more)
    requires s.tasks[t].status.PendingTask? && s.instances[i].status.Running?
    ensures Settling(s, s')
  {
  }

  lemma CancelSettles(s: State, p: Principal, id: Id, live: bool, ok: bool)
    ensures Settling(s, CancelInstance(s, p, id, live, ok))
  {
    assert forall t :: 0 <= t < |s.tasks| && !s.tasks[t].status.PendingTask? ==> CancelTask(s.tasks[t], id) == s.tasks[t];
  }

  lemma EscalateSettles(s: State, now: int)
    ensures Settling(s, Escalate(s, now))
  {
    assert forall t :: 0 <= t < |s.tasks| && !s.tasks[t].status.PendingTask? ==> EscalateTask(s.tasks[t], now) == s.tasks[t];
  }

  /** No other step touches tasks or instances. */
  lemma SameRecords(s: State, step: Step)
    requires !(step.CompleteStep? || step.CancelStep? || step.EscalateStep? || step.StartStep?)
    ensures Apply(s, step).tasks == s.tasks && Apply(s, step).instances == s.instances
  {
  }

  /** A task is decided at most once, an escalated or cancelled one never, and an ended instance stays as it ended. */
  lemma {:induction false} SettledForGood(s: State, steps: seq<Step>)
    ensures Settling(s, Run(s, steps))
  {
    if steps != [] {
      SettledForGood(s, steps[..|steps| - 1]);
      StepSettles(Run(s, steps[..|steps| - 1]), steps[|steps| - 1]);
    }
  }

  /** An instance whose open task was escalated: nothing but its cancellation moves it. */
  predicate Stuck(s: State, i: nat) {
    && i < |s.instances| && s.instances[i].status.Running?
    && exists t :: 0 <= t < |s.tasks| && s.tasks[t].instanceId == s.instances[i].id && s.tasks[t].status.EscalatedTask?
  }

  /** An instance gets stuck when its open task falls due. */
  lemma OverdueGetsStuck(s: State, i: nat, t: nat, now: int)
    requires i < |s.instances| && s.instances[i].status.Running?
    requires t < |s.tasks| && s.tasks[t].instanceId == s.instances[i].id && s.tasks[t].status.PendingTask?
    requires s.tasks[t].dueAt.Some? && s.tasks[t].dueAt.value <= now
    ensures Stuck(Escalate(s, now), i)
  {
    assert Escalate(s, now).tasks[t] == EscalateTask(s.tasks[t], now);
  }

  lemma StuckHasNothingPending(s: State, i: nat, u: nat)
    requires WorkflowOk(s) && Stuck(s, i) && u < |s.tasks| && s.tasks[u].instanceId == s.instances[i].id
    ensures !s.tasks[u].status.PendingTask?
  {
    var t :| 0 <= t < |s.tasks| && s.tasks[t].instanceId == s.instances[i].id && s.tasks[t].status.EscalatedTask?;
    EscalatedIsLast(s.instances[i], GraphOf(s.versions, s.instances[i].versionId), s.tasks, t, u);
  }

  lemma StuckStays(s: State, step: Step, i: nat)
    requires WorkflowOk(s) && Stuck(s, i)
    requires step.CancelStep? ==> step.id != s.instances[i].id
    ensures Stuck(Apply(s, step), i) && Apply(s, step).instances[i] == s.instances[i]
  {
    var t :| 0 <= t < |s.tasks| && s.tasks[t].instanceId == s.instances[i].id && s.tasks[t].status.EscalatedTask?;
    StepSettles(s, step);
    assert Apply(s, step).tasks[t] == s.tasks[t];
    StuckUnmoved(s, step, i);
  }

  lemma StuckUnmoved(s: State, step: Step, i: nat)
    requires WorkflowOk(s) && Stuck(s, i)
    requires step.CancelStep? ==> step.id != s.instances[i].id
    ensures i < |Apply(s, step).instances| && Apply(s, step).instances[i] == s.instances[i]
  {
    match step
    case CompleteStep(p, id, d, key, now, live, ok) => StuckUndecided(s, p, id, d, key, now, live, ok, i);
    case _ => UnmovedOtherwise(s, step, i);
  }

  lemma UnmovedOtherwise(s: State, step: Step, i: nat)
    requires i < |s.instances| && !step.CompleteStep?
    requires step.CancelStep? ==> step.id != s.instances[i].id
    ensures i < |Apply(s, step).instances| && Apply(s, step).instances[i] == s.instances[i]
  {
    if IsElsewhere(step) {
      ElsewhereSame(s, step);
    }
  }

  lemma SettleElsewhere(s: State, p: Principal, t: nat, j: nat, v: nat, d: Decision, key: string, i: nat)
    requires Located(s, t, j, v) && i < |s.instances| && s.tasks[t].instanceId != s.instances[i].id
    ensures var s' := Settle(s, p, t, j, v, d, key);
      i < |s'.instances| && s'.instances[i] == s.instances[i]
  {
  }

  lemma StuckUndecided(s: State, p: Principal, id: Id, d: Decision, key: string, now: int, live: bool, ok: bool, i: nat)
    requires WorkflowOk(s) && Stuck(s, i)
    ensures var s' := Complete(s, p, id, d, key, now, live, ok).0;
      i < |s'.instances| && s'.instances[i] == s.instances[i]
  {
    if CheckComplete(s, p, id, key, now, live, ok).Decided? {
      var u := FindTask(s.tasks, id);
      if s.tasks[u].instanceId == s.instances[i].id {
        StuckHasNothingPending(s, i, u);
        assert false;
      }
      var j := FindInstance(s.instances, s.tasks[u].instanceId);
      SettleElsewhere(s, p, u, j, FindVersion(s.versions, s.instances[j].versionId), d, key, i);
    }
  }

  predicate NotCancelled(steps: seq<Step>, id: Id) {
    forall k :: 0 <= k < |steps| && steps[k].CancelStep? ==> steps[k].id != id
  }

  lemma {:induction false} StuckForGood(s: State, steps: seq<Step>, i: nat)
    requires WorkflowOk(s) && Stuck(s, i) && NotCancelled(steps, s.instances[i].id)
    ensures WorkflowOk(Run(s, steps)) && Stuck(Run(s, steps), i) && Run(s, steps).instances[i] == s.instances[i]
  {
    if steps != [] {
      NotCancelledBefore(steps, s.instances[i].id);
      StuckForGood(s, steps[..|steps| - 1], i);
      StuckOnce(Run(s, steps[..|steps| - 1]), steps[|steps| - 1], i);
    }
  }

  lemma NotCancelledBefore(steps: seq<Step>, id: Id)
    requires steps != [] && NotCancelled(steps, id)
    ensures NotCancelled(steps[..|steps| - 1], id)
    ensures steps[|steps| - 1].CancelStep? ==> steps[|steps| - 1].id != id
  {
  }

  lemma StuckOnce(s: State, step: Step, i: nat)
    requires WorkflowOk(s) && Stuck(s, i)
    requires step.CancelStep? ==> step.id != s.instances[i].id
    ensures WorkflowOk(Apply(s, step)) && Stuck(Apply(s, step), i) && Apply(s, step).instances[i] == s.instances[i]
  {
    StepKeepsWorkflowOk(s, step);
    StuckStays(s, step, i);
  }

  /**
   * So an escalated task blocks its workflow for good: in every run, an instance with one is as it was after any further
   * steps that do not cancel it.
   */
  lemma EscalationBlocks(tenantId: string, author: Id, nextId: Id, steps: seq<Step>, more: seq<Step>, i: nat)
    requires nextId > 0
    ensures var s := Run(Seeded(tenantId, author, nextId), steps);
      Stuck(s, i) && NotCancelled(more, s.instances[i].id) ==>
        i < |Run(s, more).instances| && Run(s, more).instances[i] == s.instances[i]
  {
    var s := Run(Seeded(tenantId, author, nextId), steps);
    if Stuck(s, i) && NotCancelled(more, s.instances[i].id) {
      EveryRunWorkflowOk(tenantId, author, nextId, steps);
      StuckForGood(s, more, i);
    }
  }
}
