/** What the workflow engine's operations do, told from the state and the request alone. */
module WorkflowEffects {
  import opened Options
  import opened Governance
  import opened WorkflowHistory
  import opened WorkflowRuns
  import GovernanceEffects

  // ---------------------------------------------------------------- definitions and versions

  /** A key is defined once in a tenant. */
  lemma DefinitionCreated(s: State, p: Principal, key: string, permitted: bool)
    ensures CreateDefinition(s, p, key, permitted) ==
      if permitted && forall d :: 0 <= d < |s.definitions| ==> !(s.definitions[d].tenantId == p.tenantId && s.definitions[d].key == key)
      then s.(definitions := s.definitions + [Definition(s.nextId, p.tenantId, key)], nextId := s.nextId + 1)
      else s
  {
  }

  predicate DefinedFor(ds: seq<Definition>, id: Id, tenantId: string) {
    exists d :: 0 <= d < |ds| && ds[d].id == id && ds[d].tenantId == tenantId
  }

  predicate NextNumber(vs: seq<Version>, definitionId: Id, number: nat) {
    && number > 0
    && (forall v :: 0 <= v < |vs| && vs[v].definitionId == definitionId ==> vs[v].version < number)
    && (number > 1 ==> exists v :: 0 <= v < |vs| && vs[v].definitionId == definitionId && vs[v].version == number - 1)
  }

  lemma {:induction false} MaxIsHighest(vs: seq<Version>, definitionId: Id)
    ensures NextNumber(vs, definitionId, MaxVersion(vs, definitionId) + 1)
  {
    if vs != [] {
      var n := |vs| - 1;
      MaxIsHighest(vs[..n], definitionId);
      assert forall v :: 0 <= v < n ==> vs[..n][v] == vs[v];
    }
  }

  /** A version of one of the tenant's definitions is added as a draft under its next number. */
  lemma VersionAdded(s: State, p: Principal, definitionId: Id, g: Graph, permitted: bool)
    ensures var t := AddVersion(s, p, definitionId, g, permitted);
      if !permitted || !DefinedFor(s.definitions, definitionId, p.tenantId) then t == s
      else
        && |t.versions| == |s.versions| + 1 && t.versions[..|s.versions|] == s.versions
        && (var v := t.versions[|s.versions|];
            v == Version(s.nextId, definitionId, v.version, DraftVersion, g) && NextNumber(s.versions, definitionId, v.version))
        && t == s.(nextId := s.nextId + 1, versions := t.versions)
  {
    MaxIsHighest(s.versions, definitionId);
  }

  predicate VersionAt(vs: seq<Version>, k: nat, id: Id) {
    k < |vs| && vs[k].id == id && forall j :: 0 <= j < k ==> vs[j].id != id
  }

  lemma UnknownVersion(s: State, p: Principal, id: Id, permitted: bool)
    requires forall k :: 0 <= k < |s.versions| ==> s.versions[k].id != id
    ensures PublishVersion(s, p, id, permitted) == s
  {
  }

  predicate RetiredFor(v: Version, v': Version, definitionId: Id) {
    v' == if v.definitionId == definitionId && v.status == PublishedVersion then v.(status := RetiredVersion) else v
  }

  /** Publishing takes the place of the definition's published version and touches no other; it needs the tenant's definition. */
  lemma VersionPublished(s: State, p: Principal, k: nat, id: Id, permitted: bool)
    requires VersionAt(s.versions, k, id)
    ensures var t := PublishVersion(s, p, id, permitted);
      if !permitted || !DefinedFor(s.definitions, s.versions[k].definitionId, p.tenantId) then t == s
      else
        && |t.versions| == |s.versions| && t == s.(versions := t.versions)
        && t.versions[k] == s.versions[k].(status := PublishedVersion)
        && forall v :: 0 <= v < |s.versions| && v != k ==> RetiredFor(s.versions[v], t.versions[v], s.versions[k].definitionId)
  {
    assert FindVersion(s.versions, id) == k;
    var vs := RetirePublished(s.versions, s.versions[k].definitionId);
    assert forall v :: 0 <= v < |s.versions| ==> vs[v] == RetireVersion(s.versions[v], s.versions[k].definitionId);
  }

  // ---------------------------------------------------------------- starting

  predicate NodeAt(g: Graph, k: nat, key: string) {
    k < |g.nodes| && g.nodes[k].key == key && forall j :: 0 <= j < k ==> g.nodes[j].key != key
  }

  predicate NoNode(g: Graph, key: string) {
    forall k :: 0 <= k < |g.nodes| ==> g.nodes[k].key != key
  }

  /** The kind of task a node asks for: its own, or a human approval when the key leads to no node. */
  predicate KindOf(g: Graph, key: string, kind: TaskType) {
    (forall k :: 0 <= k < |g.nodes| && NodeAt(g, k, key) ==> kind == g.nodes[k].nodeType) && (NoNode(g, key) ==> kind == HumanApproval)
  }

  lemma KindIsType(g: Graph, key: string)
    ensures KindOf(g, key, TypeAt(g, key))
  {
    var n := FindNode(g, key);
    assert forall k :: 0 <= k < |g.nodes| && NodeAt(g, k, key) ==> k == n;
  }

  /** The service level of a node in minutes; nothing for a missing node, a missing one or zero. */
  predicate DueSo(g: Graph, key: string, at: int, due: Option<int>) {
    && (forall k :: 0 <= k < |g.nodes| && NodeAt(g, k, key) ==>
          due == match g.nodes[k].slaMinutes case None => None case Some(m) => if m > 0 then Some(at + m * 60000) else None)
    && (NoNode(g, key) ==> due == None)
  }

  lemma DueIsSo(g: Graph, at: int)
    ensures DueSo(g, g.start, at, DueAt(g, at))
  {
    var n := FindNode(g, g.start);
    assert forall k :: 0 <= k < |g.nodes| && NodeAt(g, k, g.start) ==> k == n;
  }

  predicate PublishedFor(v: Version, definitionId: Id) {
    v.definitionId == definitionId && v.status == PublishedVersion
  }

  /** The published version of the definition with the highest number, the first one should there be several. */
  predicate BestAt(vs: seq<Version>, v: nat, definitionId: Id) {
    && v < |vs| && PublishedFor(vs[v], definitionId)
    && (forall w :: 0 <= w < |vs| && PublishedFor(vs[w], definitionId) ==> vs[w].version <= vs[v].version)
    && (forall w :: 0 <= w < v && PublishedFor(vs[w], definitionId) ==> vs[w].version < vs[v].version)
  }

  predicate NothingPublished(vs: seq<Version>, definitionId: Id) {
    forall v :: 0 <= v < |vs| ==> !PublishedFor(vs[v], definitionId)
  }

  lemma {:induction false} BestIsBest(vs: seq<Version>, definitionId: Id)
    ensures match BestPublished(vs, definitionId)
            case None => NothingPublished(vs, definitionId)
            case Some(v) => BestAt(vs, v, definitionId)
  {
    if vs != [] {
      var n := |vs| - 1;
      BestIsBest(vs[..n], definitionId);
      assert forall v :: 0 <= v < n ==> vs[..n][v] == vs[v];
    }
  }

  predicate DefinitionAt(ds: seq<Definition>, d: nat, tenantId: string, key: string) {
    && d < |ds| && ds[d].tenantId == tenantId && ds[d].key == key
    && forall j :: 0 <= j < d ==> !(ds[j].tenantId == tenantId && ds[j].key == key)
  }

  /** The instance and the pending task of a start, and its log entry. */
  predicate StartedWith(s: State, t: State, p: Principal, definitionId: Id, version: Version, at: int) {
    var g := version.graph;
    && t.instances == s.instances + [Instance(s.nextId, p.tenantId, definitionId, version.id, Running, p.id, Some(g.start))]
    && |t.tasks| == |s.tasks| + 1 && t.tasks[..|s.tasks|] == s.tasks
    && (var task := t.tasks[|s.tasks|];
        && task == Task(s.nextId + 1, p.tenantId, s.nextId, g.start, task.taskType, PendingTask, task.dueAt, Some(at + 86400000), None, None)
        && KindOf(g, g.start, task.taskType) && DueSo(g, g.start, at, task.dueAt))
    && t == s.(nextId := s.nextId + 2, instances := t.instances, tasks := t.tasks,
               actions := s.actions + [Action(p.id, "workflow:execute:instance", Record(s.nextId))])
  }

  lemma NothingToStart(s: State, p: Principal, key: string, at: int, permitted: bool)
    requires !permitted || forall d :: 0 <= d < |s.definitions| && DefinitionAt(s.definitions, d, p.tenantId, key) ==>
      NothingPublished(s.versions, s.definitions[d].id)
    ensures Start(s, p, key, at, permitted) == s
  {
    var d := FindDefinitionByKey(s.definitions, p.tenantId, key);
    if permitted && d < |s.definitions| {
      assert DefinitionAt(s.definitions, d, p.tenantId, key);
      BestIsBest(s.versions, s.definitions[d].id);
    }
  }

  /** A permitted start of a definition with a published version runs the best one. */
  lemma InstanceStarted(s: State, p: Principal, key: string, at: int, d: nat, v: nat)
    requires DefinitionAt(s.definitions, d, p.tenantId, key) && BestAt(s.versions, v, s.definitions[d].id)
    ensures StartedWith(s, Start(s, p, key, at, true), p, s.definitions[d].id, s.versions[v], at)
  {
    assert FindDefinitionByKey(s.definitions, p.tenantId, key) == d;
    BestIsBest(s.versions, s.definitions[d].id);
    assert BestPublished(s.versions, s.definitions[d].id) == Some(v);
    KindIsType(s.versions[v].graph, s.versions[v].graph.start);
    DueIsSo(s.versions[v].graph, at);
  }

  // ---------------------------------------------------------------- cancelling and escalating

  predicate InstanceAt(xs: seq<Instance>, i: nat, id: Id, tenantId: string) {
    && i < |xs| && xs[i].id == id && xs[i].tenantId == tenantId
    && forall j :: 0 <= j < i ==> !(xs[j].id == id && xs[j].tenantId == tenantId)
  }

  lemma NothingToCancel(s: State, p: Principal, id: Id, live: bool, permitted: bool)
    requires !live || !permitted || forall i :: 0 <= i < |s.instances| && InstanceAt(s.instances, i, id, p.tenantId) ==>
      s.instances[i].status != Running
    ensures CancelInstance(s, p, id, live, permitted) == s
  {
    var i := Find(s.instances, (x: Instance) => x.id == id && x.tenantId == p.tenantId);
    if live && permitted && i < |s.instances| {
      assert InstanceAt(s.instances, i, id, p.tenantId);
    }
  }

  predicate CancelledWith(task: Task, task': Task, instanceId: Id) {
    task' == if task.instanceId == instanceId && task.status == PendingTask then task.(status := CancelledTask) else task
  }

  /** A running instance of the tenant is cancelled, with its pending tasks and no others. */
  lemma InstanceCancels(s: State, p: Principal, i: nat, id: Id)
    requires InstanceAt(s.instances, i, id, p.tenantId) && s.instances[i].status == Running
    ensures var t := CancelInstance(s, p, id, true, true);
      && t.instances == s.instances[i := s.instances[i].(status := Cancelled)]
      && |t.tasks| == |s.tasks|
      && (forall k :: 0 <= k < |s.tasks| ==> CancelledWith(s.tasks[k], t.tasks[k], id))
      && t == s.(instances := t.instances, tasks := t.tasks)
  {
    assert Find(s.instances, (x: Instance) => x.id == id && x.tenantId == p.tenantId) == i;
    assert forall k :: 0 <= k < |s.tasks| ==> CancelTasks(s.tasks, id)[k] == CancelTask(s.tasks[k], id);
  }

  predicate EscalatedAt(task: Task, task': Task, at: int) {
    task' == if task.status == PendingTask && task.dueAt.Some? && task.dueAt.value <= at then task.(status := EscalatedTask) else task
  }

  /** Exactly the pending tasks whose date has come are escalated. */
  lemma TasksEscalate(s: State, at: int)
    ensures var t := Escalate(s, at);
      && |t.tasks| == |s.tasks| && t == s.(tasks := t.tasks)
      && forall k :: 0 <= k < |s.tasks| ==> EscalatedAt(s.tasks[k], t.tasks[k], at)
  {
    assert forall k :: 0 <= k < |s.tasks| ==> EscalateTasks(s.tasks, at)[k] == EscalateTask(s.tasks[k], at);
  }

  // ---------------------------------------------------------------- completing

  predicate TaskAt(ts: seq<Task>, t: nat, id: Id) {
    t < |ts| && ts[t].id == id && forall j :: 0 <= j < t ==> ts[j].id != id
  }

  /** The first task of the tenant that carries an idempotency key. */
  predicate KeyAt(ts: seq<Task>, e: nat, tenantId: string, key: string) {
    && e < |ts| && ts[e].tenantId == tenantId && ts[e].idempotencyKey == Some(key)
    && forall j :: 0 <= j < e ==> !(ts[j].tenantId == tenantId && ts[j].idempotencyKey == Some(key))
  }

  /** The key was used for this very task, which is settled. */
  predicate Repeats(s: State, p: Principal, id: Id, key: string) {
    exists e :: 0 <= e < |s.tasks| && KeyAt(s.tasks, e, p.tenantId, key) && s.tasks[e].id == id && s.tasks[e].status != PendingTask
  }

  /** The key was used for another task. */
  predicate Reuses(s: State, p: Principal, id: Id, key: string) {
    exists e :: 0 <= e < |s.tasks| && KeyAt(s.tasks, e, p.tenantId, key) && s.tasks[e].id != id
  }

  lemma KeyTells(s: State, p: Principal, id: Id, key: string)
    ensures var e := FindIdempotencyKey(s.tasks, p.tenantId, key);
      && (Repeats(s, p, id, key) <==> e < |s.tasks| && s.tasks[e].id == id && s.tasks[e].status != PendingTask)
      && (Reuses(s, p, id, key) <==> e < |s.tasks| && s.tasks[e].id != id)
  {
    var e := FindIdempotencyKey(s.tasks, p.tenantId, key);
    assert forall j :: 0 <= j < |s.tasks| && KeyAt(s.tasks, j, p.tenantId, key) ==> j == e;
    assert e < |s.tasks| ==> KeyAt(s.tasks, e, p.tenantId, key);
  }

  predicate AiAsked(task: Task, p: Principal) {
    task.taskType == HumanApproval && p.actorType == AiAgent
  }

  predicate WindowClosed(task: Task, at: int) {
    task.authorityExpiresAt.Some? && task.authorityExpiresAt.value < at
  }

  /** What the checks before the instance is looked at answer, each for what those before it let through. */
  lemma EarlyAnswers(s: State, p: Principal, t: nat, id: Id, key: string, at: int, live: bool, permitted: bool)
    requires TaskAt(s.tasks, t, id)
    ensures var task, outcome := s.tasks[t], CheckComplete(s, p, id, key, at, live, permitted);
      && (outcome == SimulationBlocked <==> !live)
      && (live && task.tenantId != p.tenantId ==> outcome == NotFound)
      && (live && task.tenantId == p.tenantId ==>
            && (outcome == IdempotentReplay <==> Repeats(s, p, id, key))
            && (outcome == KeyReuse <==> Reuses(s, p, id, key))
            && (!Repeats(s, p, id, key) && !Reuses(s, p, id, key) ==>
                  && (outcome == AiRefused <==> AiAsked(task, p))
                  && (!AiAsked(task, p) ==>
                        && (outcome == AuthorityExpired <==> WindowClosed(task, at))
                        && (!WindowClosed(task, at) ==> (outcome == NotPermitted <==> !permitted)))))
  {
    assert FindTask(s.tasks, id) == t;
    KeyTells(s, p, id, key);
  }

  lemma UnknownTask(s: State, p: Principal, id: Id, key: string, at: int, live: bool, permitted: bool)
    requires forall t :: 0 <= t < |s.tasks| ==> s.tasks[t].id != id
    ensures CheckComplete(s, p, id, key, at, live, permitted) == if live then NotFound else SimulationBlocked
  {
  }

  /** A request that the early checks let through. */
  predicate GetsFar(s: State, p: Principal, t: nat, id: Id, key: string, at: int, live: bool, permitted: bool) {
    && TaskAt(s.tasks, t, id) && live && s.tasks[t].tenantId == p.tenantId && !Repeats(s, p, id, key) && !Reuses(s, p, id, key)
    && !AiAsked(s.tasks[t], p) && !WindowClosed(s.tasks[t], at) && permitted
  }

  predicate OwnerAt(s: State, t: nat, i: nat) {
    && t < |s.tasks| && i < |s.instances| && s.instances[i].id == s.tasks[t].instanceId
    && forall j :: 0 <= j < i ==> s.instances[j].id != s.tasks[t].instanceId
  }

  predicate InEffect(vs: seq<Version>, id: Id) {
    exists v :: 0 <= v < |vs| && VersionAt(vs, v, id) && vs[v].status == PublishedVersion
  }

  /** What the later checks answer: the instance runs, its version is in effect, and the principal may decide on it. */
  lemma LateAnswers(s: State, p: Principal, t: nat, i: nat, id: Id, key: string, at: int, live: bool, permitted: bool)
    requires GetsFar(s, p, t, id, key, at, live, permitted) && OwnerAt(s, t, i)
    ensures var x, outcome := s.instances[i], CheckComplete(s, p, id, key, at, live, permitted);
      && (outcome == InstanceCancelled <==> x.status == Cancelled)
      && (outcome == InstanceNotRunning <==> x.status == Completed)
      && (x.status == Running ==>
            && (outcome == VersionNotEffective <==> !InEffect(s.versions, x.versionId))
            && (InEffect(s.versions, x.versionId) ==> outcome == LastAnswer(s, p, s.tasks[t], x)))
  {
    FarAnswers(s, p, t, i, id, key, at, live, permitted);
    EffectTells(s.versions, s.instances[i].versionId);
    LastIs(s, p, s.tasks[t], s.instances[i]);
  }

  lemma LastIs(s: State, p: Principal, task: Task, x: Instance)
    ensures var gate := CanDecide(task.status.PendingTask?, x.startedBy, p);
      LastAnswer(s, p, task, x) ==
        if !gate.Allow? then GateRefused(gate)
        else if !Separate(s, p, "workflow:approve:task", Record(x.id)) then SodRefused
        else Decided
  {
    GovernanceEffects.TaskSide(s, p, Record(x.id));
  }

  lemma FarAnswers(s: State, p: Principal, t: nat, i: nat, id: Id, key: string, at: int, live: bool, permitted: bool)
    requires GetsFar(s, p, t, id, key, at, live, permitted) && OwnerAt(s, t, i)
    ensures var x, outcome := s.instances[i], CheckComplete(s, p, id, key, at, live, permitted);
      var v := FindVersion(s.versions, x.versionId);
      var gate := CanDecide(s.tasks[t].status.PendingTask?, x.startedBy, p);
      outcome ==
        if x.status.Cancelled? then InstanceCancelled
        else if !x.status.Running? then InstanceNotRunning
        else if v == |s.versions| || !s.versions[v].status.PublishedVersion? then VersionNotEffective
        else if !gate.Allow? then GateRefused(gate)
        else if !Separate(s, p, "workflow:approve:task", Record(x.id)) then SodRefused
        else Decided
  {
    assert FindTask(s.tasks, id) == t && FindInstance(s.instances, s.tasks[t].instanceId) == i;
    KeyTells(s, p, id, key);
  }

  /** Nobody decides twice, as an AI agent, on what they started, or against the separation of duties. */
  function LastAnswer(s: State, p: Principal, task: Task, x: Instance): CompleteOutcome {
    if task.status != PendingTask then GateRefused(NotPendingGate)
    else if p.actorType == AiAgent then GateRefused(AiCannotApprove)
    else if p.id == x.startedBy then GateRefused(SelfApproval)
    else if Action(p.id, "workflow:execute:instance", Record(x.id)) in s.actions then SodRefused
    else Decided
  }

  lemma EffectTells(vs: seq<Version>, id: Id)
    ensures var v := FindVersion(vs, id); InEffect(vs, id) <==> v < |vs| && vs[v].status == PublishedVersion
  {
    var v := FindVersion(vs, id);
    assert forall w :: 0 <= w < |vs| && VersionAt(vs, w, id) ==> w == v;
    assert v < |vs| ==> VersionAt(vs, v, id);
  }

  lemma OrphanTask(s: State, p: Principal, t: nat, id: Id, key: string, at: int, live: bool, permitted: bool)
    requires GetsFar(s, p, t, id, key, at, live, permitted) && forall i :: 0 <= i < |s.instances| ==> s.instances[i].id != s.tasks[t].instanceId
    ensures CheckComplete(s, p, id, key, at, live, permitted) == NotFound
  {
    assert FindTask(s.tasks, id) == t;
    KeyTells(s, p, id, key);
  }

  /** Where a decision leads from a node: nowhere from a missing one, or when nothing or an empty key is said. */
  predicate LeadsTo(g: Graph, key: string, d: Decision, next: Option<string>) {
    && (forall k :: 0 <= k < |g.nodes| && NodeAt(g, k, key) ==>
          var said := match d case Approve => g.nodes[k].nextOnApprove case Reject => g.nodes[k].nextOnReject;
          next == if said == Some("") then None else said)
    && (NoNode(g, key) ==> next == None)
  }

  lemma NextLeads(g: Graph, key: string, d: Decision)
    ensures LeadsTo(g, key, d, NextNode(g, key, d))
  {
    var n := FindNode(g, key);
    assert forall k :: 0 <= k < |g.nodes| && NodeAt(g, k, key) ==> k == n;
  }

  /** What a decision changes: its task, its instance, the log, and one task more where it leads on. */
  predicate DecidedSo(s: State, u: State, p: Principal, t: nat, i: nat, g: Graph, d: Decision, key: string, next: Option<string>)
    requires t < |s.tasks| && i < |s.instances|
  {
    var task := s.tasks[t].(status := (match d case Approve => CompletedTask case Reject => RejectedTask),
                            decision := Some(d), idempotencyKey := Some(key));
    var x := s.instances[i];
    && u.actions == s.actions + [Action(p.id, "workflow:approve:task", Record(x.id))]
    && u == s.(tasks := u.tasks, instances := u.instances, actions := u.actions, nextId := u.nextId)
    && match next
       case None =>
         && u.tasks == s.tasks[t := task] && u.nextId == s.nextId
         && u.instances == s.instances[i := x.(currentNode := None, status := match d case Approve => Completed case Reject => Cancelled)]
       case Some(node) =>
         && |u.tasks| == |s.tasks| + 1 && u.tasks[..|s.tasks|] == s.tasks[t := task] && u.nextId == s.nextId + 1
         && (var more := u.tasks[|s.tasks|];
             && more == Task(s.nextId, p.tenantId, x.id, node, more.taskType, PendingTask, None, None, None, None)
             && KindOf(g, node, more.taskType))
         && u.instances == s.instances[i := x.(currentNode := Some(node))]
  }

  /** A decision that goes through settles its task as it says and leads where the version's graph says; any other changes nothing. */
  lemma TaskCompleted(
    s: State, p: Principal, t: nat, i: nat, v: nat, id: Id, d: Decision, key: string, at: int, live: bool, permitted: bool)
    returns (next: Option<string>)
    requires TaskAt(s.tasks, t, id) && OwnerAt(s, t, i) && VersionAt(s.versions, v, s.instances[i].versionId)
    ensures LeadsTo(s.versions[v].graph, s.tasks[t].nodeKey, d, next)
    ensures var (u, outcome) := Complete(s, p, id, d, key, at, live, permitted);
      if outcome == Decided then DecidedSo(s, u, p, t, i, s.versions[v].graph, d, key, next) else u == s
  {
    var g := s.versions[v].graph;
    next := NextNode(g, s.tasks[t].nodeKey, d);
    NextLeads(g, s.tasks[t].nodeKey, d);
    CompleteIsSettle(s, p, t, i, v, id, d, key, at, live, permitted);
    SettledSo(s, p, t, i, v, d, key);
  }

  lemma CompleteIsSettle(
    s: State, p: Principal, t: nat, i: nat, v: nat, id: Id, d: Decision, key: string, at: int, live: bool, permitted: bool)
    requires TaskAt(s.tasks, t, id) && OwnerAt(s, t, i) && VersionAt(s.versions, v, s.instances[i].versionId)
    ensures Located(s, t, i, v)
    ensures var outcome := CheckComplete(s, p, id, key, at, live, permitted);
      Complete(s, p, id, d, key, at, live, permitted) == (if outcome == Decided then Settle(s, p, t, i, v, d, key) else s, outcome)
  {
    assert FindTask(s.tasks, id) == t && FindInstance(s.instances, s.tasks[t].instanceId) == i;
    assert FindVersion(s.versions, s.instances[i].versionId) == v;
  }

  lemma SettledSo(s: State, p: Principal, t: nat, i: nat, v: nat, d: Decision, key: string)
    requires Located(s, t, i, v)
    ensures var g := s.versions[v].graph;
      DecidedSo(s, Settle(s, p, t, i, v, d, key), p, t, i, g, d, key, NextNode(g, s.tasks[t].nodeKey, d))
  {
    var g := s.versions[v].graph;
    var next := NextNode(g, s.tasks[t].nodeKey, d);
    if next.Some? {
      KindIsType(g, next.value);
    }
  }

  // ---------------------------------------------------------------- asking again

  /** A task of the tenant that was decided under the key. */
  predicate SettledUnder(s: State, t: nat, id: Id, tenantId: string, key: string) {
    && t < |s.tasks| && s.tasks[t].id == id && s.tasks[t].tenantId == tenantId
    && s.tasks[t].idempotencyKey == Some(key) && s.tasks[t].status != PendingTask
  }

  lemma AskedAgain(s: State, p: Principal, t: nat, id: Id, key: string, at: int, permitted: bool)
    requires TaskIdsOk(s.tasks, s.nextId) && KeysUnique(s.tasks) && SettledUnder(s, t, id, p.tenantId, key)
    ensures CheckComplete(s, p, id, key, at, true, permitted) == IdempotentReplay
  {
    assert TaskAt(s.tasks, t, id);
    assert forall j :: 0 <= j < t ==> !SharedKey(s.tasks[j], s.tasks[t]);
    assert KeyAt(s.tasks, t, p.tenantId, key);
    EarlyAnswers(s, p, t, id, key, at, true, permitted);
  }

  lemma DecidedIsSettled(s: State, p: Principal, id: Id, d: Decision, key: string, at: int, live: bool, permitted: bool) returns (t: nat)
    requires Complete(s, p, id, d, key, at, live, permitted).1 == Decided
    ensures SettledUnder(Complete(s, p, id, d, key, at, live, permitted).0, t, id, p.tenantId, key)
  {
    t := FindTask(s.tasks, id);
  }

  /**
   * Asking again is safe: after a decision went through, and after any further steps, the same principal's tenant gets the
   * replay answer for the same task and key, whatever it asks for and whenever, and nothing changes.
   */
  lemma RetryIsIdempotent(
    s: State, p: Principal, id: Id, d: Decision, key: string, at: int, live: bool, permitted: bool, more: seq<Step>,
    q: Principal, again: Decision, later: int, allowed: bool)
    requires WorkflowOk(s) && Complete(s, p, id, d, key, at, live, permitted).1 == Decided && q.tenantId == p.tenantId
    ensures var u := Run(Complete(s, p, id, d, key, at, live, permitted).0, more);
      Complete(u, q, id, again, key, later, true, allowed) == (u, IdempotentReplay)
  {
    var s1 := Complete(s, p, id, d, key, at, live, permitted).0;
    var t := DecidedIsSettled(s, p, id, d, key, at, live, permitted);
    CompleteOk(s, p, id, d, key, at, live, permitted);
    SettledForGood(s1, more);
    RunKeepsWorkflowOk(s1, more);
    AskedAgain(Run(s1, more), q, t, id, key, later, allowed);
  }

  lemma {:induction false} RunKeepsWorkflowOk(s: State, steps: seq<Step>)
    requires WorkflowOk(s)
    ensures WorkflowOk(Run(s, steps))
  {
    if steps != [] {
      RunKeepsWorkflowOk(s, steps[..|steps| - 1]);
      StepKeepsWorkflowOk(Run(s, steps[..|steps| - 1]), steps[|steps| - 1]);
    }
  }
}
