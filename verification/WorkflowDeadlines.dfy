/** What deadlines do to a workflow: only start tasks have any, and an instance that missed one is never decided again. */
module WorkflowDeadlines {
  import opened Options
  import opened Governance
  import opened WorkflowHistory
  import opened WorkflowRuns
  import opened WorkflowProgress

  // ---------------------------------------------------------------- only start tasks have deadlines

  /** A task that never falls due and can be decided whenever. */
  predicate Timeless(t: Task) {
    t.dueAt.None? && t.authorityExpiresAt.None? && !t.status.EscalatedTask?
  }

  /** Every task but an instance's first one is timeless. */
  predicate LaterTimeless(ts: seq<Task>) {
    forall t, u :: 0 <= t < u < |ts| && ts[t].instanceId == ts[u].instanceId ==> Timeless(ts[u])
  }

  lemma QuietLater(ts: seq<Task>, ts': seq<Task>)
    requires LaterTimeless(ts) && |ts'| == |ts|
    requires forall t :: 0 <= t < |ts| ==> ts'[t].instanceId == ts[t].instanceId && (Timeless(ts[t]) ==> Timeless(ts'[t]))
    ensures LaterTimeless(ts')
  {
  }

  lemma CancelLater(s: State, p: Principal, id: Id, live: bool, ok: bool)
    requires LaterTimeless(s.tasks)
    ensures LaterTimeless(CancelInstance(s, p, id, live, ok).tasks)
  {
    assert forall t :: 0 <= t < |s.tasks| ==> CancelTasks(s.tasks, id)[t] == CancelTask(s.tasks[t], id);
    QuietLater(s.tasks, CancelTasks(s.tasks, id));
  }

  lemma EscalateLater(s: State, now: int)
    requires LaterTimeless(s.tasks)
    ensures LaterTimeless(Escalate(s, now).tasks)
  {
    assert forall t :: 0 <= t < |s.tasks| ==> EscalateTasks(s.tasks, now)[t] == EscalateTask(s.tasks[t], now);
    QuietLater(s.tasks, EscalateTasks(s.tasks, now));
  }

  lemma StartLater(s: State, p: Principal, key: string, now: int, ok: bool)
    requires LaterTimeless(s.tasks) && TaskIdsOk(s.tasks, s.nextId)
    ensures LaterTimeless(Start(s, p, key, now, ok).tasks)
  {
  }

  lemma SettleLater(s: State, p: Principal, t: nat, i: nat, v: nat, d: Decision, key: string)
    requires LaterTimeless(s.tasks) && Located(s, t, i, v)
    ensures LaterTimeless(Settle(s, p, t, i, v, d, key).tasks)
  {
    var ts := s.tasks[t := DecideTask(s.tasks[t], d, key)];
    QuietLater(s.tasks, ts);
  }

  lemma StepLater(s: State, step: Step)
    requires LaterTimeless(s.tasks) && TaskIdsOk(s.tasks, s.nextId)
    ensures LaterTimeless(Apply(s, step).tasks)
  {
    if step.CompleteStep? {
      CompleteLater(s, step.p, step.id, step.decision, step.key, step.now, step.live, step.permitted);
    } else if step.CancelStep? {
      CancelLater(s, step.p, step.id, step.live, step.permitted);
    } else if step.EscalateStep? {
      EscalateLater(s, step.now);
    } else if step.StartStep? {
      StartLater(s, step.p, step.key, step.now, step.permitted);
    } else {
      SameRecords(s, step);
    }
  }

  lemma CompleteLater(s: State, p: Principal, id: Id, d: Decision, key: string, now: int, live: bool, ok: bool)
    requires LaterTimeless(s.tasks)
    ensures LaterTimeless(Complete(s, p, id, d, key, now, live, ok).0.tasks)
  {
    if CheckComplete(s, p, id, key, now, live, ok).Decided? {
      var t := FindTask(s.tasks, id);
      var i := FindInstance(s.instances, s.tasks[t].instanceId);
      SettleLater(s, p, t, i, FindVersion(s.versions, s.instances[i].versionId), d, key);
    }
  }

  lemma {:induction false} EveryRunLaterTimeless(tenantId: string, author: Id, nextId: Id, steps: seq<Step>)
    requires nextId > 0
    ensures LaterTimeless(Run(Seeded(tenantId, author, nextId), steps).tasks)
  {
    if steps != [] {
      var before := steps[..|steps| - 1];
      EveryRunLaterTimeless(tenantId, author, nextId, before);
      EveryRunWorkflowOk(tenantId, author, nextId, before);
      StepLater(Run(Seeded(tenantId, author, nextId), before), steps[|steps| - 1]);
    }
  }

  /** A running instance with a decision has more than one task, the last of them open. */
  lemma LastOpen(instance: Instance, g: Graph, ts: seq<Task>)
    requires HistoryOk(instance, g, ts) && instance.status.Running? && Decisions(ts, Positions(ts, instance.id)) != []
    ensures var ps := Positions(ts, instance.id); |ps| > 1 && IsOpen(ts[ps[|ps| - 1]])
  {
    var ps := Positions(ts, instance.id);
    assert Recorded(ts[ps[|ps| - 1]]);
  }

  /**
   * In every run, a running instance on which a decision was taken can be decided further, whatever the clock reads: the
   * only deadlines are those of the first decision.
   */
  lemma MovesOnceDecided(tenantId: string, author: Id, nextId: Id, steps: seq<Step>, i: nat, c: int)
    requires nextId > 0
    ensures var s := Run(Seeded(tenantId, author, nextId), steps);
      i < |s.instances| && s.instances[i].status.Running? && Taken(s, i) != [] ==> CanMoveFrom(s, i, c)
  {
    var s := Run(Seeded(tenantId, author, nextId), steps);
    if i < |s.instances| && s.instances[i].status.Running? && Taken(s, i) != [] {
      EveryRunWorkflowOk(tenantId, author, nextId, steps);
      EveryRunLaterTimeless(tenantId, author, nextId, steps);
      DecidedIsOpen(s, i, c);
      MovesIffOpen(tenantId, author, nextId, steps, i, c);
    }
  }

  lemma DecidedIsOpen(s: State, i: nat, c: int)
    requires HistoriesOk(s) && LaterTimeless(s.tasks) && i < |s.instances| && s.instances[i].status.Running? && Taken(s, i) != []
    ensures HasOpen(s, i, c)
  {
    LastOpen(s.instances[i], GraphOf(s.versions, s.instances[i].versionId), s.tasks);
    var ps := Positions(s.tasks, s.instances[i].id);
    var t := ps[|ps| - 1];
    assert ps[0] < t && Timeless(s.tasks[t]);
    assert OpenAt(s, i, t, c);
  }

  // ---------------------------------------------------------------- runs that miss a deadline

  function OneStep(sla: Option<nat>): Graph {
    Graph("manager", [Node("manager", HumanApproval, sla, None, None)])
  }

  function Starter(tenantId: string): Principal {
    Principal(1, tenantId, Human)
  }

  /** A workflow of one task is defined, published and started. */
  function Opening(tenantId: string, nextId: Id, sla: Option<nat>, at: int): seq<Step> {
    [ CreateDefinitionStep(Starter(tenantId), "leave", true),
      AddVersionStep(Starter(tenantId), nextId, OneStep(sla), true),
      PublishStep(Starter(tenantId), nextId + 1, true),
      StartStep(Starter(tenantId), "leave", at, true) ]
  }

  predicate Opened(s: State, tenantId: string, nextId: Id, sla: Option<nat>, at: int) {
    && |s.instances| == 1 && s.instances[0].id == nextId + 2 && s.instances[0].status.Running?
    && s.tasks == [Task(nextId + 3, tenantId, nextId + 2, "manager", HumanApproval, PendingTask, DueAt(OneStep(sla), at),
                        Some(at + DAY), None, None)]
  }

  /** The definition is all there is, but for its versions. */
  predicate OnlyDefined(s: State, tenantId: string, nextId: Id) {
    && s.definitions == [Definition(nextId, tenantId, "leave")] && s.instances == [] && s.tasks == []
  }

  lemma Defines(tenantId: string, author: Id, nextId: Id)
    requires nextId > 0
    ensures var s := CreateDefinition(Seeded(tenantId, author, nextId), Starter(tenantId), "leave", true);
      OnlyDefined(s, tenantId, nextId) && s.versions == [] && s.nextId == nextId + 1
  {
  }

  lemma AddsVersion(s: State, tenantId: string, nextId: Id, g: Graph)
    requires OnlyDefined(s, tenantId, nextId) && s.versions == [] && s.nextId == nextId + 1
    ensures var t := AddVersion(s, Starter(tenantId), nextId, g, true);
      OnlyDefined(t, tenantId, nextId) && t.versions == [Version(nextId + 1, nextId, 1, DraftVersion, g)] && t.nextId == nextId + 2
  {
    assert FindDefinition(s.definitions, nextId, tenantId) == 0;
  }

  lemma PublishesVersion(s: State, tenantId: string, nextId: Id, g: Graph)
    requires OnlyDefined(s, tenantId, nextId)
    requires s.versions == [Version(nextId + 1, nextId, 1, DraftVersion, g)] && s.nextId == nextId + 2
    ensures var t := PublishVersion(s, Starter(tenantId), nextId + 1, true);
      OnlyDefined(t, tenantId, nextId) && t.versions == [Version(nextId + 1, nextId, 1, PublishedVersion, g)] && t.nextId == nextId + 2
  {
    assert FindDefinition(s.definitions, nextId, tenantId) == 0 && FindVersion(s.versions, nextId + 1) == 0;
  }

  lemma StartsOne(s: State, tenantId: string, nextId: Id, sla: Option<nat>, at: int)
    requires OnlyDefined(s, tenantId, nextId)
    requires s.versions == [Version(nextId + 1, nextId, 1, PublishedVersion, OneStep(sla))] && s.nextId == nextId + 2
    ensures Opened(Start(s, Starter(tenantId), "leave", at, true), tenantId, nextId, sla, at)
  {
    assert FindDefinitionByKey(s.definitions, tenantId, "leave") == 0;
    assert s.versions[..0] == [];
    assert BestPublished(s.versions, nextId) == Some(0);
    assert TypeAt(OneStep(sla), "manager") == HumanApproval;
  }

  lemma FourSteps(start: State, a: Step, b: Step, c: Step, d: Step)
    ensures Run(start, [a, b, c, d]) == Apply(Apply(Apply(Apply(start, a), b), c), d)
  {
    TwoSteps(start, a, b);
    RunSnoc(start, [a, b], c);
    RunSnoc(start, [a, b] + [c], d);
    assert [a, b] + [c] + [d] == [a, b, c, d];
  }

  lemma OpeningOpens(tenantId: string, author: Id, nextId: Id, sla: Option<nat>, at: int)
    requires nextId > 0
    ensures Opened(Run(Seeded(tenantId, author, nextId), Opening(tenantId, nextId, sla, at)), tenantId, nextId, sla, at)
  {
    var s, p := Seeded(tenantId, author, nextId), Starter(tenantId);
    var s1 := CreateDefinition(s, p, "leave", true);
    var s2 := AddVersion(s1, p, nextId, OneStep(sla), true);
    var s3 := PublishVersion(s2, p, nextId + 1, true);
    FourSteps(s, CreateDefinitionStep(p, "leave", true), AddVersionStep(p, nextId, OneStep(sla), true),
              PublishStep(p, nextId + 1, true), StartStep(p, "leave", at, true));
    Defines(tenantId, author, nextId);
    AddsVersion(s1, tenantId, nextId, OneStep(sla));
    PublishesVersion(s2, tenantId, nextId, OneStep(sla));
    StartsOne(s3, tenantId, nextId, sla, at);
  }

  /** The opening, and an escalation some time later. */
  function Waiting(tenantId: string, nextId: Id, sla: Option<nat>, at: int, later: int): seq<Step> {
    Opening(tenantId, nextId, sla, at) + [EscalateStep(later)]
  }

  lemma WaitingClock(tenantId: string, nextId: Id, sla: Option<nat>, at: int, later: int)
    requires at <= later
    ensures ClockFrom(Waiting(tenantId, nextId, sla, at, later), at)
  {
  }

  lemma WaitingState(tenantId: string, author: Id, nextId: Id, sla: Option<nat>, at: int, later: int) returns (s: State)
    requires nextId > 0
    ensures Opened(s, tenantId, nextId, sla, at)
    ensures Run(Seeded(tenantId, author, nextId), Waiting(tenantId, nextId, sla, at, later)) == Escalate(s, later)
  {
    s := Run(Seeded(tenantId, author, nextId), Opening(tenantId, nextId, sla, at));
    OpeningOpens(tenantId, author, nextId, sla, at);
    RunSnoc(Seeded(tenantId, author, nextId), Opening(tenantId, nextId, sla, at), EscalateStep(later));
  }

  /** No service level, no due date: escalation leaves the task alone. */
  lemma NeverDue(s: State, tenantId: string, nextId: Id, at: int, later: int)
    requires Opened(s, tenantId, nextId, None, at)
    ensures Escalate(s, later) == s && PendingAt(s, 0, 0) && (later > at + DAY ==> !HasOpen(s, 0, later))
  {
    assert s.tasks[0].dueAt.None?;
    assert EscalateTasks(s.tasks, later) == s.tasks;
  }

  lemma FallsDue(s: State, tenantId: string, nextId: Id, minutes: nat, at: int, later: int)
    requires Opened(s, tenantId, nextId, Some(minutes), at) && minutes > 0 && later >= at + minutes * MINUTE
    ensures Stuck(Escalate(s, later), 0)
  {
    assert FindNode(OneStep(Some(minutes)), "manager") == 0;
    assert s.tasks[0].dueAt == Some(at + minutes * MINUTE);
    OverdueGetsStuck(s, 0, 0, later);
  }

  /**
   * A start task without a service level is never escalated, and once a day has passed nobody may decide it: it stays
   * pending, and no steps from then on take a decision on its running instance.
   */
  lemma WindowCloses(tenantId: string, author: Id, nextId: Id, at: int, later: int)
    requires nextId > 0 && later > at + DAY
    ensures ClockFrom(Waiting(tenantId, nextId, None, at, later), at)
    ensures var s := Run(Seeded(tenantId, author, nextId), Waiting(tenantId, nextId, None, at, later));
      && |s.instances| == 1 && s.instances[0].status.Running? && |s.tasks| == 1 && PendingAt(s, 0, 0)
      && !CanMoveFrom(s, 0, later)
  {
    WaitingClock(tenantId, nextId, None, at, later);
    var s := WaitingState(tenantId, author, nextId, None, at, later);
    NeverDue(s, tenantId, nextId, at, later);
    MovesIffOpen(tenantId, author, nextId, Waiting(tenantId, nextId, None, at, later), 0, later);
  }

  /** A start task with a service level is escalated when it falls due, and its instance is stuck. */
  lemma DueGetsStuck(tenantId: string, author: Id, nextId: Id, minutes: nat, at: int, later: int)
    requires nextId > 0 && minutes > 0 && later >= at + minutes * MINUTE
    ensures ClockFrom(Waiting(tenantId, nextId, Some(minutes), at, later), at)
    ensures Stuck(Run(Seeded(tenantId, author, nextId), Waiting(tenantId, nextId, Some(minutes), at, later)), 0)
  {
    WaitingClock(tenantId, nextId, Some(minutes), at, later);
    var s := WaitingState(tenantId, author, nextId, Some(minutes), at, later);
    FallsDue(s, tenantId, nextId, minutes, at, later);
  }
}
