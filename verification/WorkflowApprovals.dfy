/** Every decision of a workflow is in the log once, and each was taken by somebody other than who started the instance. */
module WorkflowApprovals {
  import opened Governance
  import opened WorkflowHistory
  import opened WorkflowRuns
  import opened WorkflowProgress
  import FourEyes
  import SodRuns

  const APPROVE_TASK := "workflow:approve:task"

  /** The log's decisions on one instance. */
  function Approvals(log: seq<Action>, id: Id): seq<Action> {
    if log == [] then []
    else
      var last := log[|log| - 1];
      Approvals(log[..|log| - 1], id) + (if last.action == APPROVE_TASK && last.objectId == Record(id) then [last] else [])
  }

  lemma ApprovalsSnoc(log: seq<Action>, a: Action, id: Id)
    ensures Approvals(log + [a], id) == Approvals(log, id) + (if a.action == APPROVE_TASK && a.objectId == Record(id) then [a] else [])
  {
    assert (log + [a])[..|log|] == log;
  }

  /** As many decisions in the log as were taken on the instance, each by another principal of its tenant. */
  ghost predicate Balanced(s: State, home: Id -> string, i: nat) {
    && i < |s.instances|
    && |Approvals(s.actions, s.instances[i].id)| == |Taken(s, i)|
    && AllByOthers(Approvals(s.actions, s.instances[i].id), home, s.instances[i])
  }

  ghost predicate AllByOthers(approvals: seq<Action>, home: Id -> string, instance: Instance) {
    forall k :: 0 <= k < |approvals| ==>
      FourEyes.ByAnother(approvals[k], home, APPROVE_TASK, Record(instance.id), instance.tenantId, instance.startedBy)
  }

  /** A task belongs to its instance's tenant. */
  predicate TenantsAgree(s: State) {
    forall t, i :: 0 <= t < |s.tasks| && 0 <= i < |s.instances| && s.tasks[t].instanceId == s.instances[i].id ==>
      s.tasks[t].tenantId == s.instances[i].tenantId
  }

  predicate SameInstance(a: Instance, b: Instance) {
    b.id == a.id && b.startedBy == a.startedBy && b.tenantId == a.tenantId
  }

  // ---------------------------------------------------------------- steps that decide nothing

  lemma Unaffected(s: State, s': State, home: Id -> string, i: nat)
    requires Balanced(s, home, i)
    requires i < |s'.instances| && SameInstance(s.instances[i], s'.instances[i])
    requires Approvals(s'.actions, s.instances[i].id) == Approvals(s.actions, s.instances[i].id)
    requires Taken(s', i) == Taken(s, i)
    ensures Balanced(s', home, i)
  {
  }

  /** What is logged is no decision on a workflow. */
  predicate LogsElse(s: State, s': State) {
    && s.actions <= s'.actions && |s'.actions| <= |s.actions| + 1
    && (|s'.actions| > |s.actions| ==> s'.actions[|s.actions|].action != APPROVE_TASK)
  }

  lemma LogsElseKeeps(s: State, s': State, id: Id)
    requires LogsElse(s, s')
    ensures Approvals(s'.actions, id) == Approvals(s.actions, id)
  {
    if |s'.actions| > |s.actions| {
      var a := s'.actions[|s.actions|];
      assert s'.actions == s.actions + [a];
      ApprovalsSnoc(s.actions, a, id);
      assert Approvals(s.actions, id) + [] == Approvals(s.actions, id);
    } else {
      assert s'.actions == s.actions;
    }
  }

  lemma StepLogsElse(s: State, step: Step)
    requires !step.CompleteStep?
    ensures LogsElse(s, Apply(s, step))
  {
    match step
    case StartStep(p, key, now, ok) => StartLogsElse(s, p, key, now, ok);
    case CreatePaymentStep(p, ok) => PaymentsLogElse(s, p, 0, Approve, ok);
    case DecideApprovalStep(p, id, d, ok) => PaymentsLogElse(s, p, id, d, ok);
    case DraftStep(p, key, value, ok) => DraftLogsElse(s, p, key, value, ok);
    case RollbackStep(p, key, v, ok) => RollbackLogsElse(s, p, key, v, ok);
    case ApproveConfigStep(p, id, ok) => ApproveConfigLogsElse(s, p, id, ok);
    case CreateRuleStep(p, key, ok) => CreateRuleLogsElse(s, p, key, ok);
    case ApproveRuleStep(p, id, ok) => ApproveRuleLogsElse(s, p, id, ok);
    case _ => SilentStep(s, step);
  }

  lemma StartLogsElse(s: State, p: Principal, key: string, now: int, ok: bool)
    ensures LogsElse(s, Start(s, p, key, now, ok))
  {
  }

  lemma PaymentsLogElse(s: State, p: Principal, id: Id, d: Decision, ok: bool)
    ensures LogsElse(s, CreatePayment(s, p, ok)) && LogsElse(s, DecideApproval(s, p, id, d, ok))
  {
  }

  lemma DraftLogsElse(s: State, p: Principal, key: string, value: string, ok: bool)
    ensures LogsElse(s, Draft(s, p, key, value, ok).0)
  {
  }

  lemma RollbackLogsElse(s: State, p: Principal, key: string, toVersion: nat, ok: bool)
    ensures LogsElse(s, Rollback(s, p, key, toVersion, ok).0)
  {
  }

  lemma ApproveConfigLogsElse(s: State, p: Principal, id: Id, ok: bool)
    ensures LogsElse(s, ApproveConfig(s, p, id, ok).0)
  {
  }

  lemma CreateRuleLogsElse(s: State, p: Principal, key: string, ok: bool)
    ensures LogsElse(s, CreateRule(s, p, key, ok))
  {
  }

  lemma ApproveRuleLogsElse(s: State, p: Principal, id: Id, ok: bool)
    ensures LogsElse(s, ApproveRule(s, p, id, ok))
  {
  }

  lemma SilentStep(s: State, step: Step)
    requires step.RetireRuleStep? || step.CreateDefinitionStep? || step.AddVersionStep? || step.PublishStep?
          || step.CancelStep? || step.EscalateStep?
    ensures LogsElse(s, Apply(s, step))
  {
  }

  /** Every step but a decision leaves the decisions taken and who started an instance. */
  predicate Undecided(s: State, s': State, i: nat)
    requires i < |s.instances|
  {
    i < |s'.instances| && SameInstance(s.instances[i], s'.instances[i]) && Taken(s', i) == Taken(s, i)
  }

  lemma CancelUndecided(s: State, p: Principal, id: Id, live: bool, ok: bool, i: nat)
    requires i < |s.instances|
    ensures Undecided(s, CancelInstance(s, p, id, live, ok), i)
  {
    CancelStays(s, p, id, live, ok, i, 0);
  }

  lemma EscalateUndecided(s: State, now: int, i: nat)
    requires i < |s.instances|
    ensures Undecided(s, Escalate(s, now), i)
  {
    EscalateStays(s, now, i, now);
  }

  lemma StartUndecided(s: State, p: Principal, key: string, now: int, ok: bool, i: nat)
    requires i < |s.instances| && s.instances[i].id < s.nextId
    ensures Undecided(s, Start(s, p, key, now, ok), i)
  {
    StartStays(s, p, key, now, ok, i, now);
  }

  lemma StepUndecided(s: State, step: Step, i: nat)
    requires !step.CompleteStep? && i < |s.instances| && s.instances[i].id < s.nextId
    ensures Undecided(s, Apply(s, step), i)
  {
    match step
    case CancelStep(p, id, live, ok) => CancelUndecided(s, p, id, live, ok, i);
    case EscalateStep(now) => EscalateUndecided(s, now, i);
    case StartStep(p, key, now, ok) => StartUndecided(s, p, key, now, ok, i);
    case _ => SameRecords(s, step);
  }

  lemma OtherStepBalanced(s: State, step: Step, home: Id -> string, i: nat)
    requires !step.CompleteStep? && Balanced(s, home, i) && s.instances[i].id < s.nextId
    ensures Balanced(Apply(s, step), home, i)
  {
    StepUndecided(s, step, i);
    StepLogsElse(s, step);
    LogsElseKeeps(s, Apply(s, step), s.instances[i].id);
    Unaffected(s, Apply(s, step), home, i);
  }

  // ---------------------------------------------------------------- a new instance

  /** Nothing was decided on an identifier that was not handed out yet. */
  lemma {:induction false} NoApprovalsYet(log: seq<Action>, nextId: Id)
    requires forall i :: 0 <= i < |log| && log[i].objectId.Record? ==> log[i].objectId.id < nextId
    ensures Approvals(log, nextId) == []
  {
    if log != [] {
      NoApprovalsYet(log[..|log| - 1], nextId);
      assert log[|log| - 1].objectId != Record(nextId);
    }
  }

  lemma StartedBalanced(s: State, p: Principal, key: string, now: int, ok: bool, home: Id -> string)
    requires IdsOk(s) && SodRuns.RecordsKnown(s) && |Start(s, p, key, now, ok).instances| > |s.instances|
    ensures Balanced(Start(s, p, key, now, ok), home, |s.instances|)
  {
    var s' := Start(s, p, key, now, ok);
    var n := |s.instances|;
    NoApprovalsYet(s.actions, s.nextId);
    StartLogsElse(s, p, key, now, ok);
    LogsElseKeeps(s, s', s.nextId);
    NoTasksYet(s.tasks, s.nextId);
    UndecidedAdds(s.tasks, s'.tasks[|s.tasks|], s.nextId);
    assert Decisions(s.tasks, []) == [];
  }

  // ---------------------------------------------------------------- a decision

  lemma SettledElsewhere(s: State, p: Principal, t: nat, j: nat, v: nat, d: Decision, key: string, home: Id -> string, i: nat)
    requires Located(s, t, j, v) && Balanced(s, home, i) && s.instances[i].id != s.instances[j].id
    ensures Balanced(Settle(s, p, t, j, v, d, key), home, i)
  {
    var s' := Settle(s, p, t, j, v, d, key);
    SettleLeaves(s, p, t, j, v, d, key, i);
    LeftAloneStays(s, s', i, 0);
    ApprovalsSnoc(s.actions, Action(p.id, APPROVE_TASK, Record(s.instances[j].id)), s.instances[i].id);
    assert Approvals(s.actions, s.instances[i].id) + [] == Approvals(s.actions, s.instances[i].id);
    Unaffected(s, s', home, i);
  }

  lemma SettledHere(s: State, p: Principal, t: nat, i: nat, v: nat, d: Decision, key: string, home: Id -> string)
    requires Located(s, t, i, v) && s.tasks[t].status.PendingTask? && HistoriesOk(s) && Balanced(s, home, i)
    requires p.id != s.instances[i].startedBy && home(p.id) == s.instances[i].tenantId
    ensures Balanced(Settle(s, p, t, i, v, d, key), home, i)
  {
    var s' := Settle(s, p, t, i, v, d, key);
    SettledTakes(s, p, t, i, v, d, key);
    ApprovalsSnoc(s.actions, Action(p.id, APPROVE_TASK, Record(s.instances[i].id)), s.instances[i].id);
  }

  lemma CompleteBalanced(
    s: State, p: Principal, id: Id, d: Decision, key: string, now: int, live: bool, ok: bool, home: Id -> string, i: nat)
    requires WorkflowOk(s) && TenantsAgree(s) && home(p.id) == p.tenantId && Balanced(s, home, i)
    ensures Balanced(Complete(s, p, id, d, key, now, live, ok).0, home, i)
  {
    if CheckComplete(s, p, id, key, now, live, ok).Decided? {
      var t := FindTask(s.tasks, id);
      var j := FindInstance(s.instances, s.tasks[t].instanceId);
      var v := FindVersion(s.versions, s.instances[j].versionId);
      if j == i {
        SettledHere(s, p, t, i, v, d, key, home);
      } else {
        DifferentIds(s, i, j);
        SettledElsewhere(s, p, t, j, v, d, key, home, i);
      }
    }
  }

  lemma DifferentIds(s: State, i: nat, j: nat)
    requires InstanceIdsOk(s.instances, s.versions, s.nextId) && i < |s.instances| && j < |s.instances| && i != j
    ensures s.instances[i].id != s.instances[j].id
  {
  }

  // ---------------------------------------------------------------- tenants

  /** Tasks and instances keep their tenants; anything new agrees with what it belongs to. */
  lemma StepTenants(s: State, step: Step)
    requires InstanceIdsOk(s.instances, s.versions, s.nextId) && TaskIdsOk(s.tasks, s.nextId) && TenantsAgree(s)
    ensures TenantsAgree(Apply(s, step))
  {
    if step.CompleteStep? {
      CompleteTenants(s, step.p, step.id, step.decision, step.key, step.now, step.live, step.permitted);
    } else if step.CancelStep? {
      CancelTenants(s, step.p, step.id, step.live, step.permitted);
    } else if step.EscalateStep? {
      EscalateTenants(s, step.now);
    } else if step.StartStep? {
      StartTenants(s, step.p, step.key, step.now, step.permitted);
    } else {
      SameRecords(s, step);
    }
  }

  lemma CancelTenants(s: State, p: Principal, id: Id, live: bool, ok: bool)
    requires TenantsAgree(s)
    ensures TenantsAgree(CancelInstance(s, p, id, live, ok))
  {
    assert forall t :: 0 <= t < |s.tasks| ==> CancelTasks(s.tasks, id)[t] == CancelTask(s.tasks[t], id);
  }

  lemma EscalateTenants(s: State, now: int)
    requires TenantsAgree(s)
    ensures TenantsAgree(Escalate(s, now))
  {
    assert forall t :: 0 <= t < |s.tasks| ==> EscalateTasks(s.tasks, now)[t] == EscalateTask(s.tasks[t], now);
  }

  lemma StartTenants(s: State, p: Principal, key: string, now: int, ok: bool)
    requires TenantsAgree(s) && InstanceIdsOk(s.instances, s.versions, s.nextId) && TaskIdsOk(s.tasks, s.nextId)
    ensures TenantsAgree(Start(s, p, key, now, ok))
  {
  }

  lemma CompleteTenants(s: State, p: Principal, id: Id, d: Decision, key: string, now: int, live: bool, ok: bool)
    requires InstanceIdsOk(s.instances, s.versions, s.nextId) && TenantsAgree(s)
    ensures TenantsAgree(Complete(s, p, id, d, key, now, live, ok).0)
  {
    if CheckComplete(s, p, id, key, now, live, ok).Decided? {
      var t := FindTask(s.tasks, id);
      var j := FindInstance(s.instances, s.tasks[t].instanceId);
      SettleTenants(s, p, t, j, FindVersion(s.versions, s.instances[j].versionId), d, key);
    }
  }

  lemma SettleTenants(s: State, p: Principal, t: nat, j: nat, v: nat, d: Decision, key: string)
    requires Located(s, t, j, v) && TenantsAgree(s) && s.tasks[t].tenantId == p.tenantId
    requires InstanceIdsOk(s.instances, s.versions, s.nextId)
    ensures TenantsAgree(Settle(s, p, t, j, v, d, key))
  {
    var s' := Settle(s, p, t, j, v, d, key);
    forall u, i | 0 <= u < |s'.tasks| && 0 <= i < |s'.instances| && s'.tasks[u].instanceId == s'.instances[i].id
      ensures s'.tasks[u].tenantId == s'.instances[i].tenantId
    {
      assert s'.instances[i].id == s.instances[i].id && s'.instances[i].tenantId == s.instances[i].tenantId;
      if u >= |s.tasks| {
        assert s.instances[j].id == s.instances[i].id;
        assert s.tasks[t].tenantId == s.instances[i].tenantId;
      }
    }
  }

  // ---------------------------------------------------------------- every run

  lemma StepBalanced(s: State, step: Step, home: Id -> string, i: nat)
    requires WorkflowOk(s) && TenantsAgree(s) && SodRuns.AtHome(step, home) && Balanced(s, home, i)
    ensures Balanced(Apply(s, step), home, i)
  {
    match step
    case CompleteStep(p, id, d, key, now, live, ok) => CompleteBalanced(s, p, id, d, key, now, live, ok, home, i);
    case _ => OtherStepBalanced(s, step, home, i);
  }

  lemma NewBalanced(s: State, step: Step, home: Id -> string, i: nat)
    requires IdsOk(s) && SodRuns.RecordsKnown(s) && |s.instances| <= i < |Apply(s, step).instances|
    ensures Balanced(Apply(s, step), home, i)
  {
    match step
    case StartStep(p, key, now, ok) => StartStepBalanced(s, p, key, now, ok, home, i);
    case _ => {
      NoNewInstance(s, step);
      assert false;
    }
  }

  lemma StartStepBalanced(s: State, p: Principal, key: string, now: int, ok: bool, home: Id -> string, i: nat)
    requires IdsOk(s) && SodRuns.RecordsKnown(s) && |s.instances| <= i < |Start(s, p, key, now, ok).instances|
    ensures Balanced(Start(s, p, key, now, ok), home, i)
  {
    StartsOne(s, p, key, now, ok);
    StartedBalanced(s, p, key, now, ok, home);
  }

  lemma StartsOne(s: State, p: Principal, key: string, now: int, ok: bool)
    ensures |Start(s, p, key, now, ok).instances| <= |s.instances| + 1
  {
  }

  lemma NoNewInstance(s: State, step: Step)
    requires !step.StartStep?
    ensures |Apply(s, step).instances| == |s.instances|
  {
    match step
    case CancelStep(_, _, _, _) =>
    case EscalateStep(_) =>
    case CompleteStep(p, id, d, key, now, live, ok) => CompleteSettles(s, p, id, d, key, now, live, ok);
    case _ => SameRecords(s, step);
  }

  /**
   * In every run the log has as many decisions on an instance as its tasks have, each taken in the instance's tenant by
   * somebody other than who started it.
   */
  lemma {:induction false} EveryDecisionLogged(
    tenantId: string, author: Id, nextId: Id, steps: seq<Step>, home: Id -> string)
    requires nextId > 0
    requires forall k :: 0 <= k < |steps| ==> SodRuns.AtHome(steps[k], home)
    ensures var s := Run(Seeded(tenantId, author, nextId), steps);
      TenantsAgree(s) && forall i :: 0 <= i < |s.instances| ==> Balanced(s, home, i)
  {
    if steps != [] {
      var before, step := steps[..|steps| - 1], steps[|steps| - 1];
      var s := Run(Seeded(tenantId, author, nextId), before);
      EveryDecisionLogged(tenantId, author, nextId, before, home);
      EveryRunWorkflowOk(tenantId, author, nextId, before);
      SodRuns.EveryRunSeparated(tenantId, author, nextId, before, home);
      StepTenants(s, step);
      forall i | 0 <= i < |Apply(s, step).instances|
        ensures Balanced(Apply(s, step), home, i)
      {
        if i < |s.instances| {
          StepBalanced(s, step, home, i);
        } else {
          NewBalanced(s, step, home, i);
        }
      }
    }
  }
}
