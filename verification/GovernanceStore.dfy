/** The store of the approval flows, and its operations as they update it in place. */
module GovernanceStore {
  import opened Options
  import opened Governance

  class Store {
    var definitions: seq<Definition>
    var versions: seq<Version>
    var instances: seq<Instance>
    var tasks: seq<Task>
    var configs: seq<Config>
    var rules: seq<Rule>
    var ruleVersions: seq<RuleVersion>
    var payments: map<Id, Payment>
    var approvals: map<Id, Approval>
    var actions: seq<Action>
    var nextId: Id

    ghost function Snapshot(): State
      reads this
    {
      State(definitions, versions, instances, tasks, configs, rules, ruleVersions, payments, approvals, actions, nextId)
    }

    constructor (tenantId: string, author: Id, firstId: Id)
      requires firstId > 0
      ensures Snapshot() == Seeded(tenantId, author, firstId)
    {
      definitions, versions, instances, tasks := [], [], [], [];
      configs := [Config(0, tenantId, "approval.payment.dual_control", 1, "{enabled:true}", ApprovedConfig, author)];
      rules, ruleVersions := [], [];
      payments, approvals := map[], map[];
      actions, nextId := [], firstId;
    }

    method NewId() returns (id: Id)
      modifies `nextId
      ensures id == old(nextId) && nextId == id + 1
    {
      id := nextId;
      nextId := nextId + 1;
    }

    method Push(p: Principal, action: string, about: ObjectId)
      modifies `actions
      ensures Snapshot() == Log(old(Snapshot()), p, action, about)
    {
      actions := actions + [Action(p.id, action, about)];
    }

    // -------------------------------------------------------------- payments

    method MakePayment(p: Principal, permitted: bool)
      modifies this
      ensures Snapshot() == CreatePayment(old(Snapshot()), p, permitted)
    {
      if !permitted {
        return;
      }
      var id := NewId();
      payments := payments[id := Payment(id, p.tenantId, PendingPayment, p.id)];
      var approvalId := NewId();
      approvals := approvals[approvalId := Approval(approvalId, p.tenantId, id, PendingPayment, p.id)];
      Push(p, "finance:create:payment", Record(id));
    }

    method DecidePayment(p: Principal, approvalId: Id, decision: Decision, permitted: bool)
      modifies this
      ensures Snapshot() == DecideApproval(old(Snapshot()), p, approvalId, decision, permitted)
    {
      if approvalId !in approvals || approvals[approvalId].tenantId != p.tenantId || approvals[approvalId].paymentId !in payments
      {
        return;
      }
      var task := approvals[approvalId];
      var payment := payments[task.paymentId];
      if !permitted {
        return;
      }
      if !CanDecide(task.status.PendingPayment?, task.requestedBy, p).Allow? {
        return;
      }
      if SodViolation(SOD_RULES, actions, Action(p.id, "finance:approve:payment", Record(payment.id))).Some? {
        return;
      }
      var outcome := if decision.Approve? then ApprovedPayment else RejectedPayment;
      approvals := approvals[approvalId := task.(status := outcome)];
      payments := payments[task.paymentId := payment.(status := outcome)];
      Push(p, "finance:approve:payment", Record(payment.id));
    }

    // -------------------------------------------------------------- configuration

    method DraftConfig(p: Principal, key: string, value: string, permitted: bool) returns (id: Option<Id>)
      modifies this
      ensures (Snapshot(), id) == Draft(old(Snapshot()), p, key, value, permitted)
    {
      if !permitted {
        return None;
      }
      var version := MaxConfigVersion(configs, p.tenantId, key) + 1;
      var draftId := NewId();
      configs := configs + [Config(draftId, p.tenantId, key, version, value, ConfigStatus.DraftConfig, p.id)];
      Push(p, "config:write:item", Named(VersionName(key, version)));
      id := Some(draftId);
    }

    method ApproveDraft(p: Principal, id: Id, permitted: bool) returns (approved: bool)
      modifies this
      ensures (Snapshot(), approved) == ApproveConfig(old(Snapshot()), p, id, permitted)
    {
      var k := FindConfig(configs, id);
      if k == |configs| || configs[k].tenantId != p.tenantId || !permitted {
        return false;
      }
      var draft := configs[k];
      if !CanDecide(draft.status.DraftConfig?, draft.createdBy, p).Allow? {
        return false;
      }
      var name := Named(VersionName(draft.key, draft.version));
      if SodViolation(SOD_RULES, actions, Action(p.id, "config:approve:item", name)).Some? {
        return false;
      }
      RetireOtherConfigs(draft);
      configs := configs[k := configs[k].(status := ApprovedConfig)];
      Push(p, "config:approve:item", name);
      approved := true;
    }

    method RetireOtherConfigs(draft: Config)
      modifies `configs
      ensures configs == RetireOthers(old(configs), draft)
    {
      var j := 0;
      while j < |configs|
        invariant j <= |configs| == |old(configs)|
        invariant forall i :: 0 <= i < j ==> configs[i] == RetireOne(old(configs)[i], draft)
        invariant forall i :: j <= i < |configs| ==> configs[i] == old(configs)[i]
      {
        var other := configs[j];
        if other.tenantId == draft.tenantId && other.key == draft.key && other.status.ApprovedConfig? && other.id != draft.id {
          configs := configs[j := other.(status := RetiredConfig)];
        }
        j := j + 1;
      }
    }

    method RollbackTo(p: Principal, key: string, toVersion: nat, permitted: bool) returns (id: Option<Id>)
      modifies this
      ensures (Snapshot(), id) == Rollback(old(Snapshot()), p, key, toVersion, permitted)
    {
      var k := RollbackTarget(configs, p.tenantId, key, toVersion);
      if k == |configs| {
        return None;
      }
      id := DraftConfig(p, key, configs[k].value, permitted);
    }

    // -------------------------------------------------------------- business rules

    method WriteRule(p: Principal, key: string, permitted: bool)
      modifies this
      ensures Snapshot() == CreateRule(old(Snapshot()), p, key, permitted)
    {
      if !permitted {
        return;
      }
      var k := FindRuleByKey(rules, p.tenantId, key);
      var rule := Rule(nextId, p.tenantId, key);
      nextId := nextId + 1;
      if k < |rules| {
        rule := rules[k];
      } else {
        rules := rules + [rule];
      }
      var version := MaxRuleVersion(ruleVersions, rule.id) + 1;
      var id := NewId();
      ruleVersions := ruleVersions + [RuleVersion(id, rule.id, version, DraftRule, p.id)];
      Push(p, "rules:write:rule", Named(VersionName(rule.key, version)));
    }

    method ApproveRuleVersion(p: Principal, id: Id, permitted: bool)
      modifies this
      ensures Snapshot() == ApproveRule(old(Snapshot()), p, id, permitted)
    {
      var k := FindRuleVersion(ruleVersions, id);
      if k == |ruleVersions| {
        return;
      }
      var version := ruleVersions[k];
      var r := FindRule(rules, version.ruleId, p.tenantId);
      if r == |rules| || !permitted || !CanDecide(version.status.DraftRule?, version.createdBy, p).Allow? {
        return;
      }
      var name := Named(VersionName(rules[r].key, version.version));
      if SodViolation(SOD_RULES, actions, Action(p.id, "rules:approve:rule", name)).Some? {
        return;
      }
      ruleVersions := ruleVersions[k := version.(status := EffectiveRule)];
      Push(p, "rules:approve:rule", name);
    }

    // -------------------------------------------------------------- workflow

    method Publish(p: Principal, versionId: Id, permitted: bool)
      modifies this
      ensures Snapshot() == PublishVersion(old(Snapshot()), p, versionId, permitted)
    {
      var k := FindVersion(versions, versionId);
      if !permitted || k == |versions| || FindDefinition(definitions, versions[k].definitionId, p.tenantId) == |definitions| {
        return;
      }
      RetirePublishedVersions(versions[k].definitionId);
      versions := versions[k := versions[k].(status := PublishedVersion)];
    }

    method RetirePublishedVersions(definitionId: Id)
      modifies `versions
      ensures versions == RetirePublished(old(versions), definitionId)
    {
      var j := 0;
      while j < |versions|
        invariant j <= |versions| == |old(versions)|
        invariant forall i :: 0 <= i < j ==> versions[i] == RetireVersion(old(versions)[i], definitionId)
        invariant forall i :: j <= i < |versions| ==> versions[i] == old(versions)[i]
      {
        if versions[j].definitionId == definitionId && versions[j].status.PublishedVersion? {
          versions := versions[j := versions[j].(status := RetiredVersion)];
        }
        j := j + 1;
      }
    }

    method StartInstance(p: Principal, definitionKey: string, now: int, permitted: bool)
      modifies this
      ensures Snapshot() == Start(old(Snapshot()), p, definitionKey, now, permitted)
    {
      var d := FindDefinitionByKey(definitions, p.tenantId, definitionKey);
      if !permitted || d == |definitions| {
        return;
      }
      var best := BestPublished(versions, definitions[d].id);
      if best.None? {
        return;
      }
      var version := versions[best.value];
      var g := version.graph;
      var id := NewId();
      instances := instances + [Instance(id, p.tenantId, definitions[d].id, version.id, Running, p.id, Some(g.start))];
      Push(p, "workflow:execute:instance", Record(id));
      var taskId := NewId();
      tasks := tasks + [Task(taskId, p.tenantId, id, g.start, TypeAt(g, g.start), PendingTask, DueAt(g, now), Some(now + DAY), None, None)];
    }

    method CompleteTask(
      p: Principal, taskId: Id, decision: Decision, key: string, now: int, live: bool, permitted: bool)
      returns (outcome: CompleteOutcome)
      modifies this
      ensures (Snapshot(), outcome) == Complete(old(Snapshot()), p, taskId, decision, key, now, live, permitted)
    {
      outcome := CheckComplete(
        State(definitions, versions, instances, tasks, configs, rules, ruleVersions, payments, approvals, actions, nextId),
        p, taskId, key, now, live, permitted);
      if !outcome.Decided? {
        return;
      }
      var t := FindTask(tasks, taskId);
      var i := FindInstance(instances, tasks[t].instanceId);
      SettleTask(p, t, i, FindVersion(versions, instances[i].versionId), decision, key);
    }

    /** A decision takes effect on its task and its instance. */
    method SettleTask(p: Principal, t: nat, i: nat, v: nat, decision: Decision, key: string)
      requires Located(Snapshot(), t, i, v)
      modifies this
      ensures Snapshot() == Settle(old(Snapshot()), p, t, i, v, decision, key)
    {
      var task, instance, graph := tasks[t], instances[i], versions[v].graph;
      tasks := tasks[t := task.(
        status := if decision.Approve? then CompletedTask else RejectedTask, decision := Some(decision), idempotencyKey := Some(key))];
      Push(p, "workflow:approve:task", Record(instance.id));
      var next := NextNode(graph, task.nodeKey, decision);
      if next.None? {
        instances := instances[i := instance.(status := if decision.Approve? then Completed else Cancelled, currentNode := None)];
      } else {
        instances := instances[i := instance.(currentNode := next)];
        var id := NewId();
        tasks := tasks + [Task(id, p.tenantId, instance.id, next.value, TypeAt(graph, next.value), PendingTask, None, None, None, None)];
      }
    }

    method Cancel(p: Principal, instanceId: Id, live: bool, permitted: bool)
      modifies this
      ensures Snapshot() == CancelInstance(old(Snapshot()), p, instanceId, live, permitted)
    {
      var i := Find(instances, (x: Instance) => x.id == instanceId && x.tenantId == p.tenantId);
      if !live || !permitted || i == |instances| || !instances[i].status.Running? {
        return;
      }
      instances := instances[i := instances[i].(status := Cancelled)];
      CancelPendingTasks(instanceId);
    }

    method CancelPendingTasks(instanceId: Id)
      modifies `tasks
      ensures tasks == CancelTasks(old(tasks), instanceId)
    {
      var j := 0;
      while j < |tasks|
        invariant j <= |tasks| == |old(tasks)|
        invariant forall i :: 0 <= i < j ==> tasks[i] == CancelTask(old(tasks)[i], instanceId)
        invariant forall i :: j <= i < |tasks| ==> tasks[i] == old(tasks)[i]
      {
        if tasks[j].instanceId == instanceId && tasks[j].status.PendingTask? {
          tasks := tasks[j := tasks[j].(status := CancelledTask)];
        }
        j := j + 1;
      }
    }

    /** The tasks that fell due, which the caller is told about in task order. */
    method EscalateOverdue(now: int) returns (escalated: seq<Task>)
      modifies `tasks
      ensures Snapshot() == Escalate(old(Snapshot()), now)
      ensures escalated == Overdue(old(tasks), now)
    {
      var j := 0;
      escalated := [];
      while j < |tasks|
        invariant j <= |tasks| == |old(tasks)|
        invariant forall i :: 0 <= i < j ==> tasks[i] == EscalateTask(old(tasks)[i], now)
        invariant forall i :: j <= i < |tasks| ==> tasks[i] == old(tasks)[i]
        invariant escalated == Overdue(old(tasks)[..j], now)
      {
        OverdueSnoc(old(tasks), j, now);
        var task := tasks[j];
        if task.status.PendingTask? && task.dueAt.Some? && task.dueAt.value <= now {
          tasks := tasks[j := task.(status := EscalatedTask)];
          escalated := escalated + [tasks[j]];
        }
        j := j + 1;
      }
      assert old(tasks)[..j] == old(tasks);
    }
  }
}
