/** Nothing is approved by its author alone: behind every decided record there is a logged decision of somebody else. */
module FourEyes {
  import opened Governance
  import PaymentRuns
  import SodRuns
  import WorkflowRuns

  /** Somebody of the tenant other than the author has decided on the object. */
  ghost predicate Vouched(log: seq<Action>, home: Id -> string, action: string, about: ObjectId, tenantId: string, author: Id) {
    exists j :: 0 <= j < |log| && ByAnother(log[j], home, action, about, tenantId, author)
  }

  predicate ByAnother(a: Action, home: Id -> string, action: string, about: ObjectId, tenantId: string, author: Id) {
    a.action == action && a.objectId == about && home(a.principalId) == tenantId && a.principalId != author
  }

  lemma VouchedGrows(log: seq<Action>, log': seq<Action>, home: Id -> string, action: string, about: ObjectId, tenantId: string, author: Id)
    requires log <= log' && Vouched(log, home, action, about, tenantId, author)
    ensures Vouched(log', home, action, about, tenantId, author)
  {
    var j :| 0 <= j < |log| && ByAnother(log[j], home, action, about, tenantId, author);
    assert ByAnother(log'[j], home, action, about, tenantId, author);
  }

  lemma VouchedNow(s: State, s': State, p: Principal, home: Id -> string, action: string, about: ObjectId, author: Id)
    requires s'.actions == s.actions + [Action(p.id, action, about)] && p.id != author && home(p.id) == p.tenantId
    ensures Vouched(s'.actions, home, action, about, p.tenantId, author)
  {
    assert ByAnother(s'.actions[|s.actions|], home, action, about, p.tenantId, author);
  }

  // ---------------------------------------------------------------- payments

  ghost predicate PaymentVouched(log: seq<Action>, home: Id -> string, payment: Payment) {
    payment.status.PendingPayment? ||
    Vouched(log, home, "finance:approve:payment", Record(payment.id), payment.tenantId, payment.createdBy)
  }

  /** An approval task asks for the author of its payment, in the payment's tenant. */
  predicate Asks(approval: Approval, payments: map<Id, Payment>) {
    approval.paymentId in payments ==>
      (approval.requestedBy == payments[approval.paymentId].createdBy && approval.tenantId == payments[approval.paymentId].tenantId)
  }

  ghost predicate PaymentsVouched(s: State, home: Id -> string) {
    && (forall id :: id in s.payments ==> PaymentVouched(s.actions, home, s.payments[id]))
    && (forall a :: a in s.approvals ==> Asks(s.approvals[a], s.payments) && s.approvals[a].paymentId < s.nextId)
  }

  lemma CreatePaymentVouched(s: State, p: Principal, ok: bool, home: Id -> string)
    requires PaymentsVouched(s, home)
    ensures PaymentsVouched(CreatePayment(s, p, ok), home)
  {
    var s' := CreatePayment(s, p, ok);
    forall id | id in s'.payments
      ensures PaymentVouched(s'.actions, home, s'.payments[id])
    {
      if s' != s && id != s.nextId {
        PaymentStays(s.actions, s'.actions, home, s.payments[id]);
      }
    }
  }

  lemma PaymentStays(log: seq<Action>, log': seq<Action>, home: Id -> string, payment: Payment)
    requires PaymentVouched(log, home, payment) && log <= log'
    ensures PaymentVouched(log', home, payment)
  {
    if !payment.status.PendingPayment? {
      VouchedGrows(log, log', home, "finance:approve:payment", Record(payment.id), payment.tenantId, payment.createdBy);
    }
  }

  lemma DecideApprovalVouched(s: State, p: Principal, approvalId: Id, d: Decision, ok: bool, home: Id -> string)
    requires PaymentsVouched(s, home) && home(p.id) == p.tenantId
    ensures PaymentsVouched(DecideApproval(s, p, approvalId, d, ok), home)
  {
    if MayDecidePayment(s, p, approvalId, ok) {
      var s' := DecideApproval(s, p, approvalId, d, ok);
      var payment := s.payments[s.approvals[approvalId].paymentId];
      assert Asks(s.approvals[approvalId], s.payments);
      VouchedNow(s, s', p, home, "finance:approve:payment", Record(payment.id), payment.createdBy);
      forall id | id in s'.payments
        ensures PaymentVouched(s'.actions, home, s'.payments[id])
      {
        if id != s.approvals[approvalId].paymentId {
          PaymentStays(s.actions, s'.actions, home, s.payments[id]);
        }
      }
      forall a | a in s'.approvals
        ensures Asks(s'.approvals[a], s'.payments)
      {
        assert Asks(s.approvals[a], s.payments);
      }
    }
  }

  lemma PaymentsElsewhere(s: State, s': State, home: Id -> string)
    requires PaymentsVouched(s, home)
    requires s'.payments == s.payments && s'.approvals == s.approvals && s.actions <= s'.actions && s.nextId <= s'.nextId
    ensures PaymentsVouched(s', home)
  {
    forall id | id in s.payments
      ensures PaymentVouched(s'.actions, home, s.payments[id])
    {
      PaymentStays(s.actions, s'.actions, home, s.payments[id]);
    }
  }

  // ---------------------------------------------------------------- configuration

  ghost predicate ConfigVouched(log: seq<Action>, home: Id -> string, c: Config) {
    c.status.DraftConfig? || Vouched(log, home, "config:approve:item", Named(VersionName(c.key, c.version)), c.tenantId, c.createdBy)
  }

  /** The seeded version, which is the first, was approved before the log began. */
  ghost predicate ConfigsVouched(s: State, home: Id -> string) {
    |s.configs| > 0 && forall k :: 1 <= k < |s.configs| ==> ConfigVouched(s.actions, home, s.configs[k])
  }

  lemma ConfigStays(log: seq<Action>, log': seq<Action>, home: Id -> string, c: Config, c': Config)
    requires ConfigVouched(log, home, c) && log <= log'
    requires c' == c || (!c.status.DraftConfig? && c' == c.(status := RetiredConfig))
    ensures ConfigVouched(log', home, c')
  {
    if !c.status.DraftConfig? {
      VouchedGrows(log, log', home, "config:approve:item", Named(VersionName(c.key, c.version)), c.tenantId, c.createdBy);
    }
  }

  lemma ApproveConfigVouched(s: State, p: Principal, id: Id, ok: bool, home: Id -> string)
    requires ConfigsVouched(s, home) && home(p.id) == p.tenantId
    ensures ConfigsVouched(ApproveConfig(s, p, id, ok).0, home)
  {
    if MayApproveConfig(s, p, id, ok) {
      var s' := ApproveConfig(s, p, id, ok).0;
      var k := FindConfig(s.configs, id);
      var draft := s.configs[k];
      VouchedNow(s, s', p, home, "config:approve:item", Named(VersionName(draft.key, draft.version)), draft.createdBy);
      forall j | 1 <= j < |s'.configs|
        ensures ConfigVouched(s'.actions, home, s'.configs[j])
      {
        if j != k {
          assert s'.configs[j] == RetireOne(s.configs[j], draft);
          ConfigStays(s.actions, s'.actions, home, s.configs[j], s'.configs[j]);
        }
      }
    }
  }

  lemma ConfigsElsewhere(s: State, s': State, home: Id -> string)
    requires ConfigsVouched(s, home) && s.actions <= s'.actions && s.configs <= s'.configs
    requires forall k :: |s.configs| <= k < |s'.configs| ==> s'.configs[k].status.DraftConfig?
    ensures ConfigsVouched(s', home)
  {
    forall k | 1 <= k < |s'.configs|
      ensures ConfigVouched(s'.actions, home, s'.configs[k])
    {
      if k < |s.configs| {
        ConfigStays(s.actions, s'.actions, home, s.configs[k], s'.configs[k]);
      }
    }
  }

  // ---------------------------------------------------------------- business rules

  ghost predicate RuleVouched(log: seq<Action>, home: Id -> string, rule: Rule, v: RuleVersion) {
    v.status.EffectiveRule? && v.ruleId == rule.id ==>
      Vouched(log, home, "rules:approve:rule", Named(VersionName(rule.key, v.version)), rule.tenantId, v.createdBy)
  }

  ghost predicate RulesVouched(s: State, home: Id -> string) {
    && (forall k, r :: 0 <= k < |s.ruleVersions| && 0 <= r < |s.rules| ==>
          RuleVouched(s.actions, home, s.rules[r], s.ruleVersions[k]))
    && (forall k :: 0 <= k < |s.ruleVersions| ==> s.ruleVersions[k].ruleId < s.nextId)
  }

  lemma RuleStays(log: seq<Action>, log': seq<Action>, home: Id -> string, rule: Rule, v: RuleVersion, v': RuleVersion)
    requires RuleVouched(log, home, rule, v) && log <= log'
    requires v' == v || v' == v.(status := RetiredRule)
    ensures RuleVouched(log', home, rule, v')
  {
    if v.status.EffectiveRule? && v.ruleId == rule.id {
      VouchedGrows(log, log', home, "rules:approve:rule", Named(VersionName(rule.key, v.version)), rule.tenantId, v.createdBy);
    }
  }

  lemma CreateRuleVouched(s: State, p: Principal, key: string, ok: bool, home: Id -> string)
    requires RulesVouched(s, home) && SodRuns.RulesUnique(s)
    ensures RulesVouched(CreateRule(s, p, key, ok), home)
  {
    var s' := CreateRule(s, p, key, ok);
    forall k, r | 0 <= k < |s'.ruleVersions| && 0 <= r < |s'.rules|
      ensures RuleVouched(s'.actions, home, s'.rules[r], s'.ruleVersions[k])
    {
      if k < |s.ruleVersions| && r < |s.rules| {
        RuleStays(s.actions, s'.actions, home, s.rules[r], s.ruleVersions[k], s'.ruleVersions[k]);
      }
    }
  }

  lemma ApproveRuleVouched(s: State, p: Principal, id: Id, ok: bool, home: Id -> string)
    requires RulesVouched(s, home) && SodRuns.RulesUnique(s) && home(p.id) == p.tenantId
    ensures RulesVouched(ApproveRule(s, p, id, ok), home)
  {
    if MayApproveRule(s, p, id, ok) {
      var s' := ApproveRule(s, p, id, ok);
      var k := FindRuleVersion(s.ruleVersions, id);
      var r := FindRule(s.rules, s.ruleVersions[k].ruleId, p.tenantId);
      VouchedNow(s, s', p, home, "rules:approve:rule", Named(VersionName(s.rules[r].key, s.ruleVersions[k].version)),
                 s.ruleVersions[k].createdBy);
      forall j, q | 0 <= j < |s'.ruleVersions| && 0 <= q < |s'.rules|
        ensures RuleVouched(s'.actions, home, s'.rules[q], s'.ruleVersions[j])
      {
        if j != k {
          RuleStays(s.actions, s'.actions, home, s.rules[q], s.ruleVersions[j], s'.ruleVersions[j]);
        } else {
          assert s.rules[q].id == s.ruleVersions[k].ruleId ==> q == r;
        }
      }
    }
  }

  lemma RulesElsewhere(s: State, s': State, home: Id -> string)
    requires RulesVouched(s, home) && s.actions <= s'.actions && s'.rules == s.rules && s.nextId <= s'.nextId
    requires |s'.ruleVersions| == |s.ruleVersions|
    requires forall k :: 0 <= k < |s.ruleVersions| ==>
      (s'.ruleVersions[k] == s.ruleVersions[k] || s'.ruleVersions[k] == s.ruleVersions[k].(status := RetiredRule))
    ensures RulesVouched(s', home)
  {
    forall k, r | 0 <= k < |s'.ruleVersions| && 0 <= r < |s'.rules|
      ensures RuleVouched(s'.actions, home, s'.rules[r], s'.ruleVersions[k])
    {
      RuleStays(s.actions, s'.actions, home, s.rules[r], s.ruleVersions[k], s'.ruleVersions[k]);
    }
  }

  // ---------------------------------------------------------------- workflow tasks

  ghost predicate TaskVouched(log: seq<Action>, home: Id -> string, t: Task, instance: Instance) {
    t.decision.Some? && t.instanceId == instance.id ==>
      Vouched(log, home, "workflow:approve:task", Record(instance.id), t.tenantId, instance.startedBy)
  }

  ghost predicate TasksVouched(s: State, home: Id -> string) {
    forall t, i :: 0 <= t < |s.tasks| && 0 <= i < |s.instances| ==> TaskVouched(s.actions, home, s.tasks[t], s.instances[i])
  }

  lemma TaskStays(log: seq<Action>, log': seq<Action>, home: Id -> string, t: Task, t': Task, instance: Instance, instance': Instance)
    requires TaskVouched(log, home, t, instance) && log <= log'
    requires t'.decision == t.decision && t'.instanceId == t.instanceId && t'.tenantId == t.tenantId
    requires instance'.id == instance.id && instance'.startedBy == instance.startedBy
    ensures TaskVouched(log', home, t', instance')
  {
    if t.decision.Some? && t.instanceId == instance.id {
      VouchedGrows(log, log', home, "workflow:approve:task", Record(instance.id), t.tenantId, instance.startedBy);
    }
  }

  /** Tasks keep what was decided on them, instances keep who started them, and anything new is undecided and unrelated. */
  predicate TasksKept(s: State, s': State) {
    && s.actions <= s'.actions
    && |s.tasks| <= |s'.tasks| && |s.instances| <= |s'.instances|
    && (forall t :: 0 <= t < |s.tasks| ==>
          s'.tasks[t].decision == s.tasks[t].decision && s'.tasks[t].instanceId == s.tasks[t].instanceId
          && s'.tasks[t].tenantId == s.tasks[t].tenantId)
    && (forall i :: 0 <= i < |s.instances| ==>
          s'.instances[i].id == s.instances[i].id && s'.instances[i].startedBy == s.instances[i].startedBy)
    && (forall t :: |s.tasks| <= t < |s'.tasks| ==> s'.tasks[t].decision.None?)
    && (forall i, t :: |s.instances| <= i < |s'.instances| && 0 <= t < |s.tasks| ==> s.tasks[t].instanceId != s'.instances[i].id)
  }

  lemma TasksKeptVouched(s: State, s': State, home: Id -> string)
    requires TasksVouched(s, home) && TasksKept(s, s')
    ensures TasksVouched(s', home)
  {
    forall t, i | 0 <= t < |s'.tasks| && 0 <= i < |s'.instances|
      ensures TaskVouched(s'.actions, home, s'.tasks[t], s'.instances[i])
    {
      if t < |s.tasks| && i < |s.instances| {
        TaskStays(s.actions, s'.actions, home, s.tasks[t], s'.tasks[t], s.instances[i], s'.instances[i]);
      }
    }
  }

  lemma SettleVouched(s: State, p: Principal, t: nat, i: nat, v: nat, d: Decision, key: string, home: Id -> string)
    requires TasksVouched(s, home) && WorkflowRuns.InstanceIdsOk(s.instances, s.versions, s.nextId)
    requires Located(s, t, i, v) && s.instances[i].startedBy != p.id && s.tasks[t].tenantId == p.tenantId == home(p.id)
    ensures TasksVouched(Settle(s, p, t, i, v, d, key), home)
  {
    var s' := Settle(s, p, t, i, v, d, key);
    VouchedNow(s, s', p, home, "workflow:approve:task", Record(s.instances[i].id), s.instances[i].startedBy);
    forall u, j | 0 <= u < |s'.tasks| && 0 <= j < |s'.instances|
      ensures TaskVouched(s'.actions, home, s'.tasks[u], s'.instances[j])
    {
      assert s'.instances[j].id == s.instances[j].id && s'.instances[j].startedBy == s.instances[j].startedBy;
      if u == t {
        assert s'.tasks[u].instanceId == s'.instances[j].id ==> j == i;
      } else if u < |s.tasks| {
        TaskStays(s.actions, s'.actions, home, s.tasks[u], s'.tasks[u], s.instances[j], s'.instances[j]);
      }
    }
  }

  // ---------------------------------------------------------------- every run

  ghost predicate AllVouched(s: State, home: Id -> string) {
    PaymentsVouched(s, home) && ConfigsVouched(s, home) && RulesVouched(s, home) && TasksVouched(s, home)
  }

  lemma PaymentStep(s: State, step: Step, home: Id -> string)
    requires PaymentsVouched(s, home) && SodRuns.AtHome(step, home)
    ensures PaymentsVouched(Apply(s, step), home)
  {
    match step
    case CreatePaymentStep(p, ok) => CreatePaymentVouched(s, p, ok, home);
    case DecideApprovalStep(p, id, d, ok) => DecideApprovalVouched(s, p, id, d, ok, home);
    case _ => {
      LogGrows(s, step);
      PaymentRuns.SamePayments(s, step);
      PaymentsElsewhere(s, Apply(s, step), home);
    }
  }

  lemma ConfigStep(s: State, step: Step, home: Id -> string)
    requires ConfigsVouched(s, home) && SodRuns.AtHome(step, home)
    ensures ConfigsVouched(Apply(s, step), home)
  {
    match step
    case ApproveConfigStep(p, id, ok) => ApproveConfigVouched(s, p, id, ok, home);
    case _ => {
      LogGrows(s, step);
      DraftsOnly(s, step);
      ConfigsElsewhere(s, Apply(s, step), home);
    }
  }

  lemma DraftsOnly(s: State, step: Step)
    requires !step.ApproveConfigStep?
    ensures s.configs <= Apply(s, step).configs
    ensures forall k :: |s.configs| <= k < |Apply(s, step).configs| ==> Apply(s, step).configs[k].status.DraftConfig?
  {
  }

  lemma RuleStep(s: State, step: Step, home: Id -> string)
    requires RulesVouched(s, home) && SodRuns.RulesUnique(s) && SodRuns.AtHome(step, home)
    ensures RulesVouched(Apply(s, step), home)
  {
    match step
    case CreateRuleStep(p, key, ok) => CreateRuleVouched(s, p, key, ok, home);
    case ApproveRuleStep(p, id, ok) => ApproveRuleVouched(s, p, id, ok, home);
    case _ => {
      LogGrows(s, step);
      SameRules(s, step);
      RulesElsewhere(s, Apply(s, step), home);
    }
  }

  lemma SameRules(s: State, step: Step)
    requires !step.CreateRuleStep? && !step.ApproveRuleStep?
    ensures Apply(s, step).rules == s.rules && |Apply(s, step).ruleVersions| == |s.ruleVersions|
    ensures forall k :: 0 <= k < |s.ruleVersions| ==>
      (Apply(s, step).ruleVersions[k] == s.ruleVersions[k] || Apply(s, step).ruleVersions[k] == s.ruleVersions[k].(status := RetiredRule))
  {
  }

  lemma CompleteVouched(
    s: State, p: Principal, id: Id, d: Decision, key: string, now: int, live: bool, ok: bool, home: Id -> string)
    requires TasksVouched(s, home) && WorkflowRuns.InstanceIdsOk(s.instances, s.versions, s.nextId) && home(p.id) == p.tenantId
    ensures TasksVouched(Complete(s, p, id, d, key, now, live, ok).0, home)
  {
    if CheckComplete(s, p, id, key, now, live, ok).Decided? {
      var t := FindTask(s.tasks, id);
      var i := FindInstance(s.instances, s.tasks[t].instanceId);
      SettleVouched(s, p, t, i, FindVersion(s.versions, s.instances[i].versionId), d, key, home);
    }
  }

  lemma TaskStep(s: State, step: Step, home: Id -> string)
    requires TasksVouched(s, home) && WorkflowRuns.IdsOk(s) && SodRuns.AtHome(step, home)
    ensures TasksVouched(Apply(s, step), home)
  {
    if step.CompleteStep? {
      CompleteVouched(s, step.p, step.id, step.decision, step.key, step.now, step.live, step.permitted, home);
    } else {
      KeepsTasks(s, step);
      TasksKeptVouched(s, Apply(s, step), home);
    }
  }

  lemma KeepsTasks(s: State, step: Step)
    requires WorkflowRuns.IdsOk(s) && !step.CompleteStep?
    ensures TasksKept(s, Apply(s, step))
  {
    if step.CancelStep? {
      CancelKeepsTasks(s, step.p, step.id, step.live, step.permitted);
    } else if step.EscalateStep? {
      EscalateKeepsTasks(s, step.now);
    } else if step.StartStep? {
      StartKeepsTasks(s, step.p, step.key, step.now, step.permitted);
    } else {
      OthersKeepTasks(s, step);
    }
  }

  lemma OthersKeepTasks(s: State, step: Step)
    requires !step.CompleteStep? && !step.CancelStep? && !step.EscalateStep? && !step.StartStep?
    ensures TasksKept(s, Apply(s, step))
  {
    LogGrows(s, step);
    WorkflowRuns.SameRecords(s, step);
  }

  lemma StartKeepsTasks(s: State, p: Principal, key: string, now: int, ok: bool)
    requires WorkflowRuns.TaskIdsOk(s.tasks, s.nextId)
    ensures TasksKept(s, Start(s, p, key, now, ok))
  {
  }

  lemma CancelKeepsTasks(s: State, p: Principal, id: Id, live: bool, ok: bool)
    ensures TasksKept(s, CancelInstance(s, p, id, live, ok))
  {
    assert forall t :: 0 <= t < |s.tasks| ==> CancelTask(s.tasks[t], id).decision == s.tasks[t].decision;
  }

  lemma EscalateKeepsTasks(s: State, now: int)
    ensures TasksKept(s, Escalate(s, now))
  {
    assert forall t :: 0 <= t < |s.tasks| ==> EscalateTask(s.tasks[t], now).decision == s.tasks[t].decision;
  }

  /** The log is append-only. */
  lemma LogGrows(s: State, step: Step)
    ensures s.actions <= Apply(s, step).actions && s.nextId <= Apply(s, step).nextId
  {
  }

  /**
   * In every run: a decided payment, an approved or once approved configuration version (the seeded one aside), an
   * effective rule version and a decided task each have a decision in the log, taken in their tenant by somebody other
   * than their author.
   */
  lemma {:induction false} EveryRunFourEyes(tenantId: string, author: Id, nextId: Id, steps: seq<Step>, home: Id -> string)
    requires nextId > 0
    requires forall i :: 0 <= i < |steps| ==> SodRuns.AtHome(steps[i], home)
    ensures AllVouched(Run(Seeded(tenantId, author, nextId), steps), home)
  {
    if steps != [] {
      var before := steps[..|steps| - 1];
      var s := Run(Seeded(tenantId, author, nextId), before);
      EveryRunFourEyes(tenantId, author, nextId, before, home);
      SodRuns.EveryRunSeparated(tenantId, author, nextId, before, home);
      WorkflowRuns.EveryRunWorkflowOk(tenantId, author, nextId, before);
      PaymentStep(s, steps[|steps| - 1], home);
      ConfigStep(s, steps[|steps| - 1], home);
      RuleStep(s, steps[|steps| - 1], home);
      TaskStep(s, steps[|steps| - 1], home);
    }
  }
}
