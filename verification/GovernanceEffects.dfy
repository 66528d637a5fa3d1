/** What payments, configuration and business rules do, told from the state and the request alone. */
module GovernanceEffects {
  import opened Options
  import opened Governance
  import PaymentRuns

  // ---------------------------------------------------------------- the other side of a rule

  /** The second side of a seeded rule is closed exactly to a principal who was on the first, for the same object. */
  lemma SecondSide(s: State, p: Principal, rule: nat, about: ObjectId)
    requires rule < |SOD_RULES|
    ensures Separate(s, p, SOD_RULES[rule].actionB, about) <==> Action(p.id, SOD_RULES[rule].actionA, about) !in s.actions
  {
    var next := Action(p.id, SOD_RULES[rule].actionB, about);
    forall r | 0 <= r < |SOD_RULES|
      ensures AnyConflict(SOD_RULES[r], s.actions, next) <==> r == rule && Action(p.id, SOD_RULES[rule].actionA, about) in s.actions
    {
      assert r in [0, 1, 2, 3, 4] && rule in [0, 1, 2, 3, 4];
      OneConflict(s.actions, next, r, rule);
    }
  }

  /** Who started an instance may not decide on it. */
  lemma TaskSide(s: State, p: Principal, instance: ObjectId)
    ensures Separate(s, p, "workflow:approve:task", instance) <==> Action(p.id, "workflow:execute:instance", instance) !in s.actions
  {
    SecondSide(s, p, 3, instance);
  }

  lemma OneConflict(log: seq<Action>, next: Action, r: nat, rule: nat)
    requires r < |SOD_RULES| && rule < |SOD_RULES| && next.action == SOD_RULES[rule].actionB
    ensures AnyConflict(SOD_RULES[r], log, next) <==> r == rule && Action(next.principalId, SOD_RULES[rule].actionA, next.objectId) in log
  {
    RuleSides(r, rule);
    if r == rule {
      forall i | 0 <= i < |log|
        ensures Conflicts(SOD_RULES[r], log[i], next) <==> log[i] == Action(next.principalId, SOD_RULES[rule].actionA, next.objectId)
      {
      }
    }
  }

  /** No action is on two sides. */
  lemma RuleSides(r: nat, rule: nat)
    requires r < |SOD_RULES| && rule < |SOD_RULES|
    ensures SOD_RULES[r].actionA != SOD_RULES[rule].actionB && (r != rule ==> SOD_RULES[r].actionB != SOD_RULES[rule].actionB)
    ensures SOD_RULES[r].sameObject
  {
    assert r in [0, 1, 2, 3, 4] && rule in [0, 1, 2, 3, 4];
  }

  // ---------------------------------------------------------------- payments

  /** A permitted request adds a pending payment and its pending approval, by and for the principal, and logs it. */
  lemma PaymentCreated(s: State, p: Principal, permitted: bool)
    ensures var t := CreatePayment(s, p, permitted);
      if !permitted then t == s
      else
        && t.nextId == s.nextId + 2
        && t.payments == s.payments[s.nextId := Payment(s.nextId, p.tenantId, PendingPayment, p.id)]
        && t.approvals == s.approvals[s.nextId + 1 := Approval(s.nextId + 1, p.tenantId, s.nextId, PendingPayment, p.id)]
        && t.actions == s.actions + [Action(p.id, "finance:create:payment", Record(s.nextId))]
        && t == s.(nextId := t.nextId, payments := t.payments, approvals := t.approvals, actions := t.actions)
  {
  }

  /** A pending approval of the tenant, for somebody who is no AI agent, did not ask for it and did not create the payment. */
  predicate Decidable(s: State, p: Principal, approvalId: Id, permitted: bool) {
    && permitted && approvalId in s.approvals
    && var approval := s.approvals[approvalId];
    && approval.tenantId == p.tenantId && approval.status == PendingPayment && approval.paymentId in s.payments
    && p.actorType != AiAgent && p.id != approval.requestedBy
    && Action(p.id, "finance:create:payment", Record(s.payments[approval.paymentId].id)) !in s.actions
  }

  lemma DecidableExactly(s: State, p: Principal, approvalId: Id, permitted: bool)
    ensures MayDecidePayment(s, p, approvalId, permitted) <==> Decidable(s, p, approvalId, permitted)
  {
    if approvalId in s.approvals && s.approvals[approvalId].paymentId in s.payments {
      SecondSide(s, p, 0, Record(s.payments[s.approvals[approvalId].paymentId].id));
    }
  }

  /** A decision that may be taken approves or rejects payment and approval as it says; any other changes nothing. */
  lemma PaymentDecided(s: State, p: Principal, approvalId: Id, decision: Decision, permitted: bool)
    ensures var t := DecideApproval(s, p, approvalId, decision, permitted);
      if !Decidable(s, p, approvalId, permitted) then t == s
      else
        var id := s.approvals[approvalId].paymentId;
        var status := match decision case Approve => ApprovedPayment case Reject => RejectedPayment;
        && t.approvals == s.approvals[approvalId := s.approvals[approvalId].(status := status)]
        && t.payments == s.payments[id := s.payments[id].(status := status)]
        && t.actions == s.actions + [Action(p.id, "finance:approve:payment", Record(s.payments[id].id))]
        && t == s.(payments := t.payments, approvals := t.approvals, actions := t.actions)
  {
    DecidableExactly(s, p, approvalId, permitted);
  }

  predicate Waiting(s: State, id: Id) {
    id in s.payments && s.payments[id].status == PendingPayment
  }

  /** The decision of the last step of a run after which a payment was no longer waiting that was before it. */
  function SettledBy(start: State, steps: seq<Step>, id: Id): Option<Decision> {
    if steps == [] then None
    else
      var before, step := steps[..|steps| - 1], steps[|steps| - 1];
      if Waiting(Run(start, before), id) && !Waiting(Apply(Run(start, before), step), id)
      then if step.DecideApprovalStep? then Some(step.decision) else None
      else SettledBy(start, before, id)
  }

  function StatusAfter(decision: Option<Decision>): PaymentStatus {
    match decision
    case None => PendingPayment
    case Some(Approve) => ApprovedPayment
    case Some(Reject) => RejectedPayment
  }

  /** One step: a payment that is settled was decided so, and one that is new is waiting. */
  lemma StepSettles(s: State, step: Step, id: Id)
    requires PaymentRuns.PaymentsOk(s) && id in Apply(s, step).payments
    ensures var status := Apply(s, step).payments[id].status;
      if Waiting(s, id) && status != PendingPayment then step.DecideApprovalStep? && status == StatusAfter(Some(step.decision))
      else status == if id in s.payments then s.payments[id].status else PendingPayment
  {
    PaymentRuns.StepFinal(s, step);
    if step.DecideApprovalStep? {
      PaymentDecided(s, step.p, step.approvalId, step.decision, step.permitted);
    } else if step.CreatePaymentStep? {
      PaymentCreated(s, step.p, step.permitted);
    } else {
      PaymentRuns.SamePayments(s, step);
    }
  }

  /** A payment that is not there was not settled. */
  lemma {:induction false} NotThere(start: State, steps: seq<Step>, id: Id)
    requires PaymentRuns.PaymentsOk(start) && id !in Run(start, steps).payments
    ensures SettledBy(start, steps, id) == None
  {
    if steps != [] {
      var before := steps[..|steps| - 1];
      PaymentRuns.EveryRunPaymentsOk(start, before);
      PaymentRuns.StepFinal(Run(start, before), steps[|steps| - 1]);
      NotThere(start, before, id);
    }
  }

  /**
   * In every run from a store without payments: a payment is approved exactly when the decision that settled it was to
   * approve, rejected exactly when it was to reject, and otherwise it is pending.
   */
  lemma {:induction false} StatusIsDecision(start: State, steps: seq<Step>, id: Id)
    requires PaymentRuns.PaymentsOk(start) && start.payments == map[]
    ensures id in Run(start, steps).payments ==> Run(start, steps).payments[id].status == StatusAfter(SettledBy(start, steps, id))
  {
    if steps != [] && id in Run(start, steps).payments {
      var before, step := steps[..|steps| - 1], steps[|steps| - 1];
      var s := Run(start, before);
      PaymentRuns.EveryRunPaymentsOk(start, before);
      StepSettles(s, step, id);
      if id in s.payments {
        StatusIsDecision(start, before, id);
      } else {
        NotThere(start, before, id);
      }
    }
  }

  // ---------------------------------------------------------------- configuration

  /** A number is the next one of a tenant's key: one more than the highest there is, or one. */
  predicate NextConfigNumber(cs: seq<Config>, tenantId: string, key: string, version: nat) {
    && version > 0
    && (forall i :: 0 <= i < |cs| && cs[i].tenantId == tenantId && cs[i].key == key ==> cs[i].version < version)
    && (version > 1 ==> exists i :: 0 <= i < |cs| && cs[i].tenantId == tenantId && cs[i].key == key && cs[i].version == version - 1)
  }

  lemma {:induction false} HighestConfig(cs: seq<Config>, tenantId: string, key: string)
    ensures var m := MaxConfigVersion(cs, tenantId, key);
      m > 0 ==> exists i :: 0 <= i < |cs| && cs[i].tenantId == tenantId && cs[i].key == key && cs[i].version == m
  {
    if cs != [] {
      var n := |cs| - 1;
      HighestConfig(cs[..n], tenantId, key);
      if i :| 0 <= i < n && cs[..n][i].tenantId == tenantId && cs[..n][i].key == key && cs[..n][i].version == MaxConfigVersion(cs[..n], tenantId, key) {
        assert cs[i] == cs[..n][i];
      }
    }
  }

  /** A permitted draft is added with the next number of its key, and logged under its name; the rest stays. */
  lemma ConfigDrafted(s: State, p: Principal, key: string, value: string, permitted: bool)
    ensures var (t, id) := Draft(s, p, key, value, permitted);
      if !permitted then t == s && id == None
      else
        && id == Some(s.nextId) && t.nextId == s.nextId + 1
        && |t.configs| == |s.configs| + 1 && t.configs[..|s.configs|] == s.configs
        && (var draft := t.configs[|s.configs|];
            && draft == Config(s.nextId, p.tenantId, key, draft.version, value, DraftConfig, p.id)
            && NextConfigNumber(s.configs, p.tenantId, key, draft.version)
            && t.actions == s.actions + [Action(p.id, "config:write:item", Named(VersionName(key, draft.version)))])
        && t == s.(nextId := t.nextId, configs := t.configs, actions := t.actions)
  {
    HighestConfig(s.configs, p.tenantId, key);
  }

  /** A draft of the tenant, for somebody who is no AI agent and neither wrote it nor a version of its name. */
  predicate Approvable(s: State, p: Principal, k: nat, permitted: bool)
    requires k < |s.configs|
  {
    && permitted && s.configs[k].tenantId == p.tenantId && s.configs[k].status == DraftConfig
    && p.actorType != AiAgent && p.id != s.configs[k].createdBy
    && Action(p.id, "config:write:item", Named(VersionName(s.configs[k].key, s.configs[k].version))) !in s.actions
  }

  /** The version with an identifier: the first one. */
  predicate ConfigAt(cs: seq<Config>, k: nat, id: Id) {
    k < |cs| && cs[k].id == id && forall j :: 0 <= j < k ==> cs[j].id != id
  }

  lemma UnknownConfig(s: State, p: Principal, id: Id, permitted: bool)
    requires forall k :: 0 <= k < |s.configs| ==> s.configs[k].id != id
    ensures ApproveConfig(s, p, id, permitted) == (s, false)
  {
  }

  /** What becomes of another version when a draft is approved: the key's approved one is retired. */
  predicate RetiredFor(c: Config, c': Config, draft: Config) {
    c' == if c.tenantId == draft.tenantId && c.key == draft.key && c.status == ApprovedConfig && c.id != draft.id
          then c.(status := RetiredConfig) else c
  }

  lemma MayApproveExactly(s: State, p: Principal, k: nat, id: Id, permitted: bool)
    requires ConfigAt(s.configs, k, id)
    ensures FindConfig(s.configs, id) == k && (MayApproveConfig(s, p, id, permitted) <==> Approvable(s, p, k, permitted))
  {
    assert FindConfig(s.configs, id) == k;
    SecondSide(s, p, 1, Named(VersionName(s.configs[k].key, s.configs[k].version)));
  }

  /** A draft that may be approved is, the key's approved versions are retired, and the approval is logged; else nothing changes. */
  lemma ConfigApproved(s: State, p: Principal, k: nat, id: Id, permitted: bool)
    requires ConfigAt(s.configs, k, id)
    ensures var (t, approved) := ApproveConfig(s, p, id, permitted);
      if !Approvable(s, p, k, permitted) then t == s && !approved
      else
        && approved && |t.configs| == |s.configs|
        && t.configs[k] == s.configs[k].(status := ApprovedConfig)
        && (forall j :: 0 <= j < |s.configs| && j != k ==> RetiredFor(s.configs[j], t.configs[j], s.configs[k]))
        && t.actions == s.actions + [Action(p.id, "config:approve:item", Named(VersionName(s.configs[k].key, s.configs[k].version)))]
        && t == s.(configs := t.configs, actions := t.actions)
  {
    MayApproveExactly(s, p, k, id, permitted);
    var others := RetireOthers(s.configs, s.configs[k]);
    assert forall j :: 0 <= j < |s.configs| ==> others[j] == RetireOne(s.configs[j], s.configs[k]);
  }

  /** A version of the key with that number that is or was in effect. */
  predicate WasApproved(c: Config, tenantId: string, key: string, version: nat) {
    c.tenantId == tenantId && c.key == key && c.version == version && c.status != DraftConfig
  }

  predicate TargetAt(cs: seq<Config>, k: nat, tenantId: string, key: string, version: nat) {
    k < |cs| && WasApproved(cs[k], tenantId, key, version) && forall j :: 0 <= j < k ==> !WasApproved(cs[j], tenantId, key, version)
  }

  /** A rollback drafts the value of the first such version, and does nothing without one. */
  lemma RolledBack(s: State, p: Principal, key: string, toVersion: nat, permitted: bool)
    ensures (forall j :: 0 <= j < |s.configs| ==> !WasApproved(s.configs[j], p.tenantId, key, toVersion)) ==>
      Rollback(s, p, key, toVersion, permitted) == (s, None)
    ensures forall k :: 0 <= k < |s.configs| && TargetAt(s.configs, k, p.tenantId, key, toVersion) ==>
      Rollback(s, p, key, toVersion, permitted) == Draft(s, p, key, s.configs[k].value, permitted)
  {
    var target := RollbackTarget(s.configs, p.tenantId, key, toVersion);
    forall j | 0 <= j < |s.configs|
      ensures WasApproved(s.configs[j], p.tenantId, key, toVersion) ==> target <= j
      ensures j == target ==> WasApproved(s.configs[j], p.tenantId, key, toVersion)
    {
    }
  }

  // ---------------------------------------------------------------- business rules

  /** The tenant's rule with a key. */
  predicate RuleAt(rs: seq<Rule>, r: nat, tenantId: string, key: string) {
    && r < |rs| && rs[r].tenantId == tenantId && rs[r].key == key
    && forall j :: 0 <= j < r ==> !(rs[j].tenantId == tenantId && rs[j].key == key)
  }

  predicate NextRuleNumber(vs: seq<RuleVersion>, ruleId: Id, version: nat) {
    && version > 0
    && (forall i :: 0 <= i < |vs| && vs[i].ruleId == ruleId ==> vs[i].version < version)
    && (version > 1 ==> exists i :: 0 <= i < |vs| && vs[i].ruleId == ruleId && vs[i].version == version - 1)
  }

  lemma {:induction false} HighestRule(vs: seq<RuleVersion>, ruleId: Id)
    ensures var m := MaxRuleVersion(vs, ruleId); m > 0 ==> exists i :: 0 <= i < |vs| && vs[i].ruleId == ruleId && vs[i].version == m
  {
    if vs != [] {
      var n := |vs| - 1;
      HighestRule(vs[..n], ruleId);
      if i :| 0 <= i < n && vs[..n][i].ruleId == ruleId && vs[..n][i].version == MaxRuleVersion(vs[..n], ruleId) {
        assert vs[i] == vs[..n][i];
      }
    }
  }

  /** The version a permitted request adds: the next draft of the rule, logged under the rule's key. */
  predicate VersionAdded(s: State, t: State, p: Principal, rule: Rule) {
    && |t.ruleVersions| == |s.ruleVersions| + 1 && t.ruleVersions[..|s.ruleVersions|] == s.ruleVersions
    && (var v := t.ruleVersions[|s.ruleVersions|];
        && v == RuleVersion(s.nextId + 1, rule.id, v.version, DraftRule, p.id)
        && NextRuleNumber(s.ruleVersions, rule.id, v.version)
        && t.actions == s.actions + [Action(p.id, "rules:write:rule", Named(VersionName(rule.key, v.version)))])
    && t == s.(nextId := s.nextId + 2, rules := t.rules, ruleVersions := t.ruleVersions, actions := t.actions)
  }

  /** A further version of the tenant's rule with the key, or the first of a new rule. */
  lemma RuleWritten(s: State, p: Principal, key: string, permitted: bool)
    ensures var t := CreateRule(s, p, key, permitted);
      && (!permitted ==> t == s)
      && (permitted ==> forall r :: 0 <= r < |s.rules| && RuleAt(s.rules, r, p.tenantId, key) ==>
            t.rules == s.rules && VersionAdded(s, t, p, s.rules[r]))
      && (permitted && (forall r :: 0 <= r < |s.rules| ==> !(s.rules[r].tenantId == p.tenantId && s.rules[r].key == key)) ==>
            t.rules == s.rules + [Rule(s.nextId, p.tenantId, key)] && VersionAdded(s, t, p, Rule(s.nextId, p.tenantId, key)))
  {
    var k := FindRuleByKey(s.rules, p.tenantId, key);
    var rule := if k < |s.rules| then s.rules[k] else Rule(s.nextId, p.tenantId, key);
    HighestRule(s.ruleVersions, rule.id);
    assert forall r :: 0 <= r < |s.rules| && RuleAt(s.rules, r, p.tenantId, key) ==> r == k;
  }

  /** The rule version with an identifier and its rule in the tenant: the first ones. */
  predicate RuleVersionAt(s: State, k: nat, r: nat, id: Id, tenantId: string) {
    && k < |s.ruleVersions| && s.ruleVersions[k].id == id && (forall j :: 0 <= j < k ==> s.ruleVersions[j].id != id)
    && r < |s.rules| && s.rules[r].id == s.ruleVersions[k].ruleId && s.rules[r].tenantId == tenantId
    && forall j :: 0 <= j < r ==> !(s.rules[j].id == s.ruleVersions[k].ruleId && s.rules[j].tenantId == tenantId)
  }

  lemma RuleVersionFound(s: State, k: nat, r: nat, id: Id, tenantId: string)
    requires RuleVersionAt(s, k, r, id, tenantId)
    ensures FindRuleVersion(s.ruleVersions, id) == k && FindRule(s.rules, s.ruleVersions[k].ruleId, tenantId) == r
  {
  }

  /** Without a version of that identifier, or without its rule in the tenant, nothing changes. */
  lemma UnknownRuleVersion(s: State, p: Principal, id: Id, permitted: bool)
    requires forall k, r :: 0 <= k < |s.ruleVersions| && 0 <= r < |s.rules| ==> !RuleVersionAt(s, k, r, id, p.tenantId)
    ensures ApproveRule(s, p, id, permitted) == s && RetireRule(s, p, id, permitted) == s
  {
    var k := FindRuleVersion(s.ruleVersions, id);
    if k < |s.ruleVersions| {
      var r := FindRule(s.rules, s.ruleVersions[k].ruleId, p.tenantId);
      assert r < |s.rules| ==> RuleVersionAt(s, k, r, id, p.tenantId);
    }
  }

  /** A draft becomes effective for somebody who is no AI agent and neither wrote it nor a version of its name. */
  lemma RuleApproved(s: State, p: Principal, k: nat, r: nat, id: Id, permitted: bool)
    requires RuleVersionAt(s, k, r, id, p.tenantId)
    ensures var t := ApproveRule(s, p, id, permitted);
      var v, name := s.ruleVersions[k], Named(VersionName(s.rules[r].key, s.ruleVersions[k].version));
      if permitted && v.status == DraftRule && p.actorType != AiAgent && p.id != v.createdBy
         && Action(p.id, "rules:write:rule", name) !in s.actions
      then t == s.(ruleVersions := s.ruleVersions[k := v.(status := EffectiveRule)],
                   actions := s.actions + [Action(p.id, "rules:approve:rule", name)])
      else t == s
  {
    RuleVersionFound(s, k, r, id, p.tenantId);
    SecondSide(s, p, 2, Named(VersionName(s.rules[r].key, s.ruleVersions[k].version)));
  }

  lemma RuleRetired(s: State, p: Principal, k: nat, r: nat, id: Id, permitted: bool)
    requires RuleVersionAt(s, k, r, id, p.tenantId)
    ensures RetireRule(s, p, id, permitted) ==
      if permitted then s.(ruleVersions := s.ruleVersions[k := s.ruleVersions[k].(status := RetiredRule)]) else s
  {
    RuleVersionFound(s, k, r, id, p.tenantId);
  }
}
