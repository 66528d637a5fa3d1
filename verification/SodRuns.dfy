/**
 * Separation of duties over whole runs: nobody ever ends up on both sides of a seeded rule for the same object,
 * in the one action log that payments, configuration, business rules and workflows share.
 */
module SodRuns {
  import opened Decimal
  import opened Governance

  // ---------------------------------------------------------------- one log

  predicate OnBothSides(rule: SodRule, a: Action, b: Action) {
    && a.principalId == b.principalId
    && a.action == rule.actionA
    && b.action == rule.actionB
    && (rule.sameObject ==> a.objectId == b.objectId)
  }

  ghost predicate Separated(log: seq<Action>) {
    forall r, i, j :: 0 <= r < |SOD_RULES| && 0 <= i < |log| && 0 <= j < |log| ==> !OnBothSides(SOD_RULES[r], log[i], log[j])
  }

  predicate Unopposed(log: seq<Action>, next: Action) {
    SodViolation(SOD_RULES, log, next).None?
  }

  lemma UnopposedKeepsSeparated(log: seq<Action>, next: Action)
    requires Separated(log) && Unopposed(log, next)
    ensures Separated(log + [next])
  {
    var longer := log + [next];
    forall r, i, j | 0 <= r < |SOD_RULES| && 0 <= i < |longer| && 0 <= j < |longer|
      ensures !OnBothSides(SOD_RULES[r], longer[i], longer[j])
    {
      assert !AnyConflict(SOD_RULES[r], log, next);
      assert SOD_RULES[r].actionA != SOD_RULES[r].actionB;
      assert i < |log| ==> !Conflicts(SOD_RULES[r], log[i], next);
      assert j < |log| ==> !Conflicts(SOD_RULES[r], log[j], next);
    }
  }

  /** The first side of a rule is free to act on an object its principal has not approved. */
  lemma FreshUnopposed(log: seq<Action>, next: Action, rule: nat)
    requires rule < |SOD_RULES| && next.action == SOD_RULES[rule].actionA
    requires forall j :: 0 <= j < |log| && log[j].principalId == next.principalId && log[j].action == SOD_RULES[rule].actionB ==>
               log[j].objectId != next.objectId
    ensures Unopposed(log, next)
  {
    forall r | 0 <= r < |SOD_RULES|
      ensures !AnyConflict(SOD_RULES[r], log, next)
    {
      assert r in [0, 1, 2, 3, 4] && rule in [0, 1, 2, 3, 4];
      assert r != rule ==> next.action != SOD_RULES[r].actionA && next.action != SOD_RULES[r].actionB;
    }
  }

  // ---------------------------------------------------------------- names of versions

  /** A version's name tells its key and its number: the number is what follows the last `:v`. */
  lemma VersionNameInjective(key: string, version: nat, otherKey: string, otherVersion: nat)
    requires VersionName(key, version) == VersionName(otherKey, otherVersion)
    ensures key == otherKey && version == otherVersion
  {
    var a, b := Dec(version), Dec(otherVersion);
    var name := VersionName(key, version);
    assert name == key + ":v" + a && name == otherKey + ":v" + b;
    if |a| < |b| {
      LastMark(key, a, name);
      LastMark(otherKey, b, name);
      assert false;
    } else if |b| < |a| {
      LastMark(key, a, name);
      LastMark(otherKey, b, name);
      assert false;
    } else {
      assert key == name[..|key|] && otherKey == name[..|key|];
      assert a == name[|key| + 2..] && b == name[|key| + 2..];
      DecValue(version);
      DecValue(otherVersion);
    }
  }

  lemma LastMark(key: string, digits: string, name: string)
    requires name == key + ":v" + digits && AllDigits(digits)
    ensures |name| == |key| + 2 + |digits| && name[|name| - |digits| - 1] == 'v'
    ensures forall d :: 0 <= d < |digits| ==> name[|name| - |digits| + d] == digits[d]
  {
  }

  // ---------------------------------------------------------------- what the log is about

  /** Records that were acted on exist, and their identifiers are used up. */
  ghost predicate RecordsKnown(s: State) {
    && (forall i :: 0 <= i < |s.actions| && s.actions[i].objectId.Record? ==> s.actions[i].objectId.id < s.nextId)
    && (forall id :: id in s.payments ==> s.payments[id].id < s.nextId)
    && (forall i :: 0 <= i < |s.instances| ==> s.instances[i].id < s.nextId)
  }

  predicate ConfigActedOn(cs: seq<Config>, tenantId: string, object': ObjectId) {
    exists k :: 0 <= k < |cs| && cs[k].tenantId == tenantId && object' == Named(VersionName(cs[k].key, cs[k].version))
  }

  /** A configuration version that was approved exists in its approver's tenant. */
  ghost predicate ConfigsKnown(s: State, home: Id -> string) {
    forall i :: 0 <= i < |s.actions| && s.actions[i].action == "config:approve:item" ==>
      ConfigActedOn(s.configs, home(s.actions[i].principalId), s.actions[i].objectId)
  }

  predicate RuleActedOn(rs: seq<Rule>, vs: seq<RuleVersion>, tenantId: string, object': ObjectId) {
    exists k, r :: 0 <= k < |vs| && 0 <= r < |rs| && NamesRule(rs[r], vs[k], tenantId, object')
  }

  predicate NamesRule(rule: Rule, v: RuleVersion, tenantId: string, object': ObjectId) {
    v.ruleId == rule.id && rule.tenantId == tenantId && object' == Named(VersionName(rule.key, v.version))
  }

  ghost predicate RulesKnown(s: State, home: Id -> string) {
    forall i :: 0 <= i < |s.actions| && s.actions[i].action == "rules:approve:rule" ==>
      RuleActedOn(s.rules, s.ruleVersions, home(s.actions[i].principalId), s.actions[i].objectId)
  }

  /** A rule is found by its identifier, and by its tenant and key. */
  predicate RulesUnique(s: State) {
    && (forall i :: 0 <= i < |s.rules| ==> s.rules[i].id < s.nextId)
    && (forall i, j :: 0 <= i < j < |s.rules| ==> s.rules[i].id != s.rules[j].id)
    && (forall i, j :: 0 <= i < j < |s.rules| ==> s.rules[i].tenantId != s.rules[j].tenantId || s.rules[i].key != s.rules[j].key)
  }

  ghost predicate LogOk(s: State, home: Id -> string) {
    Separated(s.actions) && RecordsKnown(s) && ConfigsKnown(s, home) && RulesKnown(s, home) && RulesUnique(s)
  }

  // ---------------------------------------------------------------- frames

  predicate ConfigsGrow(cs: seq<Config>, cs': seq<Config>) {
    && |cs| <= |cs'|
    && forall k :: 0 <= k < |cs| ==> cs'[k].tenantId == cs[k].tenantId && cs'[k].key == cs[k].key && cs'[k].version == cs[k].version
  }

  predicate RulesGrow(s: State, s': State) {
    && s.rules <= s'.rules
    && |s.ruleVersions| <= |s'.ruleVersions|
    && forall k :: 0 <= k < |s.ruleVersions| ==>
         s'.ruleVersions[k].ruleId == s.ruleVersions[k].ruleId && s'.ruleVersions[k].version == s.ruleVersions[k].version
  }

  /** The log grows by at most one action, which nothing opposes and which is about something known. */
  ghost predicate LogStep(s: State, s': State, home: Id -> string) {
    && ConfigsGrow(s.configs, s'.configs)
    && RulesGrow(s, s')
    && s.nextId <= s'.nextId
    && (s'.actions == s.actions || LogsOne(s, s', home))
  }

  ghost predicate LogsOne(s: State, s': State, home: Id -> string) {
    && |s'.actions| == |s.actions| + 1
    && var next := s'.actions[|s.actions|];
    && s'.actions == s.actions + [next]
    && Unopposed(s.actions, next)
    && (next.objectId.Record? ==> next.objectId.id < s'.nextId)
    && (next.action == "config:approve:item" ==> ConfigActedOn(s'.configs, home(next.principalId), next.objectId))
    && (next.action == "rules:approve:rule" ==> RuleActedOn(s'.rules, s'.ruleVersions, home(next.principalId), next.objectId))
  }

  lemma ConfigsStayKnown(cs: seq<Config>, cs': seq<Config>, tenantId: string, object': ObjectId)
    requires ConfigsGrow(cs, cs') && ConfigActedOn(cs, tenantId, object')
    ensures ConfigActedOn(cs', tenantId, object')
  {
    var k :| 0 <= k < |cs| && cs[k].tenantId == tenantId && object' == Named(VersionName(cs[k].key, cs[k].version));
    assert cs'[k].tenantId == tenantId && object' == Named(VersionName(cs'[k].key, cs'[k].version));
  }

  lemma RulesStayKnown(s: State, s': State, tenantId: string, object': ObjectId)
    requires RulesGrow(s, s') && RuleActedOn(s.rules, s.ruleVersions, tenantId, object')
    ensures RuleActedOn(s'.rules, s'.ruleVersions, tenantId, object')
  {
    var k, r :| 0 <= k < |s.ruleVersions| && 0 <= r < |s.rules| && NamesRule(s.rules[r], s.ruleVersions[k], tenantId, object');
    assert s'.rules[r] == s.rules[r];
    assert NamesRule(s'.rules[r], s'.ruleVersions[k], tenantId, object');
  }

  lemma LogStepKeeps(s: State, s': State, home: Id -> string)
    requires LogOk(s, home) && LogStep(s, s', home)
    ensures Separated(s'.actions) && ConfigsKnown(s', home) && RulesKnown(s', home)
    ensures forall i :: 0 <= i < |s'.actions| && s'.actions[i].objectId.Record? ==> s'.actions[i].objectId.id < s'.nextId
  {
    if s'.actions != s.actions {
      UnopposedKeepsSeparated(s.actions, s'.actions[|s.actions|]);
    }
    forall i | 0 <= i < |s'.actions| && s'.actions[i].action == "config:approve:item"
      ensures ConfigActedOn(s'.configs, home(s'.actions[i].principalId), s'.actions[i].objectId)
    {
      if i < |s.actions| {
        assert s'.actions[i] == s.actions[i];
        ConfigsStayKnown(s.configs, s'.configs, home(s.actions[i].principalId), s.actions[i].objectId);
      }
    }
    forall i | 0 <= i < |s'.actions| && s'.actions[i].action == "rules:approve:rule"
      ensures RuleActedOn(s'.rules, s'.ruleVersions, home(s'.actions[i].principalId), s'.actions[i].objectId)
    {
      if i < |s.actions| {
        assert s'.actions[i] == s.actions[i];
        RulesStayKnown(s, s', home(s.actions[i].principalId), s.actions[i].objectId);
      }
    }
  }

  // ---------------------------------------------------------------- the flows, one at a time

  lemma PaymentSteps(s: State, p: Principal, approvalId: Id, d: Decision, ok: bool, home: Id -> string)
    requires LogOk(s, home)
    ensures LogOk(CreatePayment(s, p, ok), home)
    ensures LogOk(DecideApproval(s, p, approvalId, d, ok), home)
  {
    if ok {
      FreshUnopposed(s.actions, Action(p.id, "finance:create:payment", Record(s.nextId)), 0);
    }
    var made, decided := CreatePayment(s, p, ok), DecideApproval(s, p, approvalId, d, ok);
    assert LogStep(s, made, home);
    LogStepKeeps(s, made, home);
    assert LogStep(s, decided, home);
    LogStepKeeps(s, decided, home);
  }

  /** A new configuration version's name is not one its author has approved. */
  lemma NewConfigName(s: State, p: Principal, key: string, home: Id -> string)
    requires LogOk(s, home) && home(p.id) == p.tenantId
    ensures Unopposed(s.actions,
              Action(p.id, "config:write:item", Named(VersionName(key, MaxConfigVersion(s.configs, p.tenantId, key) + 1))))
  {
    var version := MaxConfigVersion(s.configs, p.tenantId, key) + 1;
    var name := Named(VersionName(key, version));
    forall j | 0 <= j < |s.actions| && s.actions[j].principalId == p.id && s.actions[j].action == "config:approve:item"
      ensures s.actions[j].objectId != name
    {
      if s.actions[j].objectId == name {
        assert ConfigActedOn(s.configs, p.tenantId, name);
        var k :| 0 <= k < |s.configs| && s.configs[k].tenantId == p.tenantId
                 && name == Named(VersionName(s.configs[k].key, s.configs[k].version));
        VersionNameInjective(key, version, s.configs[k].key, s.configs[k].version);
        assert false;
      }
    }
    FreshUnopposed(s.actions, Action(p.id, "config:write:item", name), 1);
  }

  lemma DraftStepOk(s: State, p: Principal, key: string, value: string, ok: bool, home: Id -> string)
    requires LogOk(s, home) && home(p.id) == p.tenantId
    ensures LogOk(Draft(s, p, key, value, ok).0, home)
  {
    var s' := Draft(s, p, key, value, ok).0;
    NewConfigName(s, p, key, home);
    assert LogStep(s, s', home);
    LogStepKeeps(s, s', home);
  }

  lemma ApproveConfigStepOk(s: State, p: Principal, id: Id, ok: bool, home: Id -> string)
    requires LogOk(s, home) && home(p.id) == p.tenantId
    ensures LogOk(ApproveConfig(s, p, id, ok).0, home)
  {
    var s' := ApproveConfig(s, p, id, ok).0;
    if MayApproveConfig(s, p, id, ok) {
      var k := FindConfig(s.configs, id);
      assert s'.configs[k].tenantId == p.tenantId;
      assert ConfigActedOn(s'.configs, p.tenantId, Named(VersionName(s.configs[k].key, s.configs[k].version)));
    }
    assert LogStep(s, s', home);
    LogStepKeeps(s, s', home);
  }

  lemma RollbackStepOk(s: State, p: Principal, key: string, toVersion: nat, ok: bool, home: Id -> string)
    requires LogOk(s, home) && home(p.id) == p.tenantId
    ensures LogOk(Rollback(s, p, key, toVersion, ok).0, home)
  {
    var k := RollbackTarget(s.configs, p.tenantId, key, toVersion);
    if k < |s.configs| {
      DraftStepOk(s, p, key, s.configs[k].value, ok, home);
    }
  }

  /** A new rule version's name is not one its author has approved: the tenant's rule with this key is the one found. */
  lemma NewRuleName(s: State, p: Principal, rule: Rule, version: nat, home: Id -> string)
    requires LogOk(s, home) && home(p.id) == p.tenantId && rule.tenantId == p.tenantId
    requires version > MaxRuleVersion(s.ruleVersions, rule.id)
    requires rule in s.rules || FindRuleByKey(s.rules, p.tenantId, rule.key) == |s.rules|
    ensures Unopposed(s.actions, Action(p.id, "rules:write:rule", Named(VersionName(rule.key, version))))
  {
    var name := Named(VersionName(rule.key, version));
    forall j | 0 <= j < |s.actions| && s.actions[j].principalId == p.id && s.actions[j].action == "rules:approve:rule"
      ensures s.actions[j].objectId != name
    {
      if s.actions[j].objectId == name {
        assert RuleActedOn(s.rules, s.ruleVersions, p.tenantId, name);
        var k, r :| 0 <= k < |s.ruleVersions| && 0 <= r < |s.rules| && NamesRule(s.rules[r], s.ruleVersions[k], p.tenantId, name);
        VersionNameInjective(rule.key, version, s.rules[r].key, s.ruleVersions[k].version);
        assert false;
      }
    }
    FreshUnopposed(s.actions, Action(p.id, "rules:write:rule", name), 2);
  }

  lemma CreateRuleStepOk(s: State, p: Principal, key: string, ok: bool, home: Id -> string)
    requires LogOk(s, home) && home(p.id) == p.tenantId
    ensures LogOk(CreateRule(s, p, key, ok), home)
  {
    CreateRuleLogs(s, p, key, ok, home);
    LogStepKeeps(s, CreateRule(s, p, key, ok), home);
    CreateRuleUnique(s, p, key, ok);
  }

  lemma CreateRuleLogs(s: State, p: Principal, key: string, ok: bool, home: Id -> string)
    requires LogOk(s, home) && home(p.id) == p.tenantId
    ensures LogStep(s, CreateRule(s, p, key, ok), home)
  {
    if ok {
      var rule := RuleFor(s, p, key);
      NewRuleName(s, p, rule, MaxRuleVersion(s.ruleVersions, rule.id) + 1, home);
      UnopposedRuleLogs(s, p, key, home);
    }
  }

  /** The rule a new version belongs to. */
  function RuleFor(s: State, p: Principal, key: string): Rule {
    var k := FindRuleByKey(s.rules, p.tenantId, key);
    if k < |s.rules| then s.rules[k] else Rule(s.nextId, p.tenantId, key)
  }

  lemma UnopposedRuleLogs(s: State, p: Principal, key: string, home: Id -> string)
    requires var rule := RuleFor(s, p, key);
      Unopposed(s.actions, Action(p.id, "rules:write:rule", Named(VersionName(rule.key, MaxRuleVersion(s.ruleVersions, rule.id) + 1))))
    ensures LogStep(s, CreateRule(s, p, key, true), home)
  {
  }

  lemma CreateRuleUnique(s: State, p: Principal, key: string, ok: bool)
    requires RulesUnique(s)
    ensures RulesUnique(CreateRule(s, p, key, ok))
  {
  }

  lemma ApproveRuleStepOk(s: State, p: Principal, id: Id, ok: bool, home: Id -> string)
    requires LogOk(s, home) && home(p.id) == p.tenantId
    ensures LogOk(ApproveRule(s, p, id, ok), home)
  {
    var s' := ApproveRule(s, p, id, ok);
    if MayApproveRule(s, p, id, ok) {
      var k := FindRuleVersion(s.ruleVersions, id);
      var r := FindRule(s.rules, s.ruleVersions[k].ruleId, p.tenantId);
      assert NamesRule(s'.rules[r], s'.ruleVersions[k], p.tenantId, Named(VersionName(s.rules[r].key, s.ruleVersions[k].version)));
    }
    assert LogStep(s, s', home);
    LogStepKeeps(s, s', home);
  }

  lemma StartStepOk(s: State, p: Principal, key: string, now: int, ok: bool, home: Id -> string)
    requires LogOk(s, home)
    ensures LogOk(Start(s, p, key, now, ok), home)
  {
    var s' := Start(s, p, key, now, ok);
    FreshUnopposed(s.actions, Action(p.id, "workflow:execute:instance", Record(s.nextId)), 3);
    assert LogStep(s, s', home);
    LogStepKeeps(s, s', home);
  }

  lemma SettleOk(s: State, p: Principal, t: nat, i: nat, v: nat, d: Decision, key: string, home: Id -> string)
    requires LogOk(s, home) && Located(s, t, i, v)
    requires Separate(s, p, "workflow:approve:task", Record(s.instances[i].id))
    ensures LogOk(Settle(s, p, t, i, v, d, key), home)
  {
    var s' := Settle(s, p, t, i, v, d, key);
    assert LogsOne(s, s', home);
    LogStepKeeps(s, s', home);
  }

  lemma CompleteStepOk(
    s: State, p: Principal, id: Id, d: Decision, key: string, now: int, live: bool, ok: bool, home: Id -> string)
    requires LogOk(s, home)
    ensures LogOk(Complete(s, p, id, d, key, now, live, ok).0, home)
  {
    if CheckComplete(s, p, id, key, now, live, ok).Decided? {
      var t := FindTask(s.tasks, id);
      var i := FindInstance(s.instances, s.tasks[t].instanceId);
      SettleOk(s, p, t, i, FindVersion(s.versions, s.instances[i].versionId), d, key, home);
    }
  }

  /** Nothing is logged, and configuration versions, rules' names, payments and instances' identifiers stay. */
  predicate Silent(s: State, s': State) {
    && s'.actions == s.actions && s'.configs == s.configs && s'.payments == s.payments && s'.rules == s.rules
    && RulesGrow(s, s') && s.nextId <= s'.nextId
    && |s'.instances| == |s.instances| && forall i :: 0 <= i < |s.instances| ==> s'.instances[i].id == s.instances[i].id
  }

  lemma IsSilent(s: State, step: Step)
    requires step.RetireRuleStep? || step.CreateDefinitionStep? || step.AddVersionStep? || step.PublishStep?
          || step.CancelStep? || step.EscalateStep?
    ensures Silent(s, Apply(s, step))
  {
  }

  lemma SilentStepOk(s: State, s': State, home: Id -> string)
    requires LogOk(s, home) && Silent(s, s')
    ensures LogOk(s', home)
  {
    LogStepKeeps(s, s', home);
  }

  predicate AtHome(step: Step, home: Id -> string) {
    step.EscalateStep? || home(step.p.id) == step.p.tenantId
  }

  lemma StepKeepsLogOk(s: State, step: Step, home: Id -> string)
    requires LogOk(s, home) && AtHome(step, home)
    ensures LogOk(Apply(s, step), home)
  {
    if step.CreatePaymentStep? || step.DecideApprovalStep? {
      PaymentStepOk(s, step, home);
    } else if step.DraftStep? || step.ApproveConfigStep? || step.RollbackStep? {
      ConfigStepOk(s, step, home);
    } else if step.CreateRuleStep? || step.ApproveRuleStep? {
      RuleStepOk(s, step, home);
    } else if step.StartStep? || step.CompleteStep? {
      WorkflowStepOk(s, step, home);
    } else {
      IsSilent(s, step);
      SilentStepOk(s, Apply(s, step), home);
    }
  }

  lemma PaymentStepOk(s: State, step: Step, home: Id -> string)
    requires LogOk(s, home) && AtHome(step, home) && (step.CreatePaymentStep? || step.DecideApprovalStep?)
    ensures LogOk(Apply(s, step), home)
  {
    match step
    case CreatePaymentStep(p, ok) => PaymentSteps(s, p, 0, Approve, ok, home);
    case DecideApprovalStep(p, id, d, ok) => PaymentSteps(s, p, id, d, ok, home);
  }

  lemma ConfigStepOk(s: State, step: Step, home: Id -> string)
    requires LogOk(s, home) && AtHome(step, home) && (step.DraftStep? || step.ApproveConfigStep? || step.RollbackStep?)
    ensures LogOk(Apply(s, step), home)
  {
    match step
    case DraftStep(p, key, value, ok) => DraftStepOk(s, p, key, value, ok, home);
    case ApproveConfigStep(p, id, ok) => ApproveConfigStepOk(s, p, id, ok, home);
    case RollbackStep(p, key, v, ok) => RollbackStepOk(s, p, key, v, ok, home);
  }

  lemma RuleStepOk(s: State, step: Step, home: Id -> string)
    requires LogOk(s, home) && AtHome(step, home) && (step.CreateRuleStep? || step.ApproveRuleStep?)
    ensures LogOk(Apply(s, step), home)
  {
    match step
    case CreateRuleStep(p, key, ok) => CreateRuleStepOk(s, p, key, ok, home);
    case ApproveRuleStep(p, id, ok) => ApproveRuleStepOk(s, p, id, ok, home);
  }

  lemma WorkflowStepOk(s: State, step: Step, home: Id -> string)
    requires LogOk(s, home) && AtHome(step, home) && (step.StartStep? || step.CompleteStep?)
    ensures LogOk(Apply(s, step), home)
  {
    match step
    case StartStep(p, key, now, ok) => StartStepOk(s, p, key, now, ok, home);
    case CompleteStep(p, id, d, key, now, live, ok) => CompleteStepOk(s, p, id, d, key, now, live, ok, home);
  }

  /**
   * Over every run from the seeded store in which a principal's tenant never changes, no principal is on both sides of a
   * seeded rule for the same object.
   */
  lemma {:induction false} EveryRunSeparated(tenantId: string, author: Id, nextId: Id, steps: seq<Step>, home: Id -> string)
    requires nextId > 0
    requires forall i :: 0 <= i < |steps| ==> AtHome(steps[i], home)
    ensures LogOk(Run(Seeded(tenantId, author, nextId), steps), home)
    ensures Separated(Run(Seeded(tenantId, author, nextId), steps).actions)
  {
    if steps != [] {
      var before := steps[..|steps| - 1];
      EveryRunSeparated(tenantId, author, nextId, before, home);
      StepKeepsLogOk(Run(Seeded(tenantId, author, nextId), before), steps[|steps| - 1], home);
    }
  }

  // ---------------------------------------------------------------- why tenants must not change

  const AUTHOR := Principal(1, "b", Human)
  const APPROVER := Principal(2, "b", Human)
  const MOVED := Principal(2, "a", Human)

  lemma {:induction false} NoVersionYet(cs: seq<Config>, tenantId: string, key: string)
    requires forall i :: 0 <= i < |cs| ==> cs[i].tenantId != tenantId || cs[i].key != key
    ensures MaxConfigVersion(cs, tenantId, key) == 0
  {
    if cs != [] {
      NoVersionYet(cs[..|cs| - 1], tenantId, key);
    }
  }

  /** A first version of a key, drafted, and approved by somebody who has not acted yet. */
  lemma DraftedAndApproved(s: State, key: string)
    requires s.actions == []
    requires forall i :: 0 <= i < |s.configs| ==> s.configs[i].id < s.nextId && s.configs[i].tenantId != "b"
    ensures var drafted := Draft(s, AUTHOR, key, "", true).0;
      var approved := ApproveConfig(drafted, APPROVER, s.nextId, true).0;
      && approved.actions == [Action(AUTHOR.id, "config:write:item", Named(VersionName(key, 1))),
                              Action(APPROVER.id, "config:approve:item", Named(VersionName(key, 1)))]
      && |approved.configs| == |s.configs| + 1
      && approved.configs[|s.configs|].tenantId == "b"
      && (forall i :: 0 <= i < |s.configs| ==>
            approved.configs[i].tenantId == s.configs[i].tenantId && approved.configs[i].key == s.configs[i].key)
  {
    NoVersionYet(s.configs, "b", key);
    var drafted := Draft(s, AUTHOR, key, "", true).0;
    var n := |s.configs|;
    assert drafted.configs[n].id == s.nextId;
    assert FindConfig(drafted.configs, s.nextId) == n;
    var next := Action(APPROVER.id, "config:approve:item", Named(VersionName(key, 1)));
    assert drafted.actions == [Action(AUTHOR.id, "config:write:item", Named(VersionName(key, 1)))];
    forall r | 0 <= r < |SOD_RULES|
      ensures !AnyConflict(SOD_RULES[r], drafted.actions, next)
    {
      assert !Conflicts(SOD_RULES[r], drafted.actions[0], next);
    }
    assert MayApproveConfig(drafted, APPROVER, s.nextId, true);
  }

  /**
   * Version names carry no tenant: a principal who approves a version in one tenant and then drafts the same key in
   * another is on both sides of the configuration rule for one name.
   */
  lemma MovingTenantsBreaksSeparation()
    ensures var steps := [DraftStep(AUTHOR, "k", "", true), ApproveConfigStep(APPROVER, 1, true), DraftStep(MOVED, "k", "", true)];
      !Separated(Run(Seeded("a", 9, 1), steps).actions)
  {
    var start := Seeded("a", 9, 1);
    DraftedAndApproved(start, "k");
    var approved := ApproveConfig(Draft(start, AUTHOR, "k", "", true).0, APPROVER, 1, true).0;
    DraftApproveDraft(start, "k", 1);
    NoVersionYet(approved.configs, "a", "k");
    DraftedAgain(approved, "k");
  }

  lemma DraftApproveDraft(start: State, key: string, id: Id)
    ensures Run(start, [DraftStep(AUTHOR, key, "", true), ApproveConfigStep(APPROVER, id, true), DraftStep(MOVED, key, "", true)])
         == Draft(ApproveConfig(Draft(start, AUTHOR, key, "", true).0, APPROVER, id, true).0, MOVED, key, "", true).0
  {
    ThreeSteps(start, DraftStep(AUTHOR, key, "", true), ApproveConfigStep(APPROVER, id, true), DraftStep(MOVED, key, "", true));
  }

  lemma DraftedAgain(s: State, key: string)
    requires |s.actions| == 2 && s.actions[1] == Action(MOVED.id, "config:approve:item", Named(VersionName(key, 1)))
    requires MaxConfigVersion(s.configs, "a", key) == 0
    ensures !Separated(Draft(s, MOVED, key, "", true).0.actions)
  {
    var log := Draft(s, MOVED, key, "", true).0.actions;
    assert OnBothSides(SOD_RULES[1], log[2], log[1]);
  }

  lemma ThreeSteps(start: State, a: Step, b: Step, c: Step)
    ensures Run(start, [a, b, c]) == Apply(Apply(Apply(start, a), b), c)
  {
    var none: seq<Step> := [];
    RunSnoc(start, none, a);
    RunSnoc(start, none + [a], b);
    RunSnoc(start, none + [a] + [b], c);
    assert none + [a] + [b] + [c] == [a, b, c];
  }
}
