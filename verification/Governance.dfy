/**
 * The approval flows that share one action log: payments (apps/api/src/app.ts), configuration (apps/api/src/admin.ts),
 * business rules and workflows (apps/api/src/workflow.ts), with the kernel's `sodViolation`, `canDecide` and `nextNodeKey`.
 */
module Governance {
  import opened Options
  import opened Decimal

  /** `newId()`: an identifier never handed out before. */
  type Id = nat

  datatype ActorType = Human | Service | AiAgent

  datatype Principal = Principal(id: Id, tenantId: string, actorType: ActorType)

  /** What an action was done to: a record with its own identifier, or a `key:vN` name. */
  datatype ObjectId = Record(id: Id) | Named(name: string)

  datatype Action = Action(principalId: Id, action: string, objectId: ObjectId)

  datatype SodRule = SodRule(key: string, actionA: string, actionB: string, sameObject: bool)

  /** Separation-of-duties rules as the store is seeded with them. */
  const SOD_RULES := [
    SodRule("payment-create-approve", "finance:create:payment", "finance:approve:payment", true),
    SodRule("config-write-approve", "config:write:item", "config:approve:item", true),
    SodRule("rules-write-approve", "rules:write:rule", "rules:approve:rule", true),
    SodRule("workflow-start-approve", "workflow:execute:instance", "workflow:approve:task", true),
    SodRule("leave-write-approve", "hr:write:leave", "hr:approve:leave", true)
  ]

  // ---------------------------------------------------------------- separation of duties and approvals

  predicate Conflicts(rule: SodRule, prior: Action, next: Action) {
    && (next.action == rule.actionA || next.action == rule.actionB)
    && prior.principalId == next.principalId
    && prior.action == (if next.action == rule.actionA then rule.actionB else rule.actionA)
    && (rule.sameObject ==> prior.objectId == next.objectId)
  }

  predicate AnyConflict(rule: SodRule, prior: seq<Action>, next: Action) {
    exists i :: 0 <= i < |prior| && Conflicts(rule, prior[i], next)
  }

  /** `sodViolation`: the first rule some earlier action and the next one break together. */
  function SodViolation(rules: seq<SodRule>, prior: seq<Action>, next: Action): (r: Option<SodRule>)
    ensures r.None? <==> forall i :: 0 <= i < |rules| ==> !AnyConflict(rules[i], prior, next)
    ensures r.Some? ==> r.value in rules && AnyConflict(r.value, prior, next)
  {
    if rules == [] then None
    else if AnyConflict(rules[0], prior, next) then Some(rules[0])
    else
      var r := SodViolation(rules[1..], prior, next);
      assert forall i :: 0 < i < |rules| ==> rules[i] == rules[1..][i - 1];
      r
  }

  datatype Gate = Allow | NotPendingGate | AiCannotApprove | SelfApproval

  /** `canDecide`. */
  function CanDecide(pending: bool, requestedBy: Id, actor: Principal): Gate {
    if !pending then NotPendingGate
    else if actor.actorType.AiAgent? then AiCannotApprove
    else if actor.id == requestedBy then SelfApproval
    else Allow
  }

  // ---------------------------------------------------------------- records

  datatype TaskType = HumanApproval | System | Review

  datatype Node = Node(
    key: string, nodeType: TaskType, slaMinutes: Option<nat>, nextOnApprove: Option<string>, nextOnReject: Option<string>)

  datatype Graph = Graph(start: string, nodes: seq<Node>)

  datatype Definition = Definition(id: Id, tenantId: string, key: string)

  datatype VersionStatus = DraftVersion | PublishedVersion | RetiredVersion

  datatype Version = Version(id: Id, definitionId: Id, version: nat, status: VersionStatus, graph: Graph)

  datatype InstanceStatus = Running | Completed | Cancelled

  datatype Instance = Instance(
    id: Id, tenantId: string, definitionId: Id, versionId: Id, status: InstanceStatus, startedBy: Id, currentNode: Option<string>)

  datatype Decision = Approve | Reject

  datatype TaskStatus = PendingTask | CompletedTask | RejectedTask | CancelledTask | EscalatedTask

  datatype Task = Task(
    id: Id,
    tenantId: string,
    instanceId: Id,
    nodeKey: string,
    taskType: TaskType,
    status: TaskStatus,
    dueAt: Option<int>,
    authorityExpiresAt: Option<int>,
    decision: Option<Decision>,
    idempotencyKey: Option<string>
  )

  datatype ConfigStatus = DraftConfig | ApprovedConfig | RetiredConfig

  datatype Config = Config(id: Id, tenantId: string, key: string, version: nat, value: string, status: ConfigStatus, createdBy: Id)

  datatype Rule = Rule(id: Id, tenantId: string, key: string)

  datatype RuleStatus = DraftRule | EffectiveRule | RetiredRule

  datatype RuleVersion = RuleVersion(id: Id, ruleId: Id, version: nat, status: RuleStatus, createdBy: Id)

  datatype PaymentStatus = PendingPayment | ApprovedPayment | RejectedPayment

  datatype Payment = Payment(id: Id, tenantId: string, status: PaymentStatus, createdBy: Id)

  datatype Approval = Approval(id: Id, tenantId: string, paymentId: Id, status: PaymentStatus, requestedBy: Id)

  datatype State = State(
    definitions: seq<Definition>,
    versions: seq<Version>,
    instances: seq<Instance>,
    tasks: seq<Task>,
    configs: seq<Config>,
    rules: seq<Rule>,
    ruleVersions: seq<RuleVersion>,
    payments: map<Id, Payment>,
    approvals: map<Id, Approval>,
    actions: seq<Action>,
    nextId: Id
  )

  /** `xs.find(p)`, as a position; the length of the list when nothing is found. */
  function Find<T>(xs: seq<T>, p: T -> bool): (k: nat)
    ensures k <= |xs|
    ensures k < |xs| ==> p(xs[k])
    ensures forall j :: 0 <= j < k ==> !p(xs[j])
  {
    if xs == [] || p(xs[0]) then 0
    else
      var k := Find(xs[1..], p);
      assert forall j :: 0 < j < k + 1 ==> xs[j] == xs[1..][j - 1];
      k + 1
  }

  function Log(s: State, p: Principal, action: string, objectId: ObjectId): State {
    s.(actions := s.actions + [Action(p.id, action, objectId)])
  }

  predicate Separate(s: State, p: Principal, action: string, objectId: ObjectId) {
    SodViolation(SOD_RULES, s.actions, Action(p.id, action, objectId)).None?
  }

  // ---------------------------------------------------------------- payments

  /** `createPayment`: the payment and its approval task. */
  function CreatePayment(s: State, p: Principal, permitted: bool): State {
    if !permitted then s
    else
      var id, approvalId := s.nextId, s.nextId + 1;
      Log(s.(
        payments := s.payments[id := Payment(id, p.tenantId, PendingPayment, p.id)],
        approvals := s.approvals[approvalId := Approval(approvalId, p.tenantId, id, PendingPayment, p.id)],
        nextId := s.nextId + 2
      ), p, "finance:create:payment", Record(id))
  }

  predicate MayDecidePayment(s: State, p: Principal, approvalId: Id, permitted: bool) {
    && approvalId in s.approvals
    && s.approvals[approvalId].tenantId == p.tenantId
    && s.approvals[approvalId].paymentId in s.payments
    && permitted
    && CanDecide(s.approvals[approvalId].status.PendingPayment?, s.approvals[approvalId].requestedBy, p).Allow?
    && Separate(s, p, "finance:approve:payment", Record(s.payments[s.approvals[approvalId].paymentId].id))
  }

  /** `decideApproval`. A rejection is logged under the same action as an approval. */
  function DecideApproval(s: State, p: Principal, approvalId: Id, decision: Decision, permitted: bool): State {
    if !MayDecidePayment(s, p, approvalId, permitted) then s
    else
      var task := s.approvals[approvalId];
      var payment := s.payments[task.paymentId];
      var outcome := if decision.Approve? then ApprovedPayment else RejectedPayment;
      Log(s.(
        approvals := s.approvals[approvalId := task.(status := outcome)],
        payments := s.payments[task.paymentId := payment.(status := outcome)]
      ), p, "finance:approve:payment", Record(payment.id))
  }

  // ---------------------------------------------------------------- configuration

  /** `${key}:v${version}`. */
  function VersionName(key: string, version: nat): string {
    key + ":v" + Dec(version)
  }

  function MaxConfigVersion(cs: seq<Config>, tenantId: string, key: string): (m: nat)
    ensures forall i :: 0 <= i < |cs| && cs[i].tenantId == tenantId && cs[i].key == key ==> cs[i].version <= m
  {
    if cs == [] then 0
    else
      var last := cs[|cs| - 1];
      var m := MaxConfigVersion(cs[..|cs| - 1], tenantId, key);
      if last.tenantId == tenantId && last.key == key && last.version > m then last.version else m
  }

  /** `draftConfig`; the result names the draft. */
  function Draft(s: State, p: Principal, key: string, value: string, permitted: bool): (State, Option<Id>) {
    if !permitted then (s, None)
    else
      var version := MaxConfigVersion(s.configs, p.tenantId, key) + 1;
      var draft := Config(s.nextId, p.tenantId, key, version, value, DraftConfig, p.id);
      (Log(s.(configs := s.configs + [draft], nextId := s.nextId + 1), p, "config:write:item", Named(VersionName(key, version))),
       Some(draft.id))
  }

  function FindConfig(cs: seq<Config>, id: Id): nat {
    Find(cs, (c: Config) => c.id == id)
  }

  predicate MayApproveConfig(s: State, p: Principal, id: Id, permitted: bool) {
    var k := FindConfig(s.configs, id);
    && k < |s.configs|
    && s.configs[k].tenantId == p.tenantId
    && permitted
    && CanDecide(s.configs[k].status.DraftConfig?, s.configs[k].createdBy, p).Allow?
    && Separate(s, p, "config:approve:item", Named(VersionName(s.configs[k].key, s.configs[k].version)))
  }

  /** The retire-others loop: every other approved version of the draft's key in its tenant. */
  function RetireOthers(cs: seq<Config>, draft: Config): (r: seq<Config>)
    ensures |r| == |cs|
    ensures forall i :: 0 <= i < |cs| ==> r[i] == RetireOne(cs[i], draft)
  {
    if cs == [] then [] else RetireOthers(cs[..|cs| - 1], draft) + [RetireOne(cs[|cs| - 1], draft)]
  }

  function RetireOne(c: Config, draft: Config): Config {
    if c.tenantId == draft.tenantId && c.key == draft.key && c.status.ApprovedConfig? && c.id != draft.id
    then c.(status := RetiredConfig) else c
  }

  /** `approveConfig`; the result tells whether the draft became the approved version. */
  function ApproveConfig(s: State, p: Principal, id: Id, permitted: bool): (State, bool) {
    if !MayApproveConfig(s, p, id, permitted) then (s, false)
    else
      var k := FindConfig(s.configs, id);
      var draft := s.configs[k];
      var configs := RetireOthers(s.configs, draft);
      (Log(s.(configs := configs[k := configs[k].(status := ApprovedConfig)]), p, "config:approve:item",
           Named(VersionName(draft.key, draft.version))), true)
  }

  /** The version a rollback goes back to: one that was approved at some time. */
  function RollbackTarget(cs: seq<Config>, tenantId: string, key: string, toVersion: nat): nat {
    Find(cs, (c: Config) =>
      c.tenantId == tenantId && c.key == key && c.version == toVersion && (c.status.ApprovedConfig? || c.status.RetiredConfig?))
  }

  /** `rollbackConfig`: a new draft with an old value. */
  function Rollback(s: State, p: Principal, key: string, toVersion: nat, permitted: bool): (State, Option<Id>) {
    var k := RollbackTarget(s.configs, p.tenantId, key, toVersion);
    if k == |s.configs| then (s, None) else Draft(s, p, key, s.configs[k].value, permitted)
  }

  /** The position of the approved version with the highest number, as `getConfig` picks it. */
  function BestApproved(cs: seq<Config>, tenantId: string, key: string): (r: Option<nat>)
    ensures r.Some? ==> r.value < |cs| && cs[r.value].tenantId == tenantId && cs[r.value].key == key && cs[r.value].status.ApprovedConfig?
    ensures r.None? ==> forall i :: 0 <= i < |cs| ==> !(cs[i].tenantId == tenantId && cs[i].key == key && cs[i].status.ApprovedConfig?)
  {
    if cs == [] then None
    else
      var last := cs[|cs| - 1];
      var r := BestApproved(cs[..|cs| - 1], tenantId, key);
      if last.tenantId == tenantId && last.key == key && last.status.ApprovedConfig? && (r.None? || last.version > cs[r.value].version)
      then Some(|cs| - 1) else r
  }

  /** `getConfig`. */
  function GetConfig(s: State, tenantId: string, key: string): Option<string> {
    match BestApproved(s.configs, tenantId, key)
    case None => None
    case Some(i) => Some(s.configs[i].value)
  }

  // ---------------------------------------------------------------- business rules

  function MaxRuleVersion(vs: seq<RuleVersion>, ruleId: Id): (m: nat)
    ensures forall i :: 0 <= i < |vs| && vs[i].ruleId == ruleId ==> vs[i].version <= m
  {
    if vs == [] then 0
    else
      var last := vs[|vs| - 1];
      var m := MaxRuleVersion(vs[..|vs| - 1], ruleId);
      if last.ruleId == ruleId && last.version > m then last.version else m
  }

  function FindRuleByKey(rs: seq<Rule>, tenantId: string, key: string): nat {
    Find(rs, (r: Rule) => r.tenantId == tenantId && r.key == key)
  }

  function FindRule(rs: seq<Rule>, id: Id, tenantId: string): nat {
    Find(rs, (r: Rule) => r.id == id && r.tenantId == tenantId)
  }

  function FindRuleVersion(vs: seq<RuleVersion>, id: Id): nat {
    Find(vs, (v: RuleVersion) => v.id == id)
  }

  /** `createRule`: a further version of the tenant's rule with this key, or the first of a new one. */
  function CreateRule(s: State, p: Principal, key: string, permitted: bool): State {
    if !permitted then s
    else
      var k := FindRuleByKey(s.rules, p.tenantId, key);
      var rule := if k < |s.rules| then s.rules[k] else Rule(s.nextId, p.tenantId, key);
      var rules := if k < |s.rules| then s.rules else s.rules + [rule];
      var version := RuleVersion(s.nextId + 1, rule.id, MaxRuleVersion(s.ruleVersions, rule.id) + 1, DraftRule, p.id);
      Log(s.(rules := rules, ruleVersions := s.ruleVersions + [version], nextId := s.nextId + 2),
          p, "rules:write:rule", Named(VersionName(rule.key, version.version)))
  }

  predicate MayApproveRule(s: State, p: Principal, id: Id, permitted: bool) {
    var k := FindRuleVersion(s.ruleVersions, id);
    && k < |s.ruleVersions|
    && var r := FindRule(s.rules, s.ruleVersions[k].ruleId, p.tenantId);
    && r < |s.rules|
    && permitted
    && CanDecide(s.ruleVersions[k].status.DraftRule?, s.ruleVersions[k].createdBy, p).Allow?
    && Separate(s, p, "rules:approve:rule", Named(VersionName(s.rules[r].key, s.ruleVersions[k].version)))
  }

  /** `approveRule`. */
  function ApproveRule(s: State, p: Principal, id: Id, permitted: bool): State {
    if !MayApproveRule(s, p, id, permitted) then s
    else
      var k := FindRuleVersion(s.ruleVersions, id);
      var v := s.ruleVersions[k];
      var r := FindRule(s.rules, v.ruleId, p.tenantId);
      Log(s.(ruleVersions := s.ruleVersions[k := v.(status := EffectiveRule)]),
          p, "rules:approve:rule", Named(VersionName(s.rules[r].key, v.version)))
  }

  /** `retireRuleVersion`. */
  function RetireRule(s: State, p: Principal, id: Id, permitted: bool): State {
    var k := FindRuleVersion(s.ruleVersions, id);
    if k == |s.ruleVersions| || FindRule(s.rules, s.ruleVersions[k].ruleId, p.tenantId) == |s.rules| || !permitted then s
    else s.(ruleVersions := s.ruleVersions[k := s.ruleVersions[k].(status := RetiredRule)])
  }

  // ---------------------------------------------------------------- workflow definitions

  function FindDefinitionByKey(ds: seq<Definition>, tenantId: string, key: string): nat {
    Find(ds, (d: Definition) => d.tenantId == tenantId && d.key == key)
  }

  function FindDefinition(ds: seq<Definition>, id: Id, tenantId: string): nat {
    Find(ds, (d: Definition) => d.id == id && d.tenantId == tenantId)
  }

  function FindVersion(vs: seq<Version>, id: Id): nat {
    Find(vs, (v: Version) => v.id == id)
  }

  /** `createWorkflowDefinition`. */
  function CreateDefinition(s: State, p: Principal, key: string, permitted: bool): State {
    if !permitted || FindDefinitionByKey(s.definitions, p.tenantId, key) < |s.definitions| then s
    else s.(definitions := s.definitions + [Definition(s.nextId, p.tenantId, key)], nextId := s.nextId + 1)
  }

  function MaxVersion(vs: seq<Version>, definitionId: Id): nat {
    if vs == [] then 0
    else
      var last := vs[|vs| - 1];
      var m := MaxVersion(vs[..|vs| - 1], definitionId);
      if last.definitionId == definitionId && last.version > m then last.version else m
  }

  /** `addWorkflowVersion`. */
  function AddVersion(s: State, p: Principal, definitionId: Id, graph: Graph, permitted: bool): State {
    if !permitted || FindDefinition(s.definitions, definitionId, p.tenantId) == |s.definitions| then s
    else
      var v := Version(s.nextId, definitionId, MaxVersion(s.versions, definitionId) + 1, DraftVersion, graph);
      s.(versions := s.versions + [v], nextId := s.nextId + 1)
  }

  function RetireVersion(v: Version, definitionId: Id): Version {
    if v.definitionId == definitionId && v.status.PublishedVersion? then v.(status := RetiredVersion) else v
  }

  function RetirePublished(vs: seq<Version>, definitionId: Id): (r: seq<Version>)
    ensures |r| == |vs|
    ensures forall i :: 0 <= i < |vs| ==> r[i] == RetireVersion(vs[i], definitionId)
  {
    if vs == [] then [] else RetirePublished(vs[..|vs| - 1], definitionId) + [RetireVersion(vs[|vs| - 1], definitionId)]
  }

  /** `publishWorkflowVersion`: the definition's published version is retired first. */
  function PublishVersion(s: State, p: Principal, versionId: Id, permitted: bool): State {
    var k := FindVersion(s.versions, versionId);
    if !permitted || k == |s.versions| || FindDefinition(s.definitions, s.versions[k].definitionId, p.tenantId) == |s.definitions|
    then s
    else
      var vs := RetirePublished(s.versions, s.versions[k].definitionId);
      s.(versions := vs[k := vs[k].(status := PublishedVersion)])
  }

  /** The published version with the highest number, which a new instance is bound to. */
  function BestPublished(vs: seq<Version>, definitionId: Id): (r: Option<nat>)
    ensures r.Some? ==> r.value < |vs| && vs[r.value].definitionId == definitionId && vs[r.value].status.PublishedVersion?
  {
    if vs == [] then None
    else
      var last := vs[|vs| - 1];
      var r := BestPublished(vs[..|vs| - 1], definitionId);
      if last.definitionId == definitionId && last.status.PublishedVersion? && (r.None? || last.version > vs[r.value].version)
      then Some(|vs| - 1) else r
  }

  // ---------------------------------------------------------------- workflow instances

  function FindNode(g: Graph, key: string): nat {
    Find(g.nodes, (n: Node) => n.key == key)
  }

  /** `nextNodeKey`; an empty key ends the workflow like a missing one. */
  function NextNode(g: Graph, current: string, decision: Decision): Option<string> {
    var k := FindNode(g, current);
    if k == |g.nodes| then None
    else
      var next := if decision.Approve? then g.nodes[k].nextOnApprove else g.nodes[k].nextOnReject;
      if next == Some("") then None else next
  }

  function TypeAt(g: Graph, key: string): TaskType {
    var k := FindNode(g, key);
    if k < |g.nodes| then g.nodes[k].nodeType else HumanApproval
  }

  const MINUTE := 60000
  const DAY := 24 * 60 * 60000

  /** When the start task falls due; a service level of zero minutes sets no date. */
  function DueAt(g: Graph, now: int): Option<int> {
    var k := FindNode(g, g.start);
    if k < |g.nodes| && g.nodes[k].slaMinutes.Some? && g.nodes[k].slaMinutes.value > 0
    then Some(now + g.nodes[k].slaMinutes.value * MINUTE) else None
  }

  function StartTask(s: State, tenantId: string, instanceId: Id, g: Graph, now: int): Task {
    Task(s.nextId + 1, tenantId, instanceId, g.start, TypeAt(g, g.start), PendingTask, DueAt(g, now), Some(now + DAY), None, None)
  }

  /** `startWorkflowInstance`. */
  function Start(s: State, p: Principal, definitionKey: string, now: int, permitted: bool): State {
    var d := FindDefinitionByKey(s.definitions, p.tenantId, definitionKey);
    if !permitted || d == |s.definitions| then s
    else
      match BestPublished(s.versions, s.definitions[d].id)
      case None => s
      case Some(v) =>
        var version := s.versions[v];
        var instance := Instance(s.nextId, p.tenantId, s.definitions[d].id, version.id, Running, p.id, Some(version.graph.start));
        Log(s.(
          instances := s.instances + [instance],
          tasks := s.tasks + [StartTask(s, p.tenantId, instance.id, version.graph, now)],
          nextId := s.nextId + 2
        ), p, "workflow:execute:instance", Record(instance.id))
  }

  function FindTask(ts: seq<Task>, id: Id): nat {
    Find(ts, (t: Task) => t.id == id)
  }

  function FindIdempotencyKey(ts: seq<Task>, tenantId: string, key: string): nat {
    Find(ts, (t: Task) => t.tenantId == tenantId && t.idempotencyKey == Some(key))
  }

  function FindInstance(xs: seq<Instance>, id: Id): nat {
    Find(xs, (i: Instance) => i.id == id)
  }

  datatype CompleteOutcome =
    | SimulationBlocked
    | NotFound
    | IdempotentReplay
    | KeyReuse
    | AiRefused
    | AuthorityExpired
    | NotPermitted
    | InstanceCancelled
    | InstanceNotRunning
    | VersionNotEffective
    | GateRefused(gate: Gate)
    | SodRefused
    | Decided

  /** The task, its instance and that instance's version are where the identifiers say. */
  predicate Located(s: State, t: nat, i: nat, v: nat) {
    && t < |s.tasks|
    && i == FindInstance(s.instances, s.tasks[t].instanceId) < |s.instances|
    && v == FindVersion(s.versions, s.instances[i].versionId) < |s.versions|
  }

  /** The checks of `completeWorkflowTask`, in order. */
  function CheckComplete(
    s: State, p: Principal, taskId: Id, key: string, now: int, live: bool, permitted: bool): (r: CompleteOutcome)
    ensures r.Decided? ==>
      var t := FindTask(s.tasks, taskId);
      && t < |s.tasks|
      && s.tasks[t].tenantId == p.tenantId
      && s.tasks[t].status.PendingTask?
      && (var e := FindIdempotencyKey(s.tasks, p.tenantId, key); e == |s.tasks| || s.tasks[e].id == taskId)
      && var i := FindInstance(s.instances, s.tasks[t].instanceId);
      && i < |s.instances|
      && s.instances[i].status.Running?
      && s.instances[i].startedBy != p.id
      && Separate(s, p, "workflow:approve:task", Record(s.instances[i].id))
      && !p.actorType.AiAgent?
      && (s.tasks[t].authorityExpiresAt.Some? ==> now <= s.tasks[t].authorityExpiresAt.value)
      && var v := FindVersion(s.versions, s.instances[i].versionId);
      && Located(s, t, i, v)
      && s.versions[v].status.PublishedVersion?
  {
    var t := FindTask(s.tasks, taskId);
    if !live then SimulationBlocked
    else if t == |s.tasks| || s.tasks[t].tenantId != p.tenantId then NotFound
    else
      var task := s.tasks[t];
      var e := FindIdempotencyKey(s.tasks, p.tenantId, key);
      if e < |s.tasks| && s.tasks[e].id == taskId && !s.tasks[e].status.PendingTask? then IdempotentReplay
      else if e < |s.tasks| && s.tasks[e].id != taskId then KeyReuse
      else if task.taskType.HumanApproval? && p.actorType.AiAgent? then AiRefused
      else if task.authorityExpiresAt.Some? && task.authorityExpiresAt.value < now then AuthorityExpired
      else if !permitted then NotPermitted
      else
        var i := FindInstance(s.instances, task.instanceId);
        if i == |s.instances| then NotFound
        else if s.instances[i].status.Cancelled? then InstanceCancelled
        else if !s.instances[i].status.Running? then InstanceNotRunning
        else
          var v := FindVersion(s.versions, s.instances[i].versionId);
          if v == |s.versions| || !s.versions[v].status.PublishedVersion? then VersionNotEffective
          else
            var gate := CanDecide(task.status.PendingTask?, s.instances[i].startedBy, p);
            if !gate.Allow? then GateRefused(gate)
            else if !Separate(s, p, "workflow:approve:task", Record(s.instances[i].id)) then SodRefused
            else Decided
  }

  function DecideTask(t: Task, decision: Decision, key: string): Task {
    t.(status := if decision.Approve? then CompletedTask else RejectedTask, decision := Some(decision), idempotencyKey := Some(key))
  }

  /** A follow-up task has no due date and no authority window. */
  function NextTask(s: State, p: Principal, instanceId: Id, g: Graph, next: string): Task {
    Task(s.nextId, p.tenantId, instanceId, next, TypeAt(g, next), PendingTask, None, None, None, None)
  }

  /** What a decision does to the task, its instance and the log. */
  function Settle(s: State, p: Principal, t: nat, i: nat, v: nat, decision: Decision, key: string): State
    requires Located(s, t, i, v)
  {
    var instance, graph := s.instances[i], s.versions[v].graph;
    var tasks := s.tasks[t := DecideTask(s.tasks[t], decision, key)];
    var next := NextNode(graph, s.tasks[t].nodeKey, decision);
    var settled :=
      if next.None?
      then instance.(status := if decision.Approve? then Completed else Cancelled, currentNode := None)
      else instance.(currentNode := next);
    s.(
      tasks := if next.None? then tasks else tasks + [NextTask(s, p, instance.id, graph, next.value)],
      instances := s.instances[i := settled],
      actions := s.actions + [Action(p.id, "workflow:approve:task", Record(instance.id))],
      nextId := if next.None? then s.nextId else s.nextId + 1
    )
  }

  /** `completeWorkflowTask`. */
  function Complete(
    s: State, p: Principal, taskId: Id, decision: Decision, key: string, now: int, live: bool, permitted: bool)
    : (State, CompleteOutcome)
  {
    var outcome := CheckComplete(s, p, taskId, key, now, live, permitted);
    if !outcome.Decided? then (s, outcome)
    else
      var t := FindTask(s.tasks, taskId);
      var i := FindInstance(s.instances, s.tasks[t].instanceId);
      (Settle(s, p, t, i, FindVersion(s.versions, s.instances[i].versionId), decision, key), outcome)
  }

  function CancelTask(t: Task, instanceId: Id): Task {
    if t.instanceId == instanceId && t.status.PendingTask? then t.(status := CancelledTask) else t
  }

  function CancelTasks(ts: seq<Task>, instanceId: Id): (r: seq<Task>)
    ensures |r| == |ts|
    ensures forall i :: 0 <= i < |ts| ==> r[i] == CancelTask(ts[i], instanceId)
  {
    if ts == [] then [] else CancelTasks(ts[..|ts| - 1], instanceId) + [CancelTask(ts[|ts| - 1], instanceId)]
  }

  /** `cancelWorkflowInstance`; an escalated task is left as it is. */
  function CancelInstance(s: State, p: Principal, instanceId: Id, live: bool, permitted: bool): State {
    var i := Find(s.instances, (x: Instance) => x.id == instanceId && x.tenantId == p.tenantId);
    if !live || !permitted || i == |s.instances| || !s.instances[i].status.Running? then s
    else
      s.(
        instances := s.instances[i := s.instances[i].(status := Cancelled)],
        tasks := CancelTasks(s.tasks, instanceId)
      )
  }

  function EscalateTask(t: Task, now: int): Task {
    if IsOverdue(t, now) then t.(status := EscalatedTask) else t
  }

  function EscalateTasks(ts: seq<Task>, now: int): (r: seq<Task>)
    ensures |r| == |ts|
    ensures forall i :: 0 <= i < |ts| ==> r[i] == EscalateTask(ts[i], now)
  {
    if ts == [] then [] else EscalateTasks(ts[..|ts| - 1], now) + [EscalateTask(ts[|ts| - 1], now)]
  }

  predicate IsOverdue(t: Task, now: int) {
    t.status.PendingTask? && t.dueAt.Some? && t.dueAt.value <= now
  }

  /** The tasks that escalation reports, in task order, as it leaves them. */
  function Overdue(ts: seq<Task>, now: int): (r: seq<Task>)
    ensures forall t :: t in r ==> t.status.EscalatedTask?
  {
    if ts == [] then []
    else
      var last := ts[|ts| - 1];
      Overdue(ts[..|ts| - 1], now) + (if IsOverdue(last, now) then [last.(status := EscalatedTask)] else [])
  }

  lemma OverdueSnoc(ts: seq<Task>, j: nat, now: int)
    requires j < |ts|
    ensures Overdue(ts[..j + 1], now)
         == Overdue(ts[..j], now) + (if IsOverdue(ts[j], now) then [ts[j].(status := EscalatedTask)] else [])
  {
    assert ts[..j + 1][..j] == ts[..j];
  }

  /** `escalateOverdueTasks`. */
  function Escalate(s: State, now: int): State {
    s.(tasks := EscalateTasks(s.tasks, now))
  }

  // ---------------------------------------------------------------- the simulator

  /** The keys `simulateWorkflowPath` visits from a node on, for some decisions. */
  function PathFrom(g: Graph, current: string, decisions: seq<Decision>): seq<string>
    decreases |decisions|
  {
    if decisions == [] then [current]
    else
      match NextNode(g, current, decisions[0])
      case None => [current]
      case Some(next) => [current] + PathFrom(g, next, decisions[1..])
  }

  /** The path that is left, with the part walked in front of it, at one turn of the loop. */
  lemma PathTurn(g: Graph, front: seq<string>, current: string, decisions: seq<Decision>, i: nat)
    requires i < |decisions|
    ensures front + PathFrom(g, current, decisions[i..]) ==
      match NextNode(g, current, decisions[i])
      case None => front + [current]
      case Some(next) => (front + [current]) + PathFrom(g, next, decisions[i + 1..])
  {
    assert decisions[i..][0] == decisions[i] && decisions[i..][1..] == decisions[i + 1..];
    match NextNode(g, current, decisions[i])
    case None =>
    case Some(next) =>
      assert front + ([current] + PathFrom(g, next, decisions[i + 1..])) == (front + [current]) + PathFrom(g, next, decisions[i + 1..]);
  }

  method SimulatePath(g: Graph, decisions: seq<Decision>) returns (path: seq<string>)
    ensures path == PathFrom(g, g.start, decisions)
  {
    path := [g.start];
    var current := g.start;
    ghost var front: seq<string> := [];
    for i := 0 to |decisions|
      invariant path == front + [current]
      invariant front + PathFrom(g, current, decisions[i..]) == PathFrom(g, g.start, decisions)
    {
      PathTurn(g, front, current, decisions, i);
      var next := NextNode(g, current, decisions[i]);
      if next.None? {
        return;
      }
      front := path;
      path := path + [next.value];
      current := next.value;
    }
  }

  // ---------------------------------------------------------------- runs

  datatype Step =
    | CreatePaymentStep(p: Principal, permitted: bool)
    | DecideApprovalStep(p: Principal, approvalId: Id, decision: Decision, permitted: bool)
    | DraftStep(p: Principal, key: string, value: string, permitted: bool)
    | ApproveConfigStep(p: Principal, id: Id, permitted: bool)
    | RollbackStep(p: Principal, key: string, toVersion: nat, permitted: bool)
    | CreateRuleStep(p: Principal, key: string, permitted: bool)
    | ApproveRuleStep(p: Principal, id: Id, permitted: bool)
    | RetireRuleStep(p: Principal, id: Id, permitted: bool)
    | CreateDefinitionStep(p: Principal, key: string, permitted: bool)
    | AddVersionStep(p: Principal, definitionId: Id, graph: Graph, permitted: bool)
    | PublishStep(p: Principal, id: Id, permitted: bool)
    | StartStep(p: Principal, key: string, now: int, permitted: bool)
    | CompleteStep(p: Principal, id: Id, decision: Decision, key: string, now: int, live: bool, permitted: bool)
    | CancelStep(p: Principal, id: Id, live: bool, permitted: bool)
    | EscalateStep(now: int)

  function Apply(s: State, step: Step): State {
    match step
    case CreatePaymentStep(p, ok) => CreatePayment(s, p, ok)
    case DecideApprovalStep(p, id, d, ok) => DecideApproval(s, p, id, d, ok)
    case DraftStep(p, key, value, ok) => Draft(s, p, key, value, ok).0
    case ApproveConfigStep(p, id, ok) => ApproveConfig(s, p, id, ok).0
    case RollbackStep(p, key, v, ok) => Rollback(s, p, key, v, ok).0
    case CreateRuleStep(p, key, ok) => CreateRule(s, p, key, ok)
    case ApproveRuleStep(p, id, ok) => ApproveRule(s, p, id, ok)
    case RetireRuleStep(p, id, ok) => RetireRule(s, p, id, ok)
    case CreateDefinitionStep(p, key, ok) => CreateDefinition(s, p, key, ok)
    case AddVersionStep(p, id, g, ok) => AddVersion(s, p, id, g, ok)
    case PublishStep(p, id, ok) => PublishVersion(s, p, id, ok)
    case StartStep(p, key, now, ok) => Start(s, p, key, now, ok)
    case CompleteStep(p, id, d, key, now, live, ok) => Complete(s, p, id, d, key, now, live, ok).0
    case CancelStep(p, id, live, ok) => CancelInstance(s, p, id, live, ok)
    case EscalateStep(now) => Escalate(s, now)
  }

  /** The store as it is seeded: one approved configuration version, written by one administrator and approved by another. */
  function Seeded(tenantId: string, author: Id, nextId: Id): State
    requires nextId > 0
  {
    State([], [], [], [], [Config(0, tenantId, "approval.payment.dual_control", 1, "{enabled:true}", ApprovedConfig, author)],
          [], [], map[], map[], [], nextId)
  }

  function Run(start: State, steps: seq<Step>): State {
    if steps == [] then start else Apply(Run(start, steps[..|steps| - 1]), steps[|steps| - 1])
  }

  lemma RunSnoc(start: State, steps: seq<Step>, step: Step)
    ensures Run(start, steps + [step]) == Apply(Run(start, steps), step)
  {
    assert (steps + [step])[..|steps|] == steps;
  }
}
