/** The configuration version log over whole runs: it is a last-approved map with its history kept. */
module ConfigRuns {
  import opened Options
  import opened Governance

  predicate SameItem(c: Config, d: Config) {
    c.tenantId == d.tenantId && c.key == d.key
  }

  predicate Effective(c: Config, tenantId: string, key: string) {
    c.tenantId == tenantId && c.key == key && c.status.ApprovedConfig?
  }

  /** Identifiers never repeat; a tenant's key has each version number once, and at most one version of it is approved. */
  predicate ConfigsOk(cs: seq<Config>, nextId: Id) {
    && (forall i :: 0 <= i < |cs| ==> cs[i].id < nextId)
    && (forall i, j :: 0 <= i < j < |cs| ==> cs[i].id != cs[j].id)
    && (forall i, j :: 0 <= i < j < |cs| && SameItem(cs[i], cs[j]) ==> cs[i].version != cs[j].version)
    && (forall i, j :: 0 <= i < j < |cs| && SameItem(cs[i], cs[j]) ==> !(cs[i].status.ApprovedConfig? && cs[j].status.ApprovedConfig?))
  }

  // ---------------------------------------------------------------- single steps

  lemma DraftOk(s: State, p: Principal, key: string, value: string, ok: bool)
    requires ConfigsOk(s.configs, s.nextId)
    ensures ConfigsOk(Draft(s, p, key, value, ok).0.configs, Draft(s, p, key, value, ok).0.nextId)
  {
    if ok {
      var draft := Draft(s, p, key, value, ok).0.configs[|s.configs|];
      assert forall i :: 0 <= i < |s.configs| && SameItem(s.configs[i], draft) ==> s.configs[i].version < draft.version;
    }
  }

  /** What an approval leaves at every position. */
  lemma Approved(s: State, p: Principal, id: Id, ok: bool)
    requires ConfigsOk(s.configs, s.nextId) && MayApproveConfig(s, p, id, ok)
    ensures var cs := ApproveConfig(s, p, id, ok).0.configs;
      var k := FindConfig(s.configs, id);
      && |cs| == |s.configs|
      && cs[k] == s.configs[k].(status := ApprovedConfig)
      && forall i :: 0 <= i < |cs| && i != k ==> cs[i] == RetireOne(s.configs[i], s.configs[k])
  {
  }

  lemma ApproveOk(s: State, p: Principal, id: Id, ok: bool)
    requires ConfigsOk(s.configs, s.nextId)
    ensures ConfigsOk(ApproveConfig(s, p, id, ok).0.configs, ApproveConfig(s, p, id, ok).0.nextId)
  {
    if MayApproveConfig(s, p, id, ok) {
      Approved(s, p, id, ok);
      ApprovedOk(s.configs, ApproveConfig(s, p, id, ok).0.configs, FindConfig(s.configs, id), s.nextId);
    }
  }

  lemma ApprovedOk(cs: seq<Config>, cs': seq<Config>, k: nat, nextId: Id)
    requires ConfigsOk(cs, nextId) && |cs'| == |cs| && k < |cs|
    requires cs'[k] == cs[k].(status := ApprovedConfig)
    requires forall i :: 0 <= i < |cs| && i != k ==> cs'[i] == RetireOne(cs[i], cs[k])
    ensures ConfigsOk(cs', nextId)
  {
    forall i | 0 <= i < |cs|
      ensures cs'[i].id == cs[i].id && cs'[i].tenantId == cs[i].tenantId && cs'[i].key == cs[i].key && cs'[i].version == cs[i].version
      ensures i != k && cs'[i].status.ApprovedConfig? ==> cs[i].status.ApprovedConfig? && !SameItem(cs[i], cs[k])
    {
      assert i != k ==> cs'[i] == RetireOne(cs[i], cs[k]) && cs[i].id != cs[k].id;
    }
    forall i, j | 0 <= i < j < |cs| && SameItem(cs'[i], cs'[j])
      ensures cs[i].version != cs[j].version && !(cs'[i].status.ApprovedConfig? && cs'[j].status.ApprovedConfig?)
    {
      assert SameItem(cs[i], cs[j]);
    }
  }

  lemma RollbackOk(s: State, p: Principal, key: string, toVersion: nat, ok: bool)
    requires ConfigsOk(s.configs, s.nextId)
    ensures ConfigsOk(Rollback(s, p, key, toVersion, ok).0.configs, Rollback(s, p, key, toVersion, ok).0.nextId)
  {
    var k := RollbackTarget(s.configs, p.tenantId, key, toVersion);
    if k < |s.configs| {
      DraftOk(s, p, key, s.configs[k].value, ok);
    }
  }

  predicate IsConfigStep(step: Step) {
    step.DraftStep? || step.ApproveConfigStep? || step.RollbackStep?
  }

  lemma OtherSteps(s: State, step: Step)
    requires !IsConfigStep(step)
    ensures Apply(s, step).configs == s.configs && s.nextId <= Apply(s, step).nextId
  {
  }

  lemma StepKeepsConfigsOk(s: State, step: Step)
    requires ConfigsOk(s.configs, s.nextId)
    ensures ConfigsOk(Apply(s, step).configs, Apply(s, step).nextId)
  {
    match step
    case DraftStep(p, key, value, ok) => DraftOk(s, p, key, value, ok);
    case ApproveConfigStep(p, id, ok) => ApproveOk(s, p, id, ok);
    case RollbackStep(p, key, v, ok) => RollbackOk(s, p, key, v, ok);
    case _ => OtherSteps(s, step);
  }

  /** In every run a tenant's key has each version number once and at most one approved version. */
  lemma {:induction false} EveryRunConfigsOk(start: State, steps: seq<Step>)
    requires ConfigsOk(start.configs, start.nextId)
    ensures ConfigsOk(Run(start, steps).configs, Run(start, steps).nextId)
  {
    if steps != [] {
      EveryRunConfigsOk(start, steps[..|steps| - 1]);
      StepKeepsConfigsOk(Run(start, steps[..|steps| - 1]), steps[|steps| - 1]);
    }
  }

  // ---------------------------------------------------------------- the last-approved map

  function Lookup(m: map<(string, string), string>, tenantId: string, key: string): Option<string> {
    if (tenantId, key) in m then Some(m[(tenantId, key)]) else None
  }

  /** What a store that keeps only the last approved value of each key would hold: approvals in the order they happen. */
  function LastApproved(tenantId: string, author: Id, nextId: Id, steps: seq<Step>): map<(string, string), string>
    requires nextId > 0
  {
    if steps == [] then map[(tenantId, "approval.payment.dual_control") := "{enabled:true}"]
    else
      var before := steps[..|steps| - 1];
      var s := Run(Seeded(tenantId, author, nextId), before);
      var m := LastApproved(tenantId, author, nextId, before);
      var step := steps[|steps| - 1];
      if step.ApproveConfigStep? && MayApproveConfig(s, step.p, step.id, step.permitted) then
        var draft := s.configs[FindConfig(s.configs, step.id)];
        m[(draft.tenantId, draft.key) := draft.value]
      else m
  }

  /** `getConfig` finds the approved version wherever it is in the log. */
  lemma GetApproved(s: State, i: nat)
    requires ConfigsOk(s.configs, s.nextId) && i < |s.configs| && s.configs[i].status.ApprovedConfig?
    ensures GetConfig(s, s.configs[i].tenantId, s.configs[i].key) == Some(s.configs[i].value)
  {
    var r := BestApproved(s.configs, s.configs[i].tenantId, s.configs[i].key);
    assert SameItem(s.configs[r.value], s.configs[i]);
  }

  lemma GetNothing(s: State, tenantId: string, key: string)
    requires forall i :: 0 <= i < |s.configs| ==> !Effective(s.configs[i], tenantId, key)
    ensures GetConfig(s, tenantId, key) == None
  {
    var r := BestApproved(s.configs, tenantId, key);
    assert r.Some? ==> Effective(s.configs[r.value], tenantId, key);
  }

  /** Two logs whose approved versions of a key agree give the same value. */
  lemma SameGet(s: State, s': State, tenantId: string, key: string)
    requires ConfigsOk(s.configs, s.nextId) && ConfigsOk(s'.configs, s'.nextId) && |s.configs| <= |s'.configs|
    requires forall i :: 0 <= i < |s.configs| ==>
      (Effective(s.configs[i], tenantId, key) <==> Effective(s'.configs[i], tenantId, key)) && s'.configs[i].value == s.configs[i].value
    requires forall i :: |s.configs| <= i < |s'.configs| ==> !Effective(s'.configs[i], tenantId, key)
    ensures GetConfig(s', tenantId, key) == GetConfig(s, tenantId, key)
  {
    if i :| 0 <= i < |s.configs| && Effective(s.configs[i], tenantId, key) {
      GetApproved(s, i);
      GetApproved(s', i);
    } else {
      GetNothing(s, tenantId, key);
      GetNothing(s', tenantId, key);
    }
  }

  lemma DraftGet(s: State, p: Principal, itemKey: string, value: string, ok: bool, tenantId: string, key: string)
    requires ConfigsOk(s.configs, s.nextId)
    ensures GetConfig(Draft(s, p, itemKey, value, ok).0, tenantId, key) == GetConfig(s, tenantId, key)
  {
    DraftOk(s, p, itemKey, value, ok);
    SameGet(s, Draft(s, p, itemKey, value, ok).0, tenantId, key);
  }

  /** Approving a version makes its value the one that is read, whatever its number; other keys read as before. */
  lemma ApproveGet(s: State, p: Principal, id: Id, ok: bool, tenantId: string, key: string)
    requires ConfigsOk(s.configs, s.nextId) && MayApproveConfig(s, p, id, ok)
    ensures var draft := s.configs[FindConfig(s.configs, id)];
      GetConfig(ApproveConfig(s, p, id, ok).0, tenantId, key) ==
      if draft.tenantId == tenantId && draft.key == key then Some(draft.value) else GetConfig(s, tenantId, key)
  {
    var k := FindConfig(s.configs, id);
    var s' := ApproveConfig(s, p, id, ok).0;
    Approved(s, p, id, ok);
    ApproveOk(s, p, id, ok);
    if s.configs[k].tenantId == tenantId && s.configs[k].key == key {
      GetApproved(s', k);
    } else {
      forall i | 0 <= i < |s.configs|
        ensures Effective(s.configs[i], tenantId, key) <==> Effective(s'.configs[i], tenantId, key)
        ensures s'.configs[i].value == s.configs[i].value
      {
        assert i != k ==> s'.configs[i] == RetireOne(s.configs[i], s.configs[k]);
      }
      SameGet(s, s', tenantId, key);
    }
  }

  lemma StepGet(s: State, step: Step, tenantId: string, key: string)
    requires ConfigsOk(s.configs, s.nextId)
    requires step.ApproveConfigStep? ==> !MayApproveConfig(s, step.p, step.id, step.permitted)
    ensures GetConfig(Apply(s, step), tenantId, key) == GetConfig(s, tenantId, key)
  {
    match step
    case DraftStep(p, itemKey, value, ok) => DraftGet(s, p, itemKey, value, ok, tenantId, key);
    case RollbackStep(p, itemKey, v, ok) => {
      var k := RollbackTarget(s.configs, p.tenantId, itemKey, v);
      if k < |s.configs| {
        DraftGet(s, p, itemKey, s.configs[k].value, ok, tenantId, key);
      }
    }
    case ApproveConfigStep(_, _, _) => {
    }
    case _ => OtherSteps(s, step);
  }

  /** The version log refines the last-approved map: `getConfig` reads in every run what the map holds. */
  lemma {:induction false} GetConfigIsLastApproved(
    tenantId: string, author: Id, nextId: Id, steps: seq<Step>, readerTenant: string, key: string)
    requires nextId > 0
    ensures GetConfig(Run(Seeded(tenantId, author, nextId), steps), readerTenant, key)
         == Lookup(LastApproved(tenantId, author, nextId, steps), readerTenant, key)
  {
    var start := Seeded(tenantId, author, nextId);
    if steps == [] {
      if readerTenant == tenantId && key == "approval.payment.dual_control" {
        GetApproved(start, 0);
      } else {
        GetNothing(start, readerTenant, key);
      }
    } else {
      var before, step := steps[..|steps| - 1], steps[|steps| - 1];
      var s := Run(start, before);
      GetConfigIsLastApproved(tenantId, author, nextId, before, readerTenant, key);
      EveryRunConfigsOk(start, before);
      if step.ApproveConfigStep? && MayApproveConfig(s, step.p, step.id, step.permitted) {
        ApproveGet(s, step.p, step.id, step.permitted, readerTenant, key);
      } else {
        StepGet(s, step, readerTenant, key);
      }
    }
  }

  // ---------------------------------------------------------------- rollback

  /** A version is only ever added, and keeps its identity and value. */
  predicate Kept(cs: seq<Config>, cs': seq<Config>) {
    |cs| <= |cs'| && forall i :: 0 <= i < |cs| ==> cs'[i].id == cs[i].id && SameItem(cs'[i], cs[i]) && cs'[i].value == cs[i].value
  }

  lemma StepKeeps(s: State, step: Step)
    requires ConfigsOk(s.configs, s.nextId)
    ensures Kept(s.configs, Apply(s, step).configs)
  {
    match step
    case ApproveConfigStep(p, id, ok) => ApproveKeeps(s, p, id, ok);
    case DraftStep(_, _, _, _) =>
    case RollbackStep(_, _, _, _) =>
    case _ => OtherSteps(s, step);
  }

  lemma ApproveKeeps(s: State, p: Principal, id: Id, ok: bool)
    requires ConfigsOk(s.configs, s.nextId)
    ensures Kept(s.configs, ApproveConfig(s, p, id, ok).0.configs)
  {
    if MayApproveConfig(s, p, id, ok) {
      Approved(s, p, id, ok);
      var k := FindConfig(s.configs, id);
      var cs := ApproveConfig(s, p, id, ok).0.configs;
      assert forall i :: 0 <= i < |cs| && i != k ==> cs[i] == RetireOne(s.configs[i], s.configs[k]);
    }
  }

  lemma {:induction false} RunKeeps(s: State, steps: seq<Step>)
    requires ConfigsOk(s.configs, s.nextId)
    ensures Kept(s.configs, Run(s, steps).configs)
  {
    if steps != [] {
      EveryRunConfigsOk(s, steps[..|steps| - 1]);
      RunKeeps(s, steps[..|steps| - 1]);
      StepKeeps(Run(s, steps[..|steps| - 1]), steps[|steps| - 1]);
    }
  }

  /**
   * A rollback takes effect when its draft is approved, whatever happens in between: the key then reads as the version
   * gone back to read.
   */
  lemma RollbackRestores(s: State, p: Principal, key: string, toVersion: nat, ok: bool, steps: seq<Step>, q: Principal, ok': bool)
    requires ConfigsOk(s.configs, s.nextId)
    requires Rollback(s, p, key, toVersion, ok).1.Some?
    requires var (made, id) := Rollback(s, p, key, toVersion, ok); MayApproveConfig(Run(made, steps), q, id.value, ok')
    ensures var (made, id) := Rollback(s, p, key, toVersion, ok);
      var target := RollbackTarget(s.configs, p.tenantId, key, toVersion);
      && target < |s.configs|
      && s.configs[target].version == toVersion && !s.configs[target].status.DraftConfig?
      && GetConfig(ApproveConfig(Run(made, steps), q, id.value, ok').0, p.tenantId, key) == Some(s.configs[target].value)
  {
    var (made, id) := Rollback(s, p, key, toVersion, ok);
    var later := Run(made, steps);
    RollbackOk(s, p, key, toVersion, ok);
    EveryRunConfigsOk(made, steps);
    RunKeeps(made, steps);
    var n := |s.configs|;
    assert later.configs[n].id == made.configs[n].id == id.value;
    assert FindConfig(later.configs, id.value) == n;
    assert SameItem(later.configs[n], made.configs[n]);
    ApproveGet(later, q, id.value, ok', p.tenantId, key);
  }
}
