/** Payments over whole runs: a payment and its approval never disagree, and a decision is final. */
module PaymentRuns {
  import opened Governance

  /** The approval's payment exists and stands as the approval does. */
  predicate Agrees(approval: Approval, payments: map<Id, Payment>) {
    approval.paymentId in payments && payments[approval.paymentId].status == approval.status
  }

  /** Every payment waits for one approval, with which it agrees. */
  ghost predicate PaymentsOk(s: State) {
    && (forall id :: id in s.payments ==> id < s.nextId)
    && (forall a :: a in s.approvals ==> a < s.nextId && Agrees(s.approvals[a], s.payments))
    && (forall a, b :: a in s.approvals && b in s.approvals && a != b ==> s.approvals[a].paymentId != s.approvals[b].paymentId)
    && (forall id :: id in s.payments ==> HasApproval(s, id))
  }

  ghost predicate HasApproval(s: State, id: Id) {
    exists a :: a in s.approvals && s.approvals[a].paymentId == id
  }

  lemma ApprovalsStay(s: State, s': State, id: Id)
    requires HasApproval(s, id)
    requires forall a :: a in s.approvals ==> a in s'.approvals && s'.approvals[a].paymentId == s.approvals[a].paymentId
    ensures HasApproval(s', id)
  {
    var a :| a in s.approvals && s.approvals[a].paymentId == id;
    assert a in s'.approvals && s'.approvals[a].paymentId == id;
  }

  lemma CreateOk(s: State, p: Principal, ok: bool)
    requires PaymentsOk(s)
    ensures PaymentsOk(CreatePayment(s, p, ok))
  {
    if ok {
      var s' := CreatePayment(s, p, ok);
      forall a | a in s'.approvals
        ensures Agrees(s'.approvals[a], s'.payments)
      {
        assert a in s.approvals ==> Agrees(s.approvals[a], s.payments);
      }
      forall id | id in s'.payments
        ensures HasApproval(s', id)
      {
        if id == s.nextId {
          assert s'.approvals[s.nextId + 1].paymentId == id;
        } else {
          ApprovalsStay(s, s', id);
        }
      }
    }
  }

  lemma DecideOk(s: State, p: Principal, approvalId: Id, d: Decision, ok: bool)
    requires PaymentsOk(s)
    ensures PaymentsOk(DecideApproval(s, p, approvalId, d, ok))
  {
    var s' := DecideApproval(s, p, approvalId, d, ok);
    if MayDecidePayment(s, p, approvalId, ok) {
      forall a | a in s'.approvals
        ensures Agrees(s'.approvals[a], s'.payments)
      {
        assert Agrees(s.approvals[a], s.payments);
      }
      forall id | id in s'.payments
        ensures HasApproval(s', id)
      {
        ApprovalsStay(s, s', id);
      }
    }
  }

  predicate PaymentsStay(s: State, s': State) {
    s'.payments == s.payments && s'.approvals == s.approvals && s.nextId <= s'.nextId
  }

  lemma SamePayments(s: State, step: Step)
    requires !step.CreatePaymentStep? && !step.DecideApprovalStep?
    ensures PaymentsStay(s, Apply(s, step))
  {
    match step
    case StartStep(p, key, now, ok) => StartStays(s, p, key, now, ok);
    case CompleteStep(p, id, d, key, now, live, ok) => CompleteStays(s, p, id, d, key, now, live, ok);
    case CreateRuleStep(p, key, ok) => CreateRuleStays(s, p, key, ok);
    case ApproveRuleStep(p, id, ok) => ApproveRuleStays(s, p, id, ok);
    case DraftStep(p, key, value, ok) => DraftStays(s, p, key, value, ok);
    case RollbackStep(p, key, v, ok) => RollbackStays(s, p, key, v, ok);
    case ApproveConfigStep(p, id, ok) => ApproveConfigStays(s, p, id, ok);
    case PublishStep(p, id, ok) => PublishStays(s, p, id, ok);
    case CancelStep(p, id, live, ok) => CancelStays(s, p, id, live, ok);
    case EscalateStep(now) => EscalateStays(s, now);
    case _ => OthersStay(s, step);
  }

  lemma ApproveConfigStays(s: State, p: Principal, id: Id, ok: bool)
    ensures PaymentsStay(s, ApproveConfig(s, p, id, ok).0)
  {
  }

  lemma PublishStays(s: State, p: Principal, id: Id, ok: bool)
    ensures PaymentsStay(s, PublishVersion(s, p, id, ok))
  {
  }

  lemma CancelStays(s: State, p: Principal, id: Id, live: bool, ok: bool)
    ensures PaymentsStay(s, CancelInstance(s, p, id, live, ok))
  {
  }

  lemma EscalateStays(s: State, now: int)
    ensures PaymentsStay(s, Escalate(s, now))
  {
  }

  lemma StartStays(s: State, p: Principal, key: string, now: int, ok: bool)
    ensures PaymentsStay(s, Start(s, p, key, now, ok))
  {
  }

  lemma CompleteStays(s: State, p: Principal, id: Id, d: Decision, key: string, now: int, live: bool, ok: bool)
    ensures PaymentsStay(s, Complete(s, p, id, d, key, now, live, ok).0)
  {
  }

  lemma CreateRuleStays(s: State, p: Principal, key: string, ok: bool)
    ensures PaymentsStay(s, CreateRule(s, p, key, ok))
  {
  }

  lemma ApproveRuleStays(s: State, p: Principal, id: Id, ok: bool)
    ensures PaymentsStay(s, ApproveRule(s, p, id, ok))
  {
  }

  lemma DraftStays(s: State, p: Principal, key: string, value: string, ok: bool)
    ensures PaymentsStay(s, Draft(s, p, key, value, ok).0)
  {
  }

  lemma RollbackStays(s: State, p: Principal, key: string, toVersion: nat, ok: bool)
    ensures PaymentsStay(s, Rollback(s, p, key, toVersion, ok).0)
  {
  }

  lemma OthersStay(s: State, step: Step)
    requires step.RetireRuleStep? || step.CreateDefinitionStep? || step.AddVersionStep?
    ensures PaymentsStay(s, Apply(s, step))
  {
  }

  lemma SameOk(s: State, s': State)
    requires PaymentsOk(s) && PaymentsStay(s, s')
    ensures PaymentsOk(s')
  {
    forall id | id in s'.payments
      ensures HasApproval(s', id)
    {
      ApprovalsStay(s, s', id);
    }
  }

  lemma StepOk(s: State, step: Step)
    requires PaymentsOk(s)
    ensures PaymentsOk(Apply(s, step))
  {
    match step
    case CreatePaymentStep(p, ok) => CreateOk(s, p, ok);
    case DecideApprovalStep(p, id, d, ok) => DecideOk(s, p, id, d, ok);
    case _ => {
      SamePayments(s, step);
      SameOk(s, Apply(s, step));
    }
  }

  /** In every run each payment has exactly one approval, and the two have the same status. */
  lemma {:induction false} EveryRunPaymentsOk(start: State, steps: seq<Step>)
    requires PaymentsOk(start)
    ensures PaymentsOk(Run(start, steps))
  {
    if steps != [] {
      EveryRunPaymentsOk(start, steps[..|steps| - 1]);
      StepOk(Run(start, steps[..|steps| - 1]), steps[|steps| - 1]);
    }
  }

  /** Payments keep their author and tenant, and a decided one its status. */
  predicate Final(payments: map<Id, Payment>, payments': map<Id, Payment>) {
    forall id :: id in payments ==>
      && id in payments'
      && payments'[id].createdBy == payments[id].createdBy && payments'[id].tenantId == payments[id].tenantId
      && (!payments[id].status.PendingPayment? ==> payments'[id] == payments[id])
  }

  lemma StepFinal(s: State, step: Step)
    requires PaymentsOk(s)
    ensures Final(s.payments, Apply(s, step).payments)
  {
    match step
    case CreatePaymentStep(p, ok) =>
    case DecideApprovalStep(p, id, d, ok) => {
      assert id in s.approvals ==> Agrees(s.approvals[id], s.payments);
    }
    case _ => SamePayments(s, step);
  }

  /** Whatever happens later, a decided payment stays as it was decided. */
  lemma {:induction false} DecisionsAreFinal(start: State, steps: seq<Step>)
    requires PaymentsOk(start)
    ensures Final(start.payments, Run(start, steps).payments)
  {
    if steps != [] {
      var before := steps[..|steps| - 1];
      EveryRunPaymentsOk(start, before);
      DecisionsAreFinal(start, before);
      StepFinal(Run(start, before), steps[|steps| - 1]);
    }
  }
}
