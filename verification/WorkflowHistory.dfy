/** One workflow instance: its tasks in the order they were created, and the path its decisions take through the graph. */
module WorkflowHistory {
  import opened Options
  import opened Governance

  /** Where an instance's tasks are in the list of all tasks. */
  function Positions(ts: seq<Task>, id: Id): (ps: seq<nat>)
    ensures forall k :: 0 <= k < |ps| ==> ps[k] < |ts| && ts[ps[k]].instanceId == id
    ensures forall t :: 0 <= t < |ts| && ts[t].instanceId == id ==> t in ps
    ensures forall j, k :: 0 <= j < k < |ps| ==> ps[j] < ps[k]
  {
    if ts == [] then []
    else
      var n := |ts| - 1;
      var ps := Positions(ts[..n], id);
      if ts[n].instanceId == id then ps + [n] else ps
  }

  /** The node keys of some tasks. */
  function Keys(ts: seq<Task>, ps: seq<nat>): (r: seq<string>)
    requires forall k :: 0 <= k < |ps| ==> ps[k] < |ts|
    ensures |r| == |ps|
    ensures forall k :: 0 <= k < |ps| ==> r[k] == ts[ps[k]].nodeKey
  {
    if ps == [] then [] else Keys(ts, ps[..|ps| - 1]) + [ts[ps[|ps| - 1]].nodeKey]
  }

  /** The decisions taken on some tasks. */
  function Decisions(ts: seq<Task>, ps: seq<nat>): seq<Decision>
    requires forall k :: 0 <= k < |ps| ==> ps[k] < |ts|
  {
    if ps == [] then []
    else
      var last := ts[ps[|ps| - 1]];
      Decisions(ts, ps[..|ps| - 1]) + (if last.decision.Some? then [last.decision.value] else [])
  }

  predicate IsDecided(t: Task) {
    t.status.CompletedTask? || t.status.RejectedTask?
  }

  predicate IsOpen(t: Task) {
    t.status.PendingTask? || t.status.EscalatedTask?
  }

  /** A task carries a decision and an idempotency key exactly when it was decided. */
  predicate Recorded(t: Task) {
    && t.decision == (if t.status.CompletedTask? then Some(Approve) else if t.status.RejectedTask? then Some(Reject) else None)
    && (t.idempotencyKey.Some? <==> t.decision.Some?)
  }

  /**
   * The history of one instance. All its tasks but the last are decided; while it runs the last one is open, at the
   * current node; it was completed or cancelled by the last decision, or cancelled before one; and the tasks walked the
   * path that the simulator computes.
   */
  predicate HistoryOk(instance: Instance, g: Graph, ts: seq<Task>) {
    var ps := Positions(ts, instance.id);
    TasksOk(instance, g, ts, ps) && Walked(g, ts, ps)
  }

  predicate TasksOk(instance: Instance, g: Graph, ts: seq<Task>, ps: seq<nat>)
    requires forall k :: 0 <= k < |ps| ==> ps[k] < |ts|
  {
    && |ps| > 0
    && (forall k :: 0 <= k < |ps| ==> Recorded(ts[ps[k]]))
    && (forall k :: 0 <= k < |ps| - 1 ==> IsDecided(ts[ps[k]]))
    && EndsWell(instance, g, ts[ps[|ps| - 1]])
  }

  predicate Walked(g: Graph, ts: seq<Task>, ps: seq<nat>)
    requires forall k :: 0 <= k < |ps| ==> ps[k] < |ts|
  {
    Keys(ts, ps) == PathFrom(g, g.start, Decisions(ts, ps))
  }

  /** How the last task stands: open while the instance runs, else decided with nowhere to go, cancelled or escalated. */
  predicate EndsWell(instance: Instance, g: Graph, last: Task) {
    match instance.status
    case Running => IsOpen(last) && instance.currentNode == Some(last.nodeKey)
    case Completed => last.status.CompletedTask? && NextNode(g, last.nodeKey, Approve).None?
    case Cancelled =>
      || last.status.CancelledTask?
      || last.status.EscalatedTask?
      || (last.status.RejectedTask? && NextNode(g, last.nodeKey, Reject).None?)
  }

  // ---------------------------------------------------------------- positions

  lemma {:induction false} SamePositions(ts: seq<Task>, ts': seq<Task>, id: Id)
    requires |ts| == |ts'| && forall t :: 0 <= t < |ts| ==> ts'[t].instanceId == ts[t].instanceId
    ensures Positions(ts', id) == Positions(ts, id)
  {
    if ts != [] {
      SamePositions(ts[..|ts| - 1], ts'[..|ts| - 1], id);
    }
  }

  lemma PositionsSnoc(ts: seq<Task>, last: Task, id: Id)
    ensures Positions(ts + [last], id) == Positions(ts, id) + (if last.instanceId == id then [|ts|] else [])
  {
    assert (ts + [last])[..|ts|] == ts;
  }

  lemma {:induction false} SameWalk(ts: seq<Task>, ts': seq<Task>, ps: seq<nat>)
    requires forall k :: 0 <= k < |ps| ==> ps[k] < |ts| && ps[k] < |ts'|
    requires forall k :: 0 <= k < |ps| ==> ts'[ps[k]].nodeKey == ts[ps[k]].nodeKey && ts'[ps[k]].decision == ts[ps[k]].decision
    ensures Keys(ts', ps) == Keys(ts, ps) && Decisions(ts', ps) == Decisions(ts, ps)
  {
    if ps != [] {
      SameWalk(ts, ts', ps[..|ps| - 1]);
    }
  }

  lemma {:induction false} AllDecided(ts: seq<Task>, ps: seq<nat>)
    requires forall k :: 0 <= k < |ps| ==> ps[k] < |ts| && ts[ps[k]].decision.Some?
    ensures |Decisions(ts, ps)| == |ps|
  {
    if ps != [] {
      AllDecided(ts, ps[..|ps| - 1]);
    }
  }

  // ---------------------------------------------------------------- the path of one more decision

  /** A walk that used up its decisions goes one node further with the next one, or ends. */
  lemma {:induction false} PathSnoc(g: Graph, current: string, ds: seq<Decision>, d: Decision)
    requires |PathFrom(g, current, ds)| == |ds| + 1
    ensures var path := PathFrom(g, current, ds);
      var next := NextNode(g, path[|ds|], d);
      PathFrom(g, current, ds + [d]) == path + (if next.None? then [] else [next.value])
    decreases |ds|
  {
    if ds == [] {
      assert [d][1..] == [];
      assert [] + [d] == [d];
    } else {
      assert (ds + [d])[0] == ds[0] && (ds + [d])[1..] == ds[1..] + [d];
      var next := NextNode(g, current, ds[0]);
      PathSnoc(g, next.value, ds[1..], d);
    }
  }

  // ---------------------------------------------------------------- what keeps a history

  /** The tasks of one instance are as they were. */
  predicate Untouched(ts: seq<Task>, ts': seq<Task>, id: Id) {
    && Positions(ts', id) == Positions(ts, id)
    && forall k :: 0 <= k < |Positions(ts, id)| ==> ts'[Positions(ts', id)[k]] == ts[Positions(ts, id)[k]]
  }

  lemma UntouchedKeeps(instance: Instance, g: Graph, ts: seq<Task>, ts': seq<Task>)
    requires HistoryOk(instance, g, ts) && Untouched(ts, ts', instance.id)
    ensures HistoryOk(instance, g, ts')
  {
    SameWalk(ts, ts', Positions(ts, instance.id));
  }

  lemma WalkSnoc(ts: seq<Task>, task: Task, ps: seq<nat>)
    requires forall k :: 0 <= k < |ps| ==> ps[k] < |ts|
    requires task.decision.None?
    ensures Keys(ts + [task], ps + [|ts|]) == Keys(ts, ps) + [task.nodeKey]
    ensures Decisions(ts + [task], ps + [|ts|]) == Decisions(ts, ps)
  {
    SameWalk(ts, ts + [task], ps);
    assert (ps + [|ts|])[..|ps|] == ps;
    assert Decisions(ts + [task], ps) + [] == Decisions(ts, ps);
  }

  lemma NextTasks(instance: Instance, g: Graph, ts: seq<Task>, ps: seq<nat>, task: Task)
    requires forall k :: 0 <= k < |ps| ==> ps[k] < |ts| && Recorded(ts[ps[k]]) && IsDecided(ts[ps[k]])
    requires instance.status.Running? && instance.currentNode == Some(task.nodeKey)
    requires task.status.PendingTask? && task.decision.None? && task.idempotencyKey.None?
    ensures TasksOk(instance, g, ts + [task], ps + [|ts|])
  {
    forall k | 0 <= k < |ps|
      ensures (ts + [task])[(ps + [|ts|])[k]] == ts[ps[k]]
    {
    }
  }

  /** One more task for an instance whose tasks are all decided. */
  lemma NextHistory(instance: Instance, g: Graph, ts: seq<Task>, ps: seq<nat>, task: Task)
    requires ps == Positions(ts, instance.id)
    requires forall k :: 0 <= k < |ps| ==> Recorded(ts[ps[k]]) && IsDecided(ts[ps[k]])
    requires PathFrom(g, g.start, Decisions(ts, ps)) == Keys(ts, ps) + [task.nodeKey]
    requires instance.id == task.instanceId && instance.status.Running? && instance.currentNode == Some(task.nodeKey)
    requires task.status.PendingTask? && task.decision.None? && task.idempotencyKey.None?
    ensures HistoryOk(instance, g, ts + [task])
  {
    PositionsSnoc(ts, task, instance.id);
    NextTasks(instance, g, ts, ps, task);
    WalkSnoc(ts, task, ps);
  }

  /** A history begins with the start task. */
  lemma StartHistory(instance: Instance, g: Graph, ts: seq<Task>, task: Task)
    requires instance.status.Running? && instance.currentNode == Some(g.start)
    requires task.instanceId == instance.id && task.nodeKey == g.start && task.status.PendingTask?
    requires task.decision.None? && task.idempotencyKey.None?
    requires Positions(ts, instance.id) == []
    ensures HistoryOk(instance, g, ts + [task])
  {
    assert [] + [task.nodeKey] == [task.nodeKey];
    NextHistory(instance, g, ts, [], task);
  }

  /** A pending task that becomes cancelled or escalated, or no change. */
  predicate QuietChange(t: Task, t': Task) {
    t' == t || (t.status.PendingTask? && (t' == t.(status := CancelledTask) || t' == t.(status := EscalatedTask)))
  }

  predicate EndKept(instance: Instance, instance': Instance, g: Graph, ts: seq<Task>, ts': seq<Task>)
    requires |ts'| == |ts|
  {
    forall t :: 0 <= t < |ts| && ts[t].instanceId == instance.id && EndsWell(instance, g, ts[t]) ==> EndsWell(instance', g, ts'[t])
  }

  /** Tasks that only leave the pending state, undecided, and the instance that stops running when they are cancelled. */
  lemma QuietHistory(instance: Instance, instance': Instance, g: Graph, ts: seq<Task>, ts': seq<Task>)
    requires HistoryOk(instance, g, ts)
    requires |ts'| == |ts| && forall t :: 0 <= t < |ts| ==> QuietChange(ts[t], ts'[t])
    requires instance'.id == instance.id
    requires EndKept(instance, instance', g, ts, ts')
    ensures HistoryOk(instance', g, ts')
  {
    var ps := Positions(ts, instance.id);
    SamePositions(ts, ts', instance.id);
    QuietWalk(ts, ts', ps);
    QuietTasks(instance, instance', g, ts, ts', ps);
  }

  lemma QuietWalk(ts: seq<Task>, ts': seq<Task>, ps: seq<nat>)
    requires forall k :: 0 <= k < |ps| ==> ps[k] < |ts|
    requires |ts'| == |ts| && forall t :: 0 <= t < |ts| ==> QuietChange(ts[t], ts'[t])
    ensures Keys(ts', ps) == Keys(ts, ps) && Decisions(ts', ps) == Decisions(ts, ps)
  {
    forall k | 0 <= k < |ps|
      ensures ts'[ps[k]].nodeKey == ts[ps[k]].nodeKey && ts'[ps[k]].decision == ts[ps[k]].decision
    {
      assert QuietChange(ts[ps[k]], ts'[ps[k]]);
    }
    SameWalk(ts, ts', ps);
  }

  lemma QuietTasks(instance: Instance, instance': Instance, g: Graph, ts: seq<Task>, ts': seq<Task>, ps: seq<nat>)
    requires forall k :: 0 <= k < |ps| ==> ps[k] < |ts|
    requires |ts'| == |ts| && forall t :: 0 <= t < |ts| ==> QuietChange(ts[t], ts'[t])
    requires TasksOk(instance, g, ts, ps) && EndsWell(instance', g, ts'[ps[|ps| - 1]])
    ensures TasksOk(instance', g, ts', ps)
  {
    forall k | 0 <= k < |ps|
      ensures Recorded(ts'[ps[k]]) && (IsDecided(ts[ps[k]]) ==> IsDecided(ts'[ps[k]]))
    {
      assert Recorded(ts[ps[k]]) && QuietChange(ts[ps[k]], ts'[ps[k]]);
    }
  }

  /** The pending task of an instance is its last one, and the instance runs. */
  lemma PendingIsLast(instance: Instance, g: Graph, ts: seq<Task>, t: nat)
    requires HistoryOk(instance, g, ts) && t < |ts| && ts[t].instanceId == instance.id && ts[t].status.PendingTask?
    ensures var ps := Positions(ts, instance.id); t == ps[|ps| - 1]
    ensures instance.status.Running?
  {
    var ps := Positions(ts, instance.id);
    var k :| 0 <= k < |ps| && ps[k] == t;
    UndecidedIsLast(instance, g, ts, ps, k);
  }

  lemma UndecidedIsLast(instance: Instance, g: Graph, ts: seq<Task>, ps: seq<nat>, k: nat)
    requires forall j :: 0 <= j < |ps| ==> ps[j] < |ts|
    requires TasksOk(instance, g, ts, ps) && k < |ps| && ts[ps[k]].status.PendingTask?
    ensures k == |ps| - 1 && instance.status.Running?
  {
  }

  /** A decision on the last task: the walk so far is what the simulator computes with that decision added. */
  lemma DecideWalk(g: Graph, ts: seq<Task>, ps: seq<nat>, d: Decision, key: string)
    requires |ps| > 0 && forall k :: 0 <= k < |ps| ==> ps[k] < |ts|
    requires forall k :: 0 <= k < |ps| - 1 ==> ps[k] < ps[|ps| - 1] && ts[ps[k]].decision.Some?
    requires ts[ps[|ps| - 1]].decision.None?
    requires Walked(g, ts, ps)
    ensures var t := ps[|ps| - 1];
      var ts' := ts[t := DecideTask(ts[t], d, key)];
      var next := NextNode(g, ts[t].nodeKey, d);
      PathFrom(g, g.start, Decisions(ts', ps)) == Keys(ts', ps) + (if next.None? then [] else [next.value])
  {
    var n := |ps| - 1;
    var ts' := ts[ps[n] := DecideTask(ts[ps[n]], d, key)];
    SameWalk(ts, ts', ps[..n]);
    AllDecided(ts, ps[..n]);
    assert Decisions(ts, ps) == Decisions(ts, ps[..n]) + [] == Decisions(ts, ps[..n]);
    assert Decisions(ts', ps) == Decisions(ts, ps) + [d];
    PathSnoc(g, g.start, Decisions(ts, ps), d);
    assert Keys(ts', ps) == Keys(ts, ps);
  }

  lemma DecidedTasks(instance: Instance, g: Graph, ts: seq<Task>, ps: seq<nat>, d: Decision, key: string)
    requires forall k :: 0 <= k < |ps| ==> ps[k] < |ts|
    requires forall j, k :: 0 <= j < k < |ps| ==> ps[j] < ps[k]
    requires TasksOk(instance, g, ts, ps)
    ensures var ts' := ts[ps[|ps| - 1] := DecideTask(ts[ps[|ps| - 1]], d, key)];
      forall k :: 0 <= k < |ps| ==> Recorded(ts'[ps[k]]) && IsDecided(ts'[ps[k]])
  {
  }

  lemma DecisionsBefore(instance: Instance, g: Graph, ts: seq<Task>, ps: seq<nat>)
    requires forall k :: 0 <= k < |ps| ==> ps[k] < |ts|
    requires TasksOk(instance, g, ts, ps) && ts[ps[|ps| - 1]].status.PendingTask?
    ensures forall k :: 0 <= k < |ps| - 1 ==> ts[ps[k]].decision.Some?
    ensures ts[ps[|ps| - 1]].decision.None?
  {
    assert Recorded(ts[ps[|ps| - 1]]);
  }

  /** The instance's tasks after the decision on its pending one. */
  lemma DecideHistory(instance: Instance, g: Graph, ts: seq<Task>, t: nat, d: Decision, key: string)
    requires HistoryOk(instance, g, ts)
    requires t < |ts| && ts[t].instanceId == instance.id && ts[t].status.PendingTask?
    ensures var ps := Positions(ts, instance.id);
      var ts' := ts[t := DecideTask(ts[t], d, key)];
      var next := NextNode(g, ts[t].nodeKey, d);
      && Positions(ts', instance.id) == ps
      && |ps| > 0
      && (forall k :: 0 <= k < |ps| ==> Recorded(ts'[ps[k]]) && IsDecided(ts'[ps[k]]))
      && PathFrom(g, g.start, Decisions(ts', ps)) == Keys(ts', ps) + (if next.None? then [] else [next.value])
  {
    PendingIsLast(instance, g, ts, t);
    var ps := Positions(ts, instance.id);
    SamePositions(ts, ts[t := DecideTask(ts[t], d, key)], instance.id);
    DecidedTasks(instance, g, ts, ps, d, key);
    DecisionsBefore(instance, g, ts, ps);
    DecideWalk(g, ts, ps, d, key);
  }

  /** A decision that ends the workflow. */
  lemma EndHistory(instance: Instance, instance': Instance, g: Graph, ts: seq<Task>, t: nat, d: Decision, key: string)
    requires HistoryOk(instance, g, ts)
    requires t < |ts| && ts[t].instanceId == instance.id && ts[t].status.PendingTask?
    requires NextNode(g, ts[t].nodeKey, d).None? && instance'.id == instance.id
    requires instance'.status == if d.Approve? then Completed else Cancelled
    ensures HistoryOk(instance', g, ts[t := DecideTask(ts[t], d, key)])
  {
    DecideHistory(instance, g, ts, t, d, key);
    var ts' := ts[t := DecideTask(ts[t], d, key)];
    assert Keys(ts', Positions(ts', instance.id)) + [] == Keys(ts', Positions(ts', instance.id));
  }

  /** A decision that leads to a next node, and the task for it. */
  lemma ContinueHistory(
    instance: Instance, instance': Instance, g: Graph, ts: seq<Task>, t: nat, d: Decision, key: string, task: Task)
    requires HistoryOk(instance, g, ts)
    requires t < |ts| && ts[t].instanceId == instance.id && ts[t].status.PendingTask?
    requires NextNode(g, ts[t].nodeKey, d) == Some(task.nodeKey) == instance'.currentNode
    requires instance'.id == instance.id == task.instanceId && instance'.status.Running?
    requires task.status.PendingTask? && task.decision.None? && task.idempotencyKey.None?
    ensures HistoryOk(instance', g, ts[t := DecideTask(ts[t], d, key)] + [task])
  {
    DecideHistory(instance, g, ts, t, d, key);
    NextHistory(instance', g, ts[t := DecideTask(ts[t], d, key)], Positions(ts, instance.id), task);
  }

  /** Of an instance's tasks all but one are decided, and that one ends the history as it should. */
  lemma LastAlone(instance: Instance, g: Graph, ts: seq<Task>) returns (last: nat)
    requires HistoryOk(instance, g, ts)
    ensures last < |ts| && ts[last].instanceId == instance.id && EndsWell(instance, g, ts[last])
    ensures forall u :: 0 <= u < |ts| && u != last && ts[u].instanceId == instance.id ==> IsDecided(ts[u])
  {
    var ps := Positions(ts, instance.id);
    last := ps[|ps| - 1];
    forall u | 0 <= u < |ts| && u != last && ts[u].instanceId == instance.id
      ensures IsDecided(ts[u])
    {
      var k :| 0 <= k < |ps| && ps[k] == u;
    }
  }

  lemma TaskRecorded(instance: Instance, g: Graph, ts: seq<Task>, t: nat)
    requires HistoryOk(instance, g, ts) && t < |ts| && ts[t].instanceId == instance.id
    ensures Recorded(ts[t])
  {
    var ps := Positions(ts, instance.id);
    var k :| 0 <= k < |ps| && ps[k] == t;
    assert Recorded(ts[ps[k]]);
  }

  /** An instance with an escalated task has none pending. */
  lemma EscalatedIsLast(instance: Instance, g: Graph, ts: seq<Task>, t: nat, u: nat)
    requires HistoryOk(instance, g, ts) && t < |ts| && u < |ts|
    requires ts[t].instanceId == instance.id && ts[t].status.EscalatedTask?
    requires ts[u].instanceId == instance.id
    ensures !ts[u].status.PendingTask?
  {
    var last := LastAlone(instance, g, ts);
    assert t == last;
    assert u != last ==> IsDecided(ts[u]);
  }

  /** The open task of a running instance. */
  lemma OneOpen(instance: Instance, g: Graph, ts: seq<Task>) returns (open: nat)
    requires HistoryOk(instance, g, ts) && instance.status.Running?
    ensures open < |ts| && ts[open].instanceId == instance.id && IsOpen(ts[open])
    ensures instance.currentNode == Some(ts[open].nodeKey)
    ensures forall u :: 0 <= u < |ts| && u != open && ts[u].instanceId == instance.id ==> IsDecided(ts[u])
  {
    open := LastAlone(instance, g, ts);
  }

  /** An instance that ended has nothing pending. */
  lemma NonePending(instance: Instance, g: Graph, ts: seq<Task>)
    requires HistoryOk(instance, g, ts) && !instance.status.Running?
    ensures forall u :: 0 <= u < |ts| && ts[u].instanceId == instance.id ==> !ts[u].status.PendingTask?
  {
    var last := LastAlone(instance, g, ts);
    assert !ts[last].status.PendingTask?;
  }

  /** A decision on the pending task is the next one taken. */
  lemma OneMoreDecision(instance: Instance, g: Graph, ts: seq<Task>, t: nat, d: Decision, key: string)
    requires HistoryOk(instance, g, ts)
    requires t < |ts| && ts[t].instanceId == instance.id && ts[t].status.PendingTask?
    ensures var ts' := ts[t := DecideTask(ts[t], d, key)];
      Decisions(ts', Positions(ts', instance.id)) == Decisions(ts, Positions(ts, instance.id)) + [d]
  {
    var ts' := ts[t := DecideTask(ts[t], d, key)];
    var ps := Positions(ts, instance.id);
    PendingIsLast(instance, g, ts, t);
    SamePositions(ts, ts', instance.id);
    DecisionsBefore(instance, g, ts, ps);
    LastDecided(ts, ts', ps, d);
  }

  lemma LastDecided(ts: seq<Task>, ts': seq<Task>, ps: seq<nat>, d: Decision)
    requires |ps| > 0 && |ts'| == |ts| && forall k :: 0 <= k < |ps| ==> ps[k] < |ts|
    requires forall k :: 0 <= k < |ps| - 1 ==> ts'[ps[k]] == ts[ps[k]]
    requires ts[ps[|ps| - 1]].decision.None? && ts'[ps[|ps| - 1]].decision == Some(d)
    ensures Decisions(ts', ps) == Decisions(ts, ps) + [d]
  {
    SameWalk(ts, ts', ps[..|ps| - 1]);
    assert Decisions(ts, ps[..|ps| - 1]) + [] == Decisions(ts, ps[..|ps| - 1]);
  }
}
