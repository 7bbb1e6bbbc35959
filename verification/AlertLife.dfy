/** What the uniqueness of alerts does over runs: a task's alerts of one kind can be closed once. */
module AlertLife {
  import opened Basics
  import opened Status
  import opened Tables
  import opened Transactions
  import opened Runs
  import Growth
  import Invariants
  import SafetyAlerts

  ghost predicate SameSubject(a: Alert, b: Alert) {
    a.taskId == b.taskId && a.kind == b.kind
  }

  lemma LaterGrows(first: seq<Op>, rest: seq<Op>)
    ensures Growth.Grows(Invariants.After(first), Invariants.After(first + rest))
  {
    Invariants.Reached(first);
    Growth.RunGrows(Invariants.After(first), rest);
    ExecAllConcat(EMPTY, first, rest);
  }

  /** Once an alert is closed, no other alert of its task and kind is closed after any further run. */
  lemma ClosedOnce(first: seq<Op>, rest: seq<Op>, a: Uuid, b: Uuid)
    requires a in Invariants.After(first).alerts && Invariants.After(first).alerts[a].status.Closed?
    requires b in Invariants.After(first + rest).alerts && Invariants.After(first + rest).alerts[b].status.Closed?
    requires SameSubject(Invariants.After(first).alerts[a], Invariants.After(first + rest).alerts[b])
    ensures a == b
  {
    LaterGrows(first, rest);
    Invariants.Reached(first + rest);
    var later := Invariants.After(first + rest).alerts;
    assert Growth.AlertGrows(Invariants.After(first).alerts[a], later[a]);
    assert SafetyAlerts.SameSlot(later[a], later[b]);
  }

  /** And every attempt to close one fails on the constraint, for good. */
  lemma NeverClosesAgain(first: seq<Op>, rest: seq<Op>, a: Uuid, op: Op)
    requires a in Invariants.After(first).alerts && Invariants.After(first).alerts[a].status.Closed?
    requires op.CloseAlertOp? && op.id in Invariants.After(first + rest).alerts
    requires SameSubject(Invariants.After(first).alerts[a], Invariants.After(first + rest).alerts[op.id])
    requires !Invariants.After(first + rest).alerts[op.id].status.Closed?
    ensures Transact(Invariants.After(first + rest), op) == Err(Failed)
    ensures Exec(Invariants.After(first + rest), op) == Invariants.After(first + rest)
  {
    LaterGrows(first, rest);
    var later := Invariants.After(first + rest);
    assert Growth.AlertGrows(Invariants.After(first).alerts[a], later.alerts[a]);
    assert SafetyAlerts.Taken(later.alerts, op.id, AlertStatus.Closed);
    SafetyAlerts.CloseAlertExact(later, op);
  }
}
