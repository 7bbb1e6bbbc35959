/** Safety alerts: one per task, kind and status; closed with a time; and one behind every rejection. */
module SafetyAlerts {
  import opened Basics
  import opened Status
  import opened Tables
  import opened Transactions
  import opened Runs
  import opened Effects
  import R = Repository

  predicate SameSlot(a: Alert, b: Alert) {
    a.taskId == b.taskId && a.kind == b.kind && a.status == b.status
  }

  /** UNIQUE (drone_task_id, kind, status). */
  ghost predicate UniqueSlots(alerts: Alerts) {
    forall a, b :: a in alerts && b in alerts && SameSlot(alerts[a], alerts[b]) ==> a == b
  }

  /** An alert is closed exactly when it has a close time. */
  ghost predicate ClosedTimed(alerts: Alerts) {
    forall a :: a in alerts ==> (alerts[a].status.Closed? <==> alerts[a].closedAt.Some?)
  }

  ghost function RejectedOf(telemetry: Events, task: Uuid): set<Uuid> {
    set e | e in telemetry && telemetry[e].taskId == task && telemetry[e].status.Rejected?
  }

  ghost function ReassessOf(alerts: Alerts, task: Uuid): set<Uuid> {
    set a | a in alerts && alerts[a].taskId == task && alerts[a].kind.Reassess?
  }

  /** Every rejection of a task is backed by a reassess alert. */
  ghost predicate Backed(telemetry: Events, alerts: Alerts) {
    forall t :: |RejectedOf(telemetry, t)| <= |ReassessOf(alerts, t)|
  }

  ghost predicate Inv(db: Database) {
    UniqueSlots(db.alerts) && ClosedTimed(db.alerts) && Backed(db.telemetry, db.alerts)
  }

  // ---------- how many alerts there can be ----------

  ghost function ReassessIn(alerts: Alerts, task: Uuid, status: AlertStatus): set<Uuid> {
    set a | a in ReassessOf(alerts, task) && alerts[a].status == status
  }

  lemma OnePerStatus(alerts: Alerts, task: Uuid, status: AlertStatus)
    requires UniqueSlots(alerts)
    ensures |ReassessIn(alerts, task, status)| <= 1
  {
    var s := ReassessIn(alerts, task, status);
    if s != {} {
      var a :| a in s;
      assert s == {a};
    }
  }

  lemma UnionSize<T>(a: set<T>, b: set<T>)
    ensures |a + b| <= |a| + |b|
  {
    assert a + b == a + (b - a);
    assert b == (b - a) + (a * b);
  }

  /** Three statuses, so at most three reassess alerts per task, ever. */
  lemma AtMostThree(alerts: Alerts, task: Uuid)
    requires UniqueSlots(alerts)
    ensures |ReassessOf(alerts, task)| <= 3
  {
    var open := ReassessIn(alerts, task, AlertStatus.Open);
    var started := ReassessIn(alerts, task, AlertStatus.InProgress);
    var closed := ReassessIn(alerts, task, AlertStatus.Closed);
    assert ReassessOf(alerts, task) == open + started + closed;
    UnionSize(open, started);
    UnionSize(open + started, closed);
    OnePerStatus(alerts, task, AlertStatus.Open);
    OnePerStatus(alerts, task, AlertStatus.InProgress);
    OnePerStatus(alerts, task, AlertStatus.Closed);
  }

  /** And so at most three rejections. */
  lemma RejectionsBounded(db: Database, task: Uuid)
    requires Inv(db)
    ensures |RejectedOf(db.telemetry, task)| <= |ReassessOf(db.alerts, task)| <= 3
  {
    AtMostThree(db.alerts, task);
  }

  // ---------- preservation ----------

  lemma OpenedKeeps(before: Alerts, after: Alerts, id: Uuid, task: Uuid, kind: AlertKind)
    requires UniqueSlots(before) && ClosedTimed(before) && AlertOpened(before, after, id, task, kind)
    ensures UniqueSlots(after) && ClosedTimed(after)
  {
  }

  lemma OpenedCounts(before: Alerts, after: Alerts, id: Uuid, task: Uuid, kind: AlertKind, t: Uuid)
    requires AlertOpened(before, after, id, task, kind)
    ensures |ReassessOf(after, t)| == |ReassessOf(before, t)| + (if kind.Reassess? && t == task then 1 else 0)
  {
    if kind.Reassess? && t == task {
      assert ReassessOf(after, t) == ReassessOf(before, t) + {id};
    } else {
      assert ReassessOf(after, t) == ReassessOf(before, t);
    }
  }

  lemma OpenAlertKeeps(db: Database, d: Database, id: Uuid, task: Uuid, kind: AlertKind)
    requires Inv(db) && OpenAlertEffect(db, d, id, task, kind)
    ensures Inv(d)
  {
    OpenedKeeps(db.alerts, d.alerts, id, task, kind);
    forall t ensures |RejectedOf(d.telemetry, t)| <= |ReassessOf(d.alerts, t)| {
      OpenedCounts(db.alerts, d.alerts, id, task, kind, t);
    }
  }

  lemma MovedKeeps(db: Database, d: Database, id: Uuid, status: AlertStatus, action: Action)
    requires Inv(db) && !status.Open? && MoveAlertEffect(db, d, id, status, action)
    ensures Inv(d)
  {
    forall t ensures ReassessOf(d.alerts, t) == ReassessOf(db.alerts, t) {}
  }

  lemma SubmittedKeeps(db: Database, d: Database, id: Uuid, task: Uuid, batch: Uuid)
    requires Inv(db) && SubmitEffect(db, d, id, task, batch)
    ensures Inv(d)
  {
    forall t ensures RejectedOf(d.telemetry, t) == RejectedOf(db.telemetry, t) {}
  }

  lemma ReviewedCounts(before: Events, after: Events, id: Uuid, task: Uuid, accepted: bool, version: int, t: Uuid)
    requires id in before && id in after && after == before[id := after[id]]
    requires ReviewedRow(before[id], after[id], task, accepted, version)
    ensures |RejectedOf(after, t)| == |RejectedOf(before, t)| + (if !accepted && t == task then 1 else 0)
  {
    if !accepted && t == task {
      assert RejectedOf(after, t) == RejectedOf(before, t) + {id};
    } else {
      assert RejectedOf(after, t) == RejectedOf(before, t);
    }
  }

  lemma ReviewKeeps(
    db: Database, d: Database, req: Request, id: Uuid, task: Uuid, accepted: bool, version: int, taskVersion: int)
    requires Inv(db) && ReviewEffect(db, d, req, id, task, accepted, version, taskVersion)
    ensures Inv(d)
  {
    if !accepted {
      OpenedKeeps(db.alerts, d.alerts, req.uuid(0), task, Reassess);
    }
    forall t ensures |RejectedOf(d.telemetry, t)| <= |ReassessOf(d.alerts, t)| {
      ReviewedCounts(db.telemetry, d.telemetry, id, task, accepted, version, t);
      if !accepted { OpenedCounts(db.alerts, d.alerts, req.uuid(0), task, Reassess, t); }
    }
  }

  ghost predicate TouchesAlerts(op: Op) {
    op.SubmitOp? || op.ReviewOp? || op.OpenAlertOp? || op.StartAlertOp? || op.CloseAlertOp?
  }

  lemma AlertOpsKeep(db: Database, d: Database, op: Op)
    requires Inv(db) && Effect(db, d, op) && (op.OpenAlertOp? || op.StartAlertOp? || op.CloseAlertOp?)
    ensures Inv(d)
  {
    match op
    case OpenAlertOp(req, input) => OpenAlertKeeps(db, d, req.uuid(0), input.taskId, input.kind.value);
    case StartAlertOp(_, id) => MovedKeeps(db, d, id, AlertStatus.InProgress, Start);
    case CloseAlertOp(_, id) => MovedKeeps(db, d, id, AlertStatus.Closed, Close);
  }

  lemma TelemetryOpsKeep(db: Database, d: Database, op: Op)
    requires Inv(db) && Effect(db, d, op) && (op.SubmitOp? || op.ReviewOp?)
    ensures Inv(d)
  {
    match op
    case SubmitOp(req, input) => SubmittedKeeps(db, d, req.uuid(0), input.taskId, input.batchId);
    case ReviewOp(req, id, task, accepted, version, taskVersion) =>
      ReviewKeeps(db, d, req, id, task, accepted, version, taskVersion);
  }

  lemma OthersLeaveAlerts(db: Database, d: Database, op: Op)
    requires Effect(db, d, op) && !TouchesAlerts(op)
    ensures d.alerts == db.alerts && d.telemetry == db.telemetry
  {
  }

  lemma Kept(db: Database, d: Database, op: Op)
    requires Inv(db) && Effect(db, d, op)
    ensures Inv(d)
  {
    if op.SubmitOp? || op.ReviewOp? {
      TelemetryOpsKeep(db, d, op);
    } else if TouchesAlerts(op) {
      AlertOpsKeep(db, d, op);
    } else {
      OthersLeaveAlerts(db, d, op);
    }
  }

  /** A rejecting review that finds an open reassess alert of the task changes nothing at all. */
  lemma RejectionNeedsItsAlert(db: Database, op: Op)
    requires op.ReviewOp? && !op.accepted
    requires exists a :: a in db.alerts && db.alerts[a].taskId == op.taskId && db.alerts[a].kind.Reassess?
              && db.alerts[a].status.Open?
    ensures Exec(db, op) == db
  {
    assert !R.AlertSlotFree(db.alerts, op.taskId, Reassess, AlertStatus.Open);
    if Succeeds(db, op) {
      HasEffect(db, op);
    }
  }

  lemma LongerLogFree(log: seq<AuditRow>, row: AuditRow, id: Uuid)
    ensures R.EventIdFree(log + [row], id) <==> R.EventIdFree(log, id) && row.id != id
  {
    var longer := log + [row];
    if R.EventIdFree(longer, id) {
      assert longer[|log|] == row;
      forall i | 0 <= i < |log| ensures log[i].id != id { assert longer[i] == log[i]; }
    }
  }

  /** The alert and the two audit rows of a rejection. */
  lemma RejectionRowsExact(db: Database, req: Request, id: Uuid, task: Uuid)
    requires task in db.tasks
    ensures OpenReassessment(db, req, task).Ok?
              && Audit(OpenReassessment(db, req, task).value, req, req.uuid(2), TelemetryRecord, id, Review).Ok?
       <==> && req.uuid(0) !in db.alerts && R.AlertSlotFree(db.alerts, task, Reassess, AlertStatus.Open)
            && AuditAccepted(db, req, req.uuid(1)) && AuditAccepted(db, req, req.uuid(2)) && req.uuid(1) != req.uuid(2)
  {
    var row := AuditRow(req.uuid(1), req.requestId, req.operator, SafetyAlert, req.uuid(0), OpenAlert);
    LongerLogFree(db.log, row, req.uuid(2));
  }

  /** A rejecting review goes through if and only if row, task and alert are all as it needs them. */
  lemma RejectionExact(db: Database, op: Op)
    requires op.ReviewOp? && !op.accepted
    ensures Succeeds(db, op) <==>
              && !op.req.commit.Refused?
              && op.id in db.telemetry && db.telemetry[op.id].taskId == op.taskId
              && db.telemetry[op.id].status.Pending? && db.telemetry[op.id].version == op.version
              && op.taskId in db.tasks && db.tasks[op.taskId].version == op.taskVersion
              && op.req.uuid(0) !in db.alerts && R.AlertSlotFree(db.alerts, op.taskId, Reassess, AlertStatus.Open)
              && AuditAccepted(db, op.req, op.req.uuid(1)) && AuditAccepted(db, op.req, op.req.uuid(2))
              && op.req.uuid(1) != op.req.uuid(2)
  {
    var reviewed := R.ReviewTelemetry(db, op.id, false, op.version, op.req.clock(0));
    if reviewed.Ok? {
      var moved := R.MoveTask(reviewed.value, op.taskId, TaskStatus.Rejected, op.taskVersion, op.req.clock(1));
      if moved.Ok? {
        RejectionRowsExact(moved.value, op.req, op.id, op.taskId);
      }
    }
  }

  // ---------- starting and closing ----------

  /** Another alert of the same task and kind has the status. */
  ghost predicate Taken(alerts: Alerts, id: Uuid, status: AlertStatus)
    requires id in alerts
  {
    exists other :: && other in alerts && other != id && alerts[other].taskId == alerts[id].taskId
                    && alerts[other].kind == alerts[id].kind && alerts[other].status == status
  }

  lemma TakenExactly(alerts: Alerts, id: Uuid, status: AlertStatus)
    requires id in alerts && alerts[id].status != status
    ensures Taken(alerts, id, status) <==> !R.AlertSlotFree(alerts, alerts[id].taskId, alerts[id].kind, status)
  {
  }

  /**
   Starting fails on the uniqueness constraint, which is no conflict to the caller, exactly when another such alert is
   started.
   */
  lemma StartAlertExact(db: Database, op: Op)
    requires op.StartAlertOp?
    ensures var movable := op.id in db.alerts && db.alerts[op.id].status.Open?;
            && (Transact(db, op) == Err(Failed) <==> movable && Taken(db.alerts, op.id, AlertStatus.InProgress))
            && (Transact(db, op).Ok? <==>
                  && movable && !Taken(db.alerts, op.id, AlertStatus.InProgress)
                  && AuditAccepted(db, op.req, op.req.uuid(0)))
            && (Transact(db, op).Ok? || Transact(db, op) == Err(Failed) || Transact(db, op) == Err(Conflict))
  {
    if op.id in db.alerts && db.alerts[op.id].status.Open? {
      TakenExactly(db.alerts, op.id, AlertStatus.InProgress);
    }
  }

  /** The same for closing an open or started alert of a task that has a closed one of the kind. */
  lemma CloseAlertExact(db: Database, op: Op)
    requires op.CloseAlertOp?
    ensures var movable := op.id in db.alerts && (db.alerts[op.id].status.Open? || db.alerts[op.id].status.InProgress?);
            && (Transact(db, op) == Err(Failed) <==> movable && Taken(db.alerts, op.id, AlertStatus.Closed))
            && (Transact(db, op).Ok? <==>
                  movable && !Taken(db.alerts, op.id, AlertStatus.Closed) && AuditAccepted(db, op.req, op.req.uuid(0)))
            && (Transact(db, op).Ok? || Transact(db, op) == Err(Failed) || Transact(db, op) == Err(Conflict))
  {
    if op.id in db.alerts && !db.alerts[op.id].status.Closed? {
      TakenExactly(db.alerts, op.id, AlertStatus.Closed);
    }
  }
}
