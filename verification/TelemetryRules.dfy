/** When submitting and reviewing telemetry take effect, and exactly what they leave. */
module TelemetryRules {
  import opened Basics
  import opened Status
  import opened Tables
  import opened Text
  import opened Transactions
  import opened Runs
  import opened Effects
  import TaskRules
  import R = Repository

  // ---------- submitting ----------

  /** A registered operator with a name and one of the two roles that record. */
  ghost predicate MayRecord(db: Database, id: Uuid) {
    && id in db.operators && !Blank(db.operators[id].name)
    && (db.operators[id].role == TelemetryOperator || db.operators[id].role == SafetySupervisor)
  }

  ghost predicate WellFormed(input: ObservationInput) {
    && input.observedAt.Some? && input.riskScore.Finite? && input.alertThreshold.Finite?
    && 0.0 <= input.riskScore.value && 0.0 <= input.alertThreshold.value && !Blank(input.scale)
  }

  ghost predicate AttachedRunning(db: Database, input: ObservationInput) {
    && Link(input.batchId, input.taskId) in db.links && input.batchId in db.batches && input.taskId in db.tasks
    && db.tasks[input.taskId].status == TaskStatus.InProgress && db.batches[input.batchId].status == BatchStatus.Running
  }

  ghost predicate Submittable(db: Database, req: Request, input: ObservationInput) {
    && WellFormed(input) && AttachedRunning(db, input) && MayRecord(db, input.recorder)
    && input.riskScore.value < 999_999_999_999.9999995 && input.alertThreshold.value < 999_999_999_999.9999995
    && req.uuid(0) !in db.telemetry
    && (forall e :: e in db.telemetry ==>
          !(db.telemetry[e].taskId == input.taskId && db.telemetry[e].batchId == input.batchId))
    && AuditAccepted(db, req, req.uuid(1))
  }

  /** The stored row is the submitted one, field by field, pending at version 1. */
  ghost predicate StoredAs(row: Telemetry, input: ObservationInput) {
    && row.taskId == input.taskId && row.batchId == input.batchId && row.recordedBy == input.recorder
    && row.status == TelemetryStatus.Pending && row.version == 1 && row.reviewedAt == None
    && input.riskScore == Finite(row.riskScore) && input.alertThreshold == Finite(row.alertThreshold)
    && row.scale == input.scale && input.observedAt == Some(row.observedAt)
  }

  lemma SubmitDecides(db: Database, req: Request, input: ObservationInput)
    ensures var result := SubmitObservation(db, req, input);
            && (result.Ok? <==> Submittable(db, req, input))
            && (result.Ok? ==>
                  && req.uuid(0) in result.value.telemetry && StoredAs(result.value.telemetry[req.uuid(0)], input)
                  && result.value == db.(
                       telemetry := db.telemetry[req.uuid(0) := result.value.telemetry[req.uuid(0)]],
                       log := TaskRules.WithRow(db, req, req.uuid(1), TelemetryRecord, req.uuid(0), Record)))
  {
  }

  lemma SubmitErrors(db: Database, req: Request, input: ObservationInput)
    ensures var result := SubmitObservation(db, req, input);
            var attached :=
              Link(input.batchId, input.taskId) in db.links && input.batchId in db.batches && input.taskId in db.tasks;
            && (result == Err(InvalidTransition) <==> WellFormed(input) && attached && !AttachedRunning(db, input))
            && (result == Err(NotFound) <==>
                  WellFormed(input) && AttachedRunning(db, input) && input.recorder !in db.operators)
            && (result.Err? ==> result.error in {Conflict, InvalidTransition, NotFound})
  {
  }

  /** Telemetry is stored exactly for a task in progress of a running batch, once, by an operator who may record. */
  lemma SubmitExact(db: Database, op: Op)
    requires op.SubmitOp?
    ensures Succeeds(db, op) <==> !op.req.commit.Refused? && Submittable(db, op.req, op.observation)
    ensures Succeeds(db, op) ==>
              var d := Exec(db, op);
              && op.req.uuid(0) in d.telemetry && StoredAs(d.telemetry[op.req.uuid(0)], op.observation)
              && d == db.(
                   telemetry := db.telemetry[op.req.uuid(0) := d.telemetry[op.req.uuid(0)]],
                   log := TaskRules.WithRow(db, op.req, op.req.uuid(1), TelemetryRecord, op.req.uuid(0), Record))
  {
    SubmitDecides(db, op.req, op.observation);
  }

  // ---------- reviewing ----------

  /** The row is pending at its version and about the task, which is at its own; scores and statuses do not matter. */
  ghost predicate Reviewable(db: Database, id: Uuid, task: Uuid, version: int, taskVersion: int) {
    && id in db.telemetry && db.telemetry[id].taskId == task
    && db.telemetry[id].status == TelemetryStatus.Pending && db.telemetry[id].version == version
    && task in db.tasks && db.tasks[task].version == taskVersion
  }

  /** Row and task after a review of either outcome. */
  ghost function Reviewed(db: Database, req: Request, id: Uuid, task: Uuid, accepted: bool): Database
    requires id in db.telemetry && task in db.tasks
  {
    db.(telemetry := db.telemetry[id := db.telemetry[id].(
          status := if accepted then TelemetryStatus.Verified else TelemetryStatus.Rejected,
          reviewedAt := Some(req.clock(0)), version := db.telemetry[id].version + 1)],
        tasks := db.tasks[task := db.tasks[task].(
          status := if accepted then TaskStatus.Verified else TaskStatus.Rejected,
          version := db.tasks[task].version + 1)])
  }

  lemma AcceptDecides(db: Database, req: Request, id: Uuid, task: Uuid, version: int, taskVersion: int)
    ensures var result := ReviewObservation(db, req, id, task, true, version, taskVersion);
            && (result.Ok? <==> Reviewable(db, id, task, version, taskVersion) && AuditAccepted(db, req, req.uuid(0)))
            && (result.Ok? ==> result.value == Reviewed(db, req, id, task, true).(
                  log := TaskRules.WithRow(db, req, req.uuid(0), TelemetryRecord, id, Review)))
  {
  }

  /** An accepting review goes through exactly when row and task are as named. */
  lemma AcceptExact(db: Database, op: Op)
    requires op.ReviewOp? && op.accepted
    ensures Succeeds(db, op) <==>
              && !op.req.commit.Refused? && Reviewable(db, op.id, op.taskId, op.version, op.taskVersion)
              && AuditAccepted(db, op.req, op.req.uuid(0))
    ensures Succeeds(db, op) ==>
              Exec(db, op) == Reviewed(db, op.req, op.id, op.taskId, true).(
                log := TaskRules.WithRow(db, op.req, op.req.uuid(0), TelemetryRecord, op.id, Review))
  {
    AcceptDecides(db, op.req, op.id, op.taskId, op.version, op.taskVersion);
  }

  ghost predicate ReassessOpen(alert: Alert, task: Uuid) {
    alert.taskId == task && alert.kind == Reassess && alert.status == AlertStatus.Open
  }

  /** Due three days after the third reading of the clock. */
  ghost function ReassessAlert(req: Request, task: Uuid): Alert {
    Alert(task, Reassess, AlertStatus.Open, "risk score exceeded the alert threshold",
          req.clock(2) + 72 * 3_600_000_000_000, None)
  }

  ghost function AlertRow(req: Request): AuditRow {
    AuditRow(req.uuid(1), req.requestId, req.operator, SafetyAlert, req.uuid(0), OpenAlert)
  }

  /** The place of the alert is free and both audit rows are acceptable. */
  ghost predicate AlertFits(db: Database, req: Request, task: Uuid) {
    && req.uuid(0) !in db.alerts && (forall a :: a in db.alerts ==> !ReassessOpen(db.alerts[a], task))
    && AuditAccepted(db, req, req.uuid(1)) && AuditAccepted(db, req, req.uuid(2)) && req.uuid(1) != req.uuid(2)
  }

  ghost predicate Rejectable(db: Database, req: Request, id: Uuid, task: Uuid, version: int, taskVersion: int) {
    Reviewable(db, id, task, version, taskVersion) && AlertFits(db, req, task)
  }

  ghost function WithAlert(db: Database, req: Request, id: Uuid, task: Uuid): Database {
    db.(alerts := db.alerts[req.uuid(0) := ReassessAlert(req, task)],
        log := db.log + [AlertRow(req),
                         AuditRow(req.uuid(2), req.requestId, req.operator, TelemetryRecord, id, Review)])
  }

  lemma TwoRowsAccepted(db: Database, req: Request, first: AuditRow)
    requires first.id == req.uuid(1)
    ensures (AuditAccepted(db, req, req.uuid(1)) && AuditAccepted(db.(log := db.log + [first]), req, req.uuid(2)))
        <==> AuditAccepted(db, req, req.uuid(1)) && AuditAccepted(db, req, req.uuid(2)) && req.uuid(1) != req.uuid(2)
  {
    var longer := db.(log := db.log + [first]);
    assert longer.log[|db.log|] == first;
    if AuditAccepted(longer, req, req.uuid(2)) {
      forall i | 0 <= i < |db.log| ensures db.log[i].id != req.uuid(2) { assert longer.log[i] == db.log[i]; }
    }
  }

  lemma AlertInserts(db: Database, req: Request, task: Uuid)
    requires task in db.tasks
    ensures var alert := ReassessAlert(req, task);
            var inserted := R.InsertAlert(db, req.uuid(0), task, Reassess, alert.reason, alert.dueAt);
            && (inserted.Ok? <==>
                  && req.uuid(0) !in db.alerts
                  && (forall a :: a in db.alerts ==> !ReassessOpen(db.alerts[a], task)))
            && (inserted.Ok? ==> inserted.value == db.(alerts := db.alerts[req.uuid(0) := alert]))
  {
  }

  lemma AlertOpens(db: Database, req: Request, task: Uuid)
    requires task in db.tasks
    ensures OpenReassessment(db, req, task).Ok? <==>
              && req.uuid(0) !in db.alerts && AuditAccepted(db, req, req.uuid(1))
              && (forall a :: a in db.alerts ==> !ReassessOpen(db.alerts[a], task))
    ensures OpenReassessment(db, req, task).Ok? ==>
              OpenReassessment(db, req, task).value == db.(
                alerts := db.alerts[req.uuid(0) := ReassessAlert(req, task)],
                log := db.log + [AlertRow(req)])
  {
    AlertInserts(db, req, task);
    var alert := ReassessAlert(req, task);
    var inserted := R.InsertAlert(db, req.uuid(0), task, Reassess, alert.reason, alert.dueAt);
    if inserted.Ok? {
      TaskRules.AuditDecides(inserted.value, req, req.uuid(1), SafetyAlert, req.uuid(0), OpenAlert);
    }
  }

  /** The two updates of a review, which do not depend on the scores. */
  lemma RowsReviewed(
    db: Database, req: Request, id: Uuid, task: Uuid, accepted: bool, version: int, taskVersion: int)
    requires id in db.telemetry && db.telemetry[id].taskId == task
    ensures var first := R.ReviewTelemetry(db, id, accepted, version, req.clock(0));
            var next := if accepted then TaskStatus.Verified else TaskStatus.Rejected;
            && (first.Ok? && R.MoveTask(first.value, task, next, taskVersion, req.clock(1)).Ok? <==>
                  Reviewable(db, id, task, version, taskVersion))
            && (Reviewable(db, id, task, version, taskVersion) ==>
                  R.MoveTask(first.value, task, next, taskVersion, req.clock(1)).value
                    == Reviewed(db, req, id, task, accepted))
  {
  }

  /** The alert and the two audit rows that follow. */
  lemma AlertAndRows(db: Database, req: Request, id: Uuid, task: Uuid)
    requires task in db.tasks
    ensures var alerted := OpenReassessment(db, req, task);
            && (alerted.Ok? && Audit(alerted.value, req, req.uuid(2), TelemetryRecord, id, Review).Ok? <==>
                  AlertFits(db, req, task))
            && (AlertFits(db, req, task) ==>
                  Audit(alerted.value, req, req.uuid(2), TelemetryRecord, id, Review).value
                    == WithAlert(db, req, id, task))
  {
    AlertOpens(db, req, task);
    TwoRowsAccepted(db, req, AlertRow(req));
    if OpenReassessment(db, req, task).Ok? {
      TaskRules.AuditDecides(OpenReassessment(db, req, task).value, req, req.uuid(2), TelemetryRecord, id, Review);
    }
  }

  /** A rejecting review is the two updates, the alert and the audit row. */
  lemma RejectUnfolds(db: Database, req: Request, id: Uuid, task: Uuid, version: int, taskVersion: int)
    requires Reviewable(db, id, task, version, taskVersion)
    ensures var result := ReviewObservation(db, req, id, task, false, version, taskVersion);
            var alerted := OpenReassessment(Reviewed(db, req, id, task, false), req, task);
            result == if alerted.Ok? then Audit(alerted.value, req, req.uuid(2), TelemetryRecord, id, Review)
                      else alerted
  {
    RowsReviewed(db, req, id, task, false, version, taskVersion);
  }

  lemma RejectDecides(db: Database, req: Request, id: Uuid, task: Uuid, version: int, taskVersion: int)
    ensures var result := ReviewObservation(db, req, id, task, false, version, taskVersion);
            && (result.Ok? <==> Rejectable(db, req, id, task, version, taskVersion))
            && (result.Ok? ==> result.value == WithAlert(Reviewed(db, req, id, task, false), req, id, task))
  {
    if Reviewable(db, id, task, version, taskVersion) {
      RejectUnfolds(db, req, id, task, version, taskVersion);
      AlertAndRows(Reviewed(db, req, id, task, false), req, id, task);
    }
  }

  /** A rejecting review goes through exactly when its alert can be opened too, and then leaves both. */
  lemma RejectExact(db: Database, op: Op)
    requires op.ReviewOp? && !op.accepted
    ensures Succeeds(db, op) <==>
              !op.req.commit.Refused? && Rejectable(db, op.req, op.id, op.taskId, op.version, op.taskVersion)
    ensures Succeeds(db, op) ==>
              Exec(db, op) == WithAlert(Reviewed(db, op.req, op.id, op.taskId, false), op.req, op.id, op.taskId)
  {
    RejectDecides(db, op.req, op.id, op.taskId, op.version, op.taskVersion);
  }

  lemma ReviewErrors(db: Database, req: Request, id: Uuid, task: Uuid, accepted: bool, version: int, taskVersion: int)
    ensures var result := ReviewObservation(db, req, id, task, accepted, version, taskVersion);
            && (result == Err(NotFound) <==> id !in db.telemetry)
            && (result.Err? ==> result.error in {NotFound, Conflict})
  {
  }
}
