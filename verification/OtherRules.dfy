/** When operations on operators, missions and alerts take effect, and exactly what they leave. */
module OtherRules {
  import opened Basics
  import opened Status
  import opened Tables
  import opened Text
  import opened Transactions
  import opened Runs
  import opened Effects
  import TaskRules
  import R = Repository

  // ---------- operators ----------

  /** The audit row may already name the operator that is being registered. */
  ghost predicate Registrable(db: Database, req: Request, name: string) {
    && !Blank(name) && req.uuid(0) !in db.operators
    && (forall i :: 0 <= i < |db.log| ==> db.log[i].id != req.uuid(1))
    && (req.operator.Some? ==> req.operator.value in db.operators || req.operator.value == req.uuid(0))
  }

  lemma RegisterDecides(db: Database, req: Request, name: string, role: Role)
    ensures RegisterOperator(db, req, name, role).Ok? <==> Registrable(db, req, name)
    ensures RegisterOperator(db, req, name, role).Ok? ==>
              RegisterOperator(db, req, name, role).value == db.(
                operators := db.operators[req.uuid(0) := Operator(name, role)],
                log := TaskRules.WithRow(db, req, req.uuid(1), FleetOperator, req.uuid(0), Create))
  {
  }

  lemma RegisterExact(db: Database, op: Op)
    requires op.RegisterOperatorOp?
    ensures Succeeds(db, op) <==> !op.req.commit.Refused? && Registrable(db, op.req, op.name)
    ensures Succeeds(db, op) ==>
              Exec(db, op) == db.(
                operators := db.operators[op.req.uuid(0) := Operator(op.name, op.role)],
                log := TaskRules.WithRow(db, op.req, op.req.uuid(1), FleetOperator, op.req.uuid(0), Create))
  {
    RegisterDecides(db, op.req, op.name, op.role);
  }

  /** Neither blank nor longer than 80 bytes without the white space around it. */
  ghost predicate NameOk(name: string) {
    !Blank(name) && Utf8Length(TrimSpace(name)) <= 80
  }

  lemma RenameDecides(db: Database, req: Request, id: Uuid, name: string)
    ensures var result := RenameOperator(db, req, id, name);
            && (result.Ok? <==> id in db.operators && AuditAccepted(db, req, req.uuid(0)) && NameOk(name))
            && (result.Ok? ==> result.value == db.(
                  operators := db.operators[id := db.operators[id].(name := name)],
                  log := TaskRules.WithRow(db, req, req.uuid(0), FleetOperator, id, Rename)))
            && (result == Err(NotFound) <==> NameOk(name) && id !in db.operators)
            && (result.Err? ==> result.error in {NotFound, Conflict})
  {
  }

  lemma RenameExact(db: Database, op: Op)
    requires op.RenameOperatorOp?
    ensures Succeeds(db, op) <==>
              && !op.req.commit.Refused? && op.id in db.operators && AuditAccepted(db, op.req, op.req.uuid(0))
              && NameOk(op.name)
    ensures Succeeds(db, op) ==>
              Exec(db, op) == db.(
                operators := db.operators[op.id := db.operators[op.id].(name := op.name)],
                log := TaskRules.WithRow(db, op.req, op.req.uuid(0), FleetOperator, op.id, Rename))
  {
    RenameDecides(db, op.req, op.id, op.name);
  }

  lemma ChangeRoleExact(db: Database, op: Op)
    requires op.ChangeRoleOp?
    ensures Succeeds(db, op) <==> !op.req.commit.Refused? && op.id in db.operators
    ensures Succeeds(db, op) ==>
              Exec(db, op) == db.(operators := db.operators[op.id := db.operators[op.id].(role := op.role)])
    ensures Transact(db, op).Err? ==> Transact(db, op) == Err(NotFound)
  {
  }

  // ---------- missions ----------

  /** Schedule a draft, activate a scheduled one, close a scheduled or active one. */
  ghost predicate MayStep(status: MissionStatus, step: MissionStep) {
    || (step.ScheduleStep? && status == MissionStatus.Draft)
    || (step.ActivateStep? && status == MissionStatus.Scheduled)
    || (step.CloseStep? && (status == MissionStatus.Scheduled || status == MissionStatus.Active))
  }

  ghost predicate Advanceable(db: Database, req: Request, id: Uuid, step: MissionStep, version: int) {
    && id in db.missions && db.missions[id].version == version && MayStep(db.missions[id].status, step)
    && AuditAccepted(db, req, req.uuid(0))
  }

  ghost function Advanced(db: Database, req: Request, id: Uuid, step: MissionStep): Database
    requires id in db.missions
  {
    var (status, action) :=
      if step.ScheduleStep? then (MissionStatus.Scheduled, Schedule)
      else if step.ActivateStep? then (MissionStatus.Active, Activate)
      else (MissionStatus.Closed, Close);
    db.(missions := db.missions[id := db.missions[id].(status := status, version := db.missions[id].version + 1)],
        log := TaskRules.WithRow(db, req, req.uuid(0), DroneMission, id, action))
  }

  lemma MayStepExactly(status: MissionStatus, step: MissionStep)
    ensures status.CanMoveTo(step.Next()) <==> MayStep(status, step)
  {
  }

  lemma AdvanceMissionDecides(db: Database, req: Request, id: Uuid, step: MissionStep, version: int)
    ensures AdvanceMission(db, req, id, step, version).Ok? <==> Advanceable(db, req, id, step, version)
    ensures AdvanceMission(db, req, id, step, version).Ok? ==>
              AdvanceMission(db, req, id, step, version).value == Advanced(db, req, id, step)
  {
    if id in db.missions {
      MayStepExactly(db.missions[id].status, step);
      var moved := R.AdvanceMission(db, id, step.Next(), version);
      if moved.Ok? {
        TaskRules.AuditDecides(moved.value, req, req.uuid(0), DroneMission, id, step.Action());
      }
    }
  }

  lemma AdvanceMissionErrors(db: Database, req: Request, id: Uuid, step: MissionStep, version: int)
    ensures var result := AdvanceMission(db, req, id, step, version);
            && (result == Err(NotFound) <==> id !in db.missions)
            && (result == Err(InvalidTransition) <==> id in db.missions && !MayStep(db.missions[id].status, step))
            && (result.Err? ==> result.error in {NotFound, InvalidTransition, Conflict})
  {
    if id in db.missions {
      MayStepExactly(db.missions[id].status, step);
    }
  }

  lemma AdvanceMissionExact(db: Database, op: Op)
    requires op.AdvanceMissionOp?
    ensures Succeeds(db, op) <==>
              !op.req.commit.Refused? && Advanceable(db, op.req, op.id, op.missionStep, op.version)
    ensures Succeeds(db, op) ==> Exec(db, op) == Advanced(db, op.req, op.id, op.missionStep)
  {
    AdvanceMissionDecides(db, op.req, op.id, op.missionStep, op.version);
  }

  // ---------- alerts ----------

  /** The due date given, or three days from the first reading of the clock. */
  ghost function DueAt(req: Request, input: AlertInput): Time {
    if input.dueAt.Some? then input.dueAt.value else req.clock(0) + 72 * 3_600_000_000_000
  }

  ghost predicate SameOpen(alert: Alert, task: Uuid, kind: AlertKind) {
    alert.taskId == task && alert.kind == kind && alert.status == AlertStatus.Open
  }

  /** The check against yesterday reads the clock again when the due date was missing. */
  ghost predicate Openable(db: Database, req: Request, input: AlertInput) {
    && !Blank(input.reason) && input.kind.Some?
    && (if input.dueAt.Some? then req.clock(0) else req.clock(1)) - 24 * 3_600_000_000_000 <= DueAt(req, input)
    && input.taskId in db.tasks && req.uuid(0) !in db.alerts
    && (forall a :: a in db.alerts ==> !SameOpen(db.alerts[a], input.taskId, input.kind.value))
    && AuditAccepted(db, req, req.uuid(1))
  }

  lemma AlertInserts(db: Database, id: Uuid, task: Uuid, kind: AlertKind, reason: string, dueAt: Time)
    ensures var inserted := R.InsertAlert(db, id, task, kind, reason, dueAt);
            && (inserted.Ok? <==>
                  && task in db.tasks && id !in db.alerts
                  && (forall a :: a in db.alerts ==> !SameOpen(db.alerts[a], task, kind)))
            && (inserted.Ok? ==> inserted.value == db.(
                  alerts := db.alerts[id := Alert(task, kind, AlertStatus.Open, reason, dueAt, None)]))
            && (inserted.Err? ==> inserted.error == Conflict)
  {
  }

  lemma OpenAlertDecides(db: Database, req: Request, input: AlertInput)
    ensures var result := OpenAlertFor(db, req, input);
            && (result.Ok? <==> Openable(db, req, input))
            && (result.Ok? ==> result.value == db.(
                  alerts := db.alerts[req.uuid(0) := Alert(
                    input.taskId, input.kind.value, AlertStatus.Open, input.reason, DueAt(req, input), None)],
                  log := TaskRules.WithRow(db, req, req.uuid(1), SafetyAlert, req.uuid(0), OpenAlert)))
            && (result.Err? ==> result.error == Conflict)
  {
    if input.kind.Some? {
      AlertInserts(db, req.uuid(0), input.taskId, input.kind.value, input.reason, DueAt(req, input));
    }
  }

  lemma OpenAlertExact(db: Database, op: Op)
    requires op.OpenAlertOp?
    ensures Succeeds(db, op) <==> !op.req.commit.Refused? && Openable(db, op.req, op.alert)
    ensures Succeeds(db, op) ==>
              Exec(db, op) == db.(
                alerts := db.alerts[op.req.uuid(0) := Alert(
                  op.alert.taskId, op.alert.kind.value, AlertStatus.Open, op.alert.reason, DueAt(op.req, op.alert),
                  None)],
                log := TaskRules.WithRow(db, op.req, op.req.uuid(1), SafetyAlert, op.req.uuid(0), OpenAlert))
  {
    OpenAlertDecides(db, op.req, op.alert);
  }

  /** Starting leaves the close time; closing stamps it. */
  lemma AlertMovesLeave(db: Database, op: Op)
    requires (op.StartAlertOp? || op.CloseAlertOp?) && Succeeds(db, op)
    ensures op.id in db.alerts
    ensures op.StartAlertOp? ==>
              Exec(db, op) == db.(
                alerts := db.alerts[op.id := db.alerts[op.id].(status := AlertStatus.InProgress)],
                log := TaskRules.WithRow(db, op.req, op.req.uuid(0), SafetyAlert, op.id, Start))
    ensures op.CloseAlertOp? ==>
              Exec(db, op) == db.(
                alerts := db.alerts[op.id := db.alerts[op.id].(
                  status := AlertStatus.Closed, closedAt := Some(op.req.clock(0)))],
                log := TaskRules.WithRow(db, op.req, op.req.uuid(0), SafetyAlert, op.id, Close))
  {
  }
}
