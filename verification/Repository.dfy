/**
 What each SQL statement of the repository does to the database: the guards of its WHERE clause, the
 uniqueness, foreign key and CHECK constraints of the schema, and the rows it writes. A statement that
 fails leaves no database behind, because the enclosing transaction is rolled back.
 */
module Repository {
  import opened Basics
  import opened Status
  import opened Tables

  // ---------- drone_missions and mission_drones ----------

  predicate MissionCodeFree(missions: Missions, code: string) {
    forall m :: m in missions ==> missions[m].code != code
  }

  function InsertMission(db: Database, id: Uuid, row: Mission): (r: Result<Database>) {
    var guard := id !in db.missions && MissionCodeFree(db.missions, row.code);
    :- Need(guard, Conflict);
    :- Need(row.createdBy in db.operators && row.startsAt < row.endsAt, Conflict);
    Ok(db.(missions := db.missions[id := row]))
  }

  function AdvanceMission(db: Database, id: Uuid, status: MissionStatus, version: int): (r: Result<Database>) {
    var guard := id in db.missions && db.missions[id].version == version;
    :- Need(guard, Conflict);
    Ok(db.(missions := db.missions[id := db.missions[id].(status := status, version := version + 1)]))
  }

  /** What the driver can send as an integer; beyond that it fails by itself, with no error of the server. */
  predicate FitsInt4(n: int) {
    -MAX_INT32 - 1 <= n <= MAX_INT32
  }

  predicate DroneCodeFree(drones: Drones, mission: Uuid, code: string) {
    forall d :: d in drones ==> drones[d].missionId != mission || drones[d].code != code
  }

  function InsertDrone(db: Database, id: Uuid, row: Drone): (r: Result<Database>) {
    var encodable := FitsInt4(row.required);
    :- Need(encodable, Failed);
    :- Need(id !in db.drones && row.missionId in db.missions && 0 < row.required, Conflict);
    :- Need(DroneCodeFree(db.drones, row.missionId, row.code), Conflict);
    Ok(db.(drones := db.drones[id := row]))
  }

  predicate DroneOfMission(db: Database, mission: Uuid, drone: Uuid) {
    drone in db.drones && db.drones[drone].missionId == mission
  }

  // ---------- drone_tasks ----------

  predicate TaskCodeFree(tasks: Tasks, code: string) {
    forall t :: t in tasks ==> tasks[t].code != code
  }

  function InsertTask(db: Database, id: Uuid, row: Task): (r: Result<Database>) {
    var guard := id !in db.tasks && TaskCodeFree(db.tasks, row.code);
    :- Need(guard, Conflict);
    :- Need(row.missionId in db.missions && row.droneId in db.drones, Conflict);
    Ok(db.(tasks := db.tasks[id := row]))
  }

  /**
   The version-guarded move. Completing also takes one unit of the drone's quota in the same statement
   and fails when none is left.
   */
  function MoveTask(db: Database, id: Uuid, status: TaskStatus, version: int, now: Time): (r: Result<Database>) {
    var guard := id in db.tasks && db.tasks[id].version == version;
    :- Need(guard, Conflict);
    var task := db.tasks[id];
    if status.Completed? then
      :- Need(task.droneId in db.drones, Conflict);
      var drone := db.drones[task.droneId];
      :- Need(drone.completed < drone.required, Conflict);
      Ok(db.(tasks := db.tasks[id := task.(status := status, version := version + 1, completedAt := Some(now))],
             drones := db.drones[task.droneId := drone.(completed := drone.completed + 1)]))
    else
      var acceptedAt := if status.Accepted? then Some(now) else task.acceptedAt;
      Ok(db.(tasks := db.tasks[id := task.(status := status, version := version + 1, acceptedAt := acceptedAt)]))
  }

  function InsertTransfer(db: Database, id: Uuid, row: Transfer): (r: Result<Database>) {
    var guard := id !in db.transfers && row.taskId in db.tasks;
    :- Need(guard, Conflict);
    :- Need(row.toOperator in db.operators, Conflict);
    :- Need(row.fromOperator.Some? ==> row.fromOperator.value in db.operators, Conflict);
    Ok(db.(transfers := db.transfers[id := row]))
  }

  // ---------- mission_batches and mission_batch_tasks ----------

  predicate BatchCodeFree(batches: Batches, code: string) {
    forall b :: b in batches ==> batches[b].code != code
  }

  function InsertBatch(
    db: Database, id: Uuid, code: string, flightMethod: string, capacity: int): (r: Result<Database>)
  {
    var encodable := FitsInt4(capacity);
    :- Need(encodable, Failed);
    :- Need(id !in db.batches && BatchCodeFree(db.batches, code) && 0 < capacity, Conflict);
    Ok(db.(batches := db.batches[id := Batch(code, BatchStatus.Queued, flightMethod, capacity, None, None, 1)]))
  }

  /** One turn of the attach loop: the link, then the guarded move to in_progress. */
  function AttachTask(db: Database, batch: Uuid, id: Uuid, now: Time): (r: Result<Database>) {
    var guard := Link(batch, id) !in db.links && batch in db.batches && id in db.tasks;
    :- Need(guard, Conflict);
    :- Need(db.tasks[id].status.Accepted? && now <= db.tasks[id].expiresAt, InvalidTransition);
    Ok(db.(links := db.links + {Link(batch, id)},
           tasks := db.tasks[id := db.tasks[id].(
             status := TaskStatus.InProgress, version := db.tasks[id].version + 1)]))
  }

  function AttachTasks(db: Database, batch: Uuid, ids: seq<Uuid>, now: Time): (r: Result<Database>)
    decreases |ids|
  {
    if ids == [] then Ok(db)
    else
      var next :- AttachTask(db, batch, ids[0], now);
      AttachTasks(next, batch, ids[1..], now)
  }

  predicate HasTelemetry(telemetry: Events, batch: Uuid) {
    exists e :: e in telemetry && telemetry[e].batchId == batch
  }

  /** Some telemetry row of the pair has been reviewed. */
  predicate Reviewed(telemetry: Events, batch: Uuid, task: Uuid) {
    exists e ::
      e in telemetry && telemetry[e].batchId == batch && telemetry[e].taskId == task && !telemetry[e].status.Pending?
  }

  /** The tasks after a batch is cancelled: those it held in progress are accepted again. */
  function Restored(tasks: Tasks, links: set<Link>, batch: Uuid): Tasks {
    map t | t in tasks ::
      if Link(batch, t) in links && tasks[t].status.InProgress?
      then tasks[t].(status := TaskStatus.Accepted, version := tasks[t].version + 1)
      else tasks[t]
  }

  function CancelBatch(db: Database, id: Uuid, version: int, now: Time): (r: Result<Database>) {
    var guard := id in db.batches && db.batches[id].version == version && db.batches[id].status.Open();
    :- Need(guard, Conflict);
    :- Need(!HasTelemetry(db.telemetry, id), Conflict);
    Ok(db.(batches := db.batches[id := db.batches[id].(
             status := BatchStatus.Cancelled, version := version + 1, completedAt := Some(now))],
           tasks := Restored(db.tasks, db.links, id)))
  }

  function StartBatch(db: Database, id: Uuid, version: int, now: Time): (r: Result<Database>) {
    var guard := id in db.batches && db.batches[id].version == version && db.batches[id].status.Queued?;
    :- Need(guard, Conflict);
    Ok(db.(batches := db.batches[id := db.batches[id].(
             status := BatchStatus.Running, version := version + 1, startedAt := Some(now))]))
  }

  /** No link of the batch lacks telemetry or has a telemetry row that is still pending. */
  predicate AllReviewed(links: set<Link>, telemetry: Events, batch: Uuid) {
    forall l :: l in links && l.batch == batch ==>
      && (exists e :: e in telemetry && telemetry[e].batchId == batch && telemetry[e].taskId == l.task)
      && (forall e :: e in telemetry && telemetry[e].batchId == batch && telemetry[e].taskId == l.task ==>
            !telemetry[e].status.Pending?)
  }

  function CompleteBatch(db: Database, id: Uuid, version: int, now: Time): (r: Result<Database>) {
    var guard := id in db.batches && db.batches[id].version == version && db.batches[id].status.Running?;
    :- Need(guard, Conflict);
    :- Need(AllReviewed(db.links, db.telemetry, id), Conflict);
    Ok(db.(batches := db.batches[id := db.batches[id].(
             status := BatchStatus.Completed, version := version + 1, completedAt := Some(now))]))
  }

  // ---------- telemetry_events ----------

  predicate PairFree(telemetry: Events, task: Uuid, batch: Uuid) {
    forall e :: e in telemetry ==> telemetry[e].taskId != task || telemetry[e].batchId != batch
  }

  /** The smallest score that no longer fits numeric(18,6). */
  const SCORE_LIMIT: real := 999_999_999_999.9999995

  function InsertTelemetry(db: Database, id: Uuid, row: Telemetry): (r: Result<Database>) {
    var guard := id !in db.telemetry && PairFree(db.telemetry, row.taskId, row.batchId);
    :- Need(guard, Conflict);
    :- Need(row.taskId in db.tasks && row.batchId in db.batches && row.recordedBy in db.operators, Conflict);
    :- Need(0.0 <= row.riskScore < SCORE_LIMIT && 0.0 <= row.alertThreshold < SCORE_LIMIT, Conflict);
    Ok(db.(telemetry := db.telemetry[id := row]))
  }

  function ReviewTelemetry(db: Database, id: Uuid, accepted: bool, version: int, now: Time): (r: Result<Database>) {
    var guard := id in db.telemetry && db.telemetry[id].status.Pending? && db.telemetry[id].version == version;
    :- Need(guard, Conflict);
    var status := if accepted then TelemetryStatus.Verified else TelemetryStatus.Rejected;
    Ok(db.(telemetry := db.telemetry[id := db.telemetry[id].(
             status := status, reviewedAt := Some(now), version := version + 1)]))
  }

  // ---------- safety_alerts ----------

  /** UNIQUE (drone_task_id, kind, status). */
  predicate AlertSlotFree(alerts: Alerts, task: Uuid, kind: AlertKind, status: AlertStatus) {
    forall a :: a in alerts ==> alerts[a].taskId != task || alerts[a].kind != kind || alerts[a].status != status
  }

  function InsertAlert(
    db: Database, id: Uuid, task: Uuid, kind: AlertKind, reason: string, dueAt: Time): (r: Result<Database>)
  {
    var guard := id !in db.alerts && task in db.tasks && AlertSlotFree(db.alerts, task, kind, AlertStatus.Open);
    :- Need(guard, Conflict);
    Ok(db.(alerts := db.alerts[id := Alert(task, kind, AlertStatus.Open, reason, dueAt, None)]))
  }

  /** A uniqueness violation here is not mapped to a conflict by the source. */
  function StartAlert(db: Database, id: Uuid): (r: Result<Database>) {
    var guard := id in db.alerts && db.alerts[id].status.Open?;
    :- Need(guard, Conflict);
    :- Need(AlertSlotFree(db.alerts, db.alerts[id].taskId, db.alerts[id].kind, AlertStatus.InProgress), Failed);
    Ok(db.(alerts := db.alerts[id := db.alerts[id].(status := AlertStatus.InProgress)]))
  }

  function CloseAlert(db: Database, id: Uuid, now: Time): (r: Result<Database>) {
    var guard := id in db.alerts && (db.alerts[id].status.Open? || db.alerts[id].status.InProgress?);
    :- Need(guard, Conflict);
    :- Need(AlertSlotFree(db.alerts, db.alerts[id].taskId, db.alerts[id].kind, AlertStatus.Closed), Failed);
    Ok(db.(alerts := db.alerts[id := db.alerts[id].(status := AlertStatus.Closed, closedAt := Some(now))]))
  }

  // ---------- operators and audit_events ----------

  function InsertOperator(db: Database, id: Uuid, row: Operator): (r: Result<Database>) {
    var guard := id !in db.operators;
    :- Need(guard, Conflict);
    Ok(db.(operators := db.operators[id := row]))
  }

  function RenameOperator(db: Database, id: Uuid, name: string): (r: Result<Database>) {
    var guard := id in db.operators;
    :- Need(guard, NotFound);
    Ok(db.(operators := db.operators[id := db.operators[id].(name := name)]))
  }

  /** A single statement of its own, without an audit row. */
  function ChangeRole(db: Database, id: Uuid, role: Role): (r: Result<Database>) {
    var guard := id in db.operators;
    :- Need(guard, NotFound);
    Ok(db.(operators := db.operators[id := db.operators[id].(role := role)]))
  }

  predicate EventIdFree(log: seq<AuditRow>, id: Uuid) {
    forall i :: 0 <= i < |log| ==> log[i].id != id
  }

  function WriteAudit(db: Database, row: AuditRow): (r: Result<Database>) {
    var guard := EventIdFree(db.log, row.id) && (row.operator.Some? ==> row.operator.value in db.operators);
    :- Need(guard, Conflict);
    Ok(db.(log := db.log + [row]))
  }
}
