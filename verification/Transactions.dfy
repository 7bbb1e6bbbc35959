/**
 The service operations. Each is one transaction: the request checks, then its statements in order;
 the first error abandons everything.
 */
module Transactions {
  import opened Basics
  import opened Status
  import opened Tables
  import opened Text
  import R = Repository

  /**
   What a request brings with it. `clock(k)` and `uuid(k)` are its k-th reading of the service clock and
   its k-th generated identifier; nothing is assumed about either. `databaseNow` is PostgreSQL's now(),
   constant within a transaction, and `commit` is what becomes of the final COMMIT.
   */
  datatype Request = Request(
    requestId: string, operator: Option<Uuid>, clock: nat -> Time, uuid: nat -> Uuid, databaseNow: Time,
    commit: Commit)

  /** A COMMIT takes effect and is acknowledged, takes effect while the client sees an error, or is refused. */
  datatype Commit = Acknowledged | Lost | Refused

  function Audit(db: Database, req: Request, event: Uuid, objectType: ObjectType, objectId: Uuid, action: Action):
    (r: Result<Database>)
  {
    R.WriteAudit(db, AuditRow(event, req.requestId, req.operator, objectType, objectId, action))
  }

  // ---------- operators ----------

  function RegisterOperator(db: Database, req: Request, name: string, role: Role): (r: Result<Database>) {
    var guard := !Blank(name);
    :- Need(guard, Conflict);
    var db1 :- R.InsertOperator(db, req.uuid(0), Operator(name, role));
    Audit(db1, req, req.uuid(1), FleetOperator, req.uuid(0), Create)
  }

  function RenameOperator(db: Database, req: Request, id: Uuid, name: string): (r: Result<Database>) {
    var guard := RequiredName(name);
    :- Need(guard, Conflict);
    var db1 :- R.RenameOperator(db, id, name);
    Audit(db1, req, req.uuid(0), FleetOperator, id, Rename)
  }

  // ---------- missions ----------

  datatype DroneInput = DroneInput(code: string, roomLabel: string, required: int)

  datatype MissionInput = MissionInput(
    code: string, name: string, timezone: string, zoneKnown: bool, startsAt: Time, endsAt: Time,
    createdBy: Uuid, drones: seq<DroneInput>)

  predicate DroneInputOk(drone: DroneInput) {
    !Blank(drone.code) && !Blank(drone.roomLabel) && 1 <= drone.required && BusinessCode(drone.code)
  }

  /** Every drone is well formed and no code repeats. */
  predicate DroneInputsOk(drones: seq<DroneInput>) {
    && (forall i :: 0 <= i < |drones| ==> DroneInputOk(drones[i]))
    && (forall i, j :: 0 <= i < j < |drones| ==> drones[i].code != drones[j].code)
  }

  function InsertDrones(
    db: Database, mission: Uuid, drones: seq<DroneInput>, uuid: nat -> Uuid, k: nat): (r: Result<Database>)
    decreases |drones|
  {
    if drones == [] then Ok(db)
    else
      var db1 :- R.InsertDrone(db, uuid(k), Drone(mission, drones[0].code, drones[0].roomLabel, drones[0].required, 0));
      InsertDrones(db1, mission, drones[1..], uuid, k + 1)
  }

  /** The checks before the transaction begins. */
  function MissionChecks(req: Request, input: MissionInput): Outcome {
    if input.code == "" || input.name == "" || input.drones == [] then Fail(Conflict)
    else if !(BusinessCode(input.code) && RequiredName(input.name) && input.zoneKnown) then Fail(Conflict)
    else if !DroneInputsOk(input.drones) then Fail(Conflict)
    else if input.endsAt <= input.startsAt || input.timezone == "" then Fail(Conflict)
    else if input.endsAt < req.clock(0) then Fail(Expired)
    else Pass
  }

  function DraftMission(input: MissionInput): Mission {
    Mission(
      input.code, input.name, MissionStatus.Draft, input.timezone, input.startsAt, input.endsAt, 1, input.createdBy)
  }

  function CreateMission(db: Database, req: Request, input: MissionInput): (r: Result<Database>) {
    var checks := MissionChecks(req, input);
    :- checks;
    var db1 :- R.InsertMission(db, req.uuid(0), DraftMission(input));
    var db2 :- InsertDrones(db1, req.uuid(0), input.drones, req.uuid, 1);
    Audit(db2, req, req.uuid(1 + |input.drones|), DroneMission, req.uuid(0), Create)
  }

  /** Schedule, activate and close: the status and the action that records it. */
  datatype MissionStep = ScheduleStep | ActivateStep | CloseStep {
    function Next(): MissionStatus {
      match this
      case ScheduleStep => MissionStatus.Scheduled
      case ActivateStep => MissionStatus.Active
      case CloseStep => MissionStatus.Closed
    }

    function Action(): Action {
      match this
      case ScheduleStep => Schedule
      case ActivateStep => Activate
      case CloseStep => Close
    }
  }

  function AdvanceMission(
    db: Database, req: Request, id: Uuid, step: MissionStep, version: int): (r: Result<Database>)
  {
    var guard := id in db.missions;
    :- Need(guard, NotFound);
    :- Need(db.missions[id].status.CanMoveTo(step.Next()), InvalidTransition);
    var db1 :- R.AdvanceMission(db, id, step.Next(), version);
    Audit(db1, req, req.uuid(0), DroneMission, id, step.Action())
  }

  // ---------- tasks ----------

  datatype TaskInput = TaskInput(missionId: Uuid, droneId: Uuid, code: string, expiresAt: Time)

  function InsertQueuedTask(db: Database, id: Uuid, input: TaskInput): (r: Result<Database>) {
    var guard := R.DroneOfMission(db, input.missionId, input.droneId);
    :- Need(guard, Conflict);
    R.InsertTask(db, id,
      Task(input.missionId, input.droneId, input.code, TaskStatus.Queued, None, None, input.expiresAt, 1))
  }

  function CreateTask(db: Database, req: Request, input: TaskInput): (r: Result<Database>) {
    var guard := !Blank(input.code);
    :- Need(guard, Conflict);
    :- Need(req.clock(0) <= input.expiresAt, Expired);
    :- Need(BusinessCode(input.code), Conflict);
    var db1 :- InsertQueuedTask(db, req.uuid(0), input);
    Audit(db1, req, req.uuid(1), DroneTask, req.uuid(0), Create)
  }

  function InsertQueuedTasks(db: Database, inputs: seq<TaskInput>, uuid: nat -> Uuid, k: nat): (r: Result<Database>)
    decreases |inputs|
  {
    if inputs == [] then Ok(db)
    else
      var db1 :- InsertQueuedTask(db, uuid(k), inputs[0]);
      InsertQueuedTasks(db1, inputs[1..], uuid, k + 1)
  }

  /** The first defect a left-to-right scan of the requests meets. */
  function BulkCheck(inputs: seq<TaskInput>, seen: set<string>, now: Time): Outcome {
    if inputs == [] then Pass
    else if Blank(inputs[0].code) then Fail(Conflict)
    else if inputs[0].expiresAt < now then Fail(Expired)
    else if inputs[0].code in seen then Fail(Conflict)
    else BulkCheck(inputs[1..], seen + {inputs[0].code}, now)
  }

  function CreateTasks(db: Database, req: Request, inputs: seq<TaskInput>): (r: Result<Database>) {
    var guard := inputs != [];
    :- Need(guard, Conflict);
    :- BulkCheck(inputs, {}, req.clock(0));
    var db1 :- InsertQueuedTasks(db, inputs, req.uuid, 0);
    Audit(db1, req, req.uuid(|inputs|), TaskBulk, inputs[0].missionId, CreateBulk)
  }

  function CompleteTask(db: Database, req: Request, id: Uuid, version: int): (r: Result<Database>) {
    var guard := id in db.tasks;
    :- Need(guard, NotFound);
    var task := db.tasks[id];
    :- Need(task.missionId in db.missions, NotFound);
    :- Need(db.missions[task.missionId].CanExecuteAt(req.clock(0)), InvalidTransition);
    :- Need(task.status.CanMoveTo(TaskStatus.Completed), InvalidTransition);
    :- Need(req.clock(1) <= task.expiresAt, Expired);
    var db1 :- R.MoveTask(db, id, TaskStatus.Completed, version, req.clock(2));
    Audit(db1, req, req.uuid(0), DroneTask, id, Complete)
  }

  function ArchiveTask(db: Database, req: Request, id: Uuid, version: int): (r: Result<Database>) {
    var guard := id in db.tasks;
    :- Need(guard, NotFound);
    :- Need(db.tasks[id].status.CanMoveTo(TaskStatus.Archived), InvalidTransition);
    var db1 :- R.MoveTask(db, id, TaskStatus.Archived, version, req.clock(1));
    Audit(db1, req, req.uuid(0), DroneTask, id, Archive)
  }

  datatype Transferred = TransferOut | TransferIn {
    function Next(): TaskStatus {
      if TransferOut? then TaskStatus.TransferPending else TaskStatus.Accepted
    }

    function Action(): Action {
      if TransferOut? then DeviceTransfer else Accept
    }
  }

  /** Device transfer and accept: a version check is their only guard on the task's status. */
  function TransferTask(
    db: Database, req: Request, way: Transferred, input: Transfer, version: int): (r: Result<Database>)
  {
    var db1 :- R.MoveTask(db, input.taskId, way.Next(), version, input.recordedAt);
    var db2 :- R.InsertTransfer(db1, req.uuid(0), input);
    Audit(db2, req, req.uuid(1), DroneTask, input.taskId, way.Action())
  }

  // ---------- batches ----------

  datatype BatchInput = BatchInput(code: string, flightMethod: string, capacity: int)

  function CreateBatch(db: Database, req: Request, input: BatchInput, ids: seq<Uuid>): (r: Result<Database>) {
    var guard := 0 < |ids| <= input.capacity;
    :- Need(guard, CapacityExceeded);
    :- Need(!Blank(input.code) && !Blank(input.flightMethod) && BusinessCode(input.code) && Distinct(ids), Conflict);
    var db1 :- R.InsertBatch(db, req.uuid(0), input.code, input.flightMethod, input.capacity);
    var db2 :- R.AttachTasks(db1, req.uuid(0), ids, req.databaseNow);
    Audit(db2, req, req.uuid(1), MissionBatch, req.uuid(0), Create)
  }

  datatype BatchStep = StartStep | CompleteStep | CancelStep {
    function Next(): BatchStatus {
      match this
      case StartStep => BatchStatus.Running
      case CompleteStep => BatchStatus.Completed
      case CancelStep => BatchStatus.Cancelled
    }

    function Action(): Action {
      match this
      case StartStep => Start
      case CompleteStep => Complete
      case CancelStep => Cancel
    }
  }

  function ChangeBatchRow(db: Database, id: Uuid, step: BatchStep, version: int, now: Time): (r: Result<Database>) {
    match step
    case StartStep => R.StartBatch(db, id, version, now)
    case CompleteStep => R.CompleteBatch(db, id, version, now)
    case CancelStep => R.CancelBatch(db, id, version, now)
  }

  function ChangeBatch(db: Database, req: Request, id: Uuid, step: BatchStep, version: int): (r: Result<Database>) {
    var db1 :- ChangeBatchRow(db, id, step, version, req.databaseNow);
    Audit(db1, req, req.uuid(0), MissionBatch, id, step.Action())
  }

  // ---------- telemetry ----------

  /** A score of the request; floating point also has NaN and the infinities, which are refused. */
  datatype Score = Finite(value: real) | NotFinite

  datatype ObservationInput = ObservationInput(
    taskId: Uuid, batchId: Uuid, recorder: Uuid, riskScore: Score, scale: string, alertThreshold: Score,
    observedAt: Option<Time>)

  predicate Attached(db: Database, batch: Uuid, task: Uuid) {
    Link(batch, task) in db.links && batch in db.batches && task in db.tasks
  }

  function SubmitObservation(db: Database, req: Request, input: ObservationInput): (r: Result<Database>) {
    var guard := input.observedAt.Some?;
    :- Need(guard, Conflict);
    :- Need(input.riskScore.Finite? && input.alertThreshold.Finite?, Conflict);
    :- Need(0.0 <= input.riskScore.value && 0.0 <= input.alertThreshold.value && !Blank(input.scale), Conflict);
    :- Need(Attached(db, input.batchId, input.taskId), Conflict);
    :- Need(db.tasks[input.taskId].status.InProgress? && db.batches[input.batchId].status.Running?, InvalidTransition);
    :- Need(input.recorder in db.operators, NotFound);
    :- Need(db.operators[input.recorder].CanRecordObservation(), Conflict);
    var row := Telemetry(input.taskId, input.batchId, input.recorder, TelemetryStatus.Pending, input.riskScore.value,
                         input.scale, input.alertThreshold.value, input.observedAt.value, None, 1);
    var db1 :- R.InsertTelemetry(db, req.uuid(0), row);
    Audit(db1, req, req.uuid(1), TelemetryRecord, req.uuid(0), Record)
  }

  const REASSESS_REASON := "risk score exceeded the alert threshold"

  /** An alert with its audit row. */
  function InsertAlertWithAudit(
    db: Database, req: Request, task: Uuid, kind: AlertKind, reason: string, dueAt: Time): (r: Result<Database>)
  {
    var db1 :- R.InsertAlert(db, req.uuid(0), task, kind, reason, dueAt);
    Audit(db1, req, req.uuid(1), SafetyAlert, req.uuid(0), OpenAlert)
  }

  /** The reassess alert of a rejecting review. */
  function OpenReassessment(db: Database, req: Request, task: Uuid): (r: Result<Database>) {
    InsertAlertWithAudit(db, req, task, Reassess, REASSESS_REASON, req.clock(2) + 72 * HOUR)
  }

  function ReviewObservation(
    db: Database, req: Request, id: Uuid, task: Uuid, accepted: bool, telemetryVersion: int,
    taskVersion: int): (r: Result<Database>)
  {
    var guard := id in db.telemetry;
    :- Need(guard, NotFound);
    :- Need(db.telemetry[id].taskId == task, Conflict);
    var db1 :- R.ReviewTelemetry(db, id, accepted, telemetryVersion, req.clock(0));
    var next := if accepted then TaskStatus.Verified else TaskStatus.Rejected;
    var db2 :- R.MoveTask(db1, task, next, taskVersion, req.clock(1));
    var db3 :- if accepted then Ok(db2) else OpenReassessment(db2, req, task);
    Audit(db3, req, req.uuid(if accepted then 0 else 2), TelemetryRecord, id, Review)
  }

  // ---------- safety alerts ----------

  /** `kind` is None when the text is none of the four kinds, `dueAt` when it is the zero time. */
  datatype AlertInput = AlertInput(taskId: Uuid, kind: Option<AlertKind>, reason: string, dueAt: Option<Time>)

  function OpenAlertFor(db: Database, req: Request, input: AlertInput): (r: Result<Database>) {
    var readings := if input.dueAt.None? then 1 else 0;
    var dueAt := if input.dueAt.None? then req.clock(0) + 72 * HOUR else input.dueAt.value;
    :- Need(!Blank(input.reason) && input.kind.Some?, Conflict);
    :- Need(req.clock(readings) - 24 * HOUR <= dueAt, Conflict);
    InsertAlertWithAudit(db, req, input.taskId, input.kind.value, input.reason, dueAt)
  }

  function StartAlert(db: Database, req: Request, id: Uuid): (r: Result<Database>) {
    var db1 :- R.StartAlert(db, id);
    Audit(db1, req, req.uuid(0), SafetyAlert, id, Start)
  }

  function CloseAlert(db: Database, req: Request, id: Uuid): (r: Result<Database>) {
    var db1 :- R.CloseAlert(db, id, req.clock(0));
    Audit(db1, req, req.uuid(0), SafetyAlert, id, Close)
  }
}
