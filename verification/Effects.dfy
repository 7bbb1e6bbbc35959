/**
 The net effect of each operation on the tables, in closed form: which rows it found and exactly what it
 left behind. The invariants are proved from these, not from the statement lists.
 */
module Effects {
  import opened Basics
  import opened Status
  import opened Tables
  import opened Transactions
  import opened Runs
  import R = Repository
  import ExpirySpec

  /** The schema accepts an audit row: its identifier is new and its operator, if any, registered. */
  ghost predicate AuditAccepted(db: Database, req: Request, event: Uuid) {
    && (forall i :: 0 <= i < |db.log| ==> db.log[i].id != event)
    && (req.operator.Some? ==> req.operator.value in db.operators)
  }

  /** One audit row was appended. */
  ghost predicate Logged(
    before: seq<AuditRow>, after: seq<AuditRow>, objectType: ObjectType, objectId: Uuid, action: Action)
  {
    && |after| == |before| + 1
    && after[..|before|] == before
    && after[|before|].objectType == objectType && after[|before|].objectId == objectId
    && after[|before|].action == action
  }

  // ---------- missions and drones ----------

  /** New drones of a mission, none of them with completions; the old ones as they were. */
  ghost predicate DronesAdded(before: Drones, after: Drones, mission: Uuid) {
    && (forall d :: d in before ==> d in after && after[d] == before[d])
    && (forall d :: d in after && d !in before ==>
          after[d].missionId == mission && after[d].completed == 0 < after[d].required)
  }

  ghost predicate CreateMissionEffect(db: Database, d: Database, req: Request) {
    var id := req.uuid(0);
    && id !in db.missions && id in d.missions
    && d.missions[id].status.Draft? && d.missions[id].version == 1
    && DronesAdded(db.drones, d.drones, id)
    && Logged(db.log, d.log, DroneMission, id, Create)
    && d == db.(missions := db.missions[id := d.missions[id]], drones := d.drones, log := d.log)
  }

  lemma InsertDronesAdds(db: Database, mission: Uuid, drones: seq<DroneInput>, uuid: nat -> Uuid, k: nat)
    requires InsertDrones(db, mission, drones, uuid, k).Ok?
    ensures var d := InsertDrones(db, mission, drones, uuid, k).value;
            d == db.(drones := d.drones) && DronesAdded(db.drones, d.drones, mission)
    decreases |drones|
  {
    if drones != [] {
      var row := Drone(mission, drones[0].code, drones[0].roomLabel, drones[0].required, 0);
      InsertDronesAdds(R.InsertDrone(db, uuid(k), row).value, mission, drones[1..], uuid, k + 1);
    }
  }

  lemma CreateMissionHasEffect(db: Database, req: Request, input: MissionInput)
    requires CreateMission(db, req, input).Ok?
    ensures CreateMissionEffect(db, CreateMission(db, req, input).value, req)
  {
    var db1 := R.InsertMission(db, req.uuid(0), DraftMission(input)).value;
    InsertDronesAdds(db1, req.uuid(0), input.drones, req.uuid, 1);
  }

  ghost predicate AdvanceMissionEffect(db: Database, d: Database, id: Uuid, step: MissionStep, version: int) {
    && id in db.missions && db.missions[id].version == version
    && db.missions[id].status.CanMoveTo(step.Next())
    && Logged(db.log, d.log, DroneMission, id, step.Action())
    && d == db.(missions := db.missions[id := db.missions[id].(status := step.Next(), version := version + 1)],
         log := d.log)
  }

  lemma AdvanceMissionHasEffect(db: Database, req: Request, id: Uuid, step: MissionStep, version: int)
    requires AdvanceMission(db, req, id, step, version).Ok?
    ensures AdvanceMissionEffect(db, AdvanceMission(db, req, id, step, version).value, id, step, version)
  {
  }

  // ---------- tasks ----------

  /** New queued tasks, each on a drone of its mission; the old ones as they were. */
  ghost predicate TasksAdded(drones: Drones, before: Tasks, after: Tasks) {
    && (forall t :: t in before ==> t in after && after[t] == before[t])
    && (forall t :: t in after && t !in before ==>
          && after[t].status.Queued? && after[t].completedAt.None? && after[t].acceptedAt.None? && after[t].version == 1
          && after[t].droneId in drones && drones[after[t].droneId].missionId == after[t].missionId)
  }

  ghost predicate CreateTasksEffect(db: Database, d: Database, objectType: ObjectType, objectId: Uuid, action: Action) {
    && TasksAdded(db.drones, db.tasks, d.tasks)
    && Logged(db.log, d.log, objectType, objectId, action)
    && d == db.(tasks := d.tasks, log := d.log)
  }

  lemma CreateTaskHasEffect(db: Database, req: Request, input: TaskInput)
    requires CreateTask(db, req, input).Ok?
    ensures CreateTasksEffect(db, CreateTask(db, req, input).value, DroneTask, req.uuid(0), Create)
  {
  }

  lemma InsertQueuedTasksAdds(db: Database, inputs: seq<TaskInput>, uuid: nat -> Uuid, k: nat)
    requires InsertQueuedTasks(db, inputs, uuid, k).Ok?
    ensures var d := InsertQueuedTasks(db, inputs, uuid, k).value;
            d == db.(tasks := d.tasks) && TasksAdded(db.drones, db.tasks, d.tasks)
    decreases |inputs|
  {
    if inputs != [] {
      InsertQueuedTasksAdds(InsertQueuedTask(db, uuid(k), inputs[0]).value, inputs[1..], uuid, k + 1);
    }
  }

  lemma CreateTasksHasEffect(db: Database, req: Request, inputs: seq<TaskInput>)
    requires CreateTasks(db, req, inputs).Ok?
    ensures CreateTasksEffect(db, CreateTasks(db, req, inputs).value, TaskBulk, inputs[0].missionId, CreateBulk)
  {
    InsertQueuedTasksAdds(db, inputs, req.uuid, 0);
  }

  ghost predicate CompleteTaskEffect(db: Database, d: Database, id: Uuid, version: int) {
    && id in db.tasks && db.tasks[id].version == version && db.tasks[id].status.Queued?
    && var task := db.tasks[id];
    && task.droneId in db.drones && db.drones[task.droneId].completed < db.drones[task.droneId].required
    && id in d.tasks && d.tasks[id].completedAt.Some?
    && Logged(db.log, d.log, DroneTask, id, Complete)
    && d == db.(
         tasks := db.tasks[id := task.(
           status := TaskStatus.Completed, version := version + 1, completedAt := d.tasks[id].completedAt)],
         drones := db.drones[task.droneId := db.drones[task.droneId].(
           completed := db.drones[task.droneId].completed + 1)],
         log := d.log)
  }

  lemma CompleteTaskHasEffect(db: Database, req: Request, id: Uuid, version: int)
    requires CompleteTask(db, req, id, version).Ok?
    ensures CompleteTaskEffect(db, CompleteTask(db, req, id, version).value, id, version)
  {
  }

  /** One task moved by a version check; nothing is said about the status it left. */
  ghost predicate TaskMoved(before: Tasks, after: Tasks, id: Uuid, status: TaskStatus, version: int) {
    && id in before && before[id].version == version && id in after
    && after == before[id := before[id].(status := status, version := version + 1, acceptedAt := after[id].acceptedAt)]
    && (if status.Accepted? then after[id].acceptedAt.Some? else after[id].acceptedAt == before[id].acceptedAt)
  }

  ghost predicate MoveTaskEffect(
    db: Database, d: Database, id: Uuid, status: TaskStatus, version: int, action: Action)
  {
    && TaskMoved(db.tasks, d.tasks, id, status, version)
    && Logged(db.log, d.log, DroneTask, id, action)
    && d == db.(tasks := d.tasks, log := d.log)
  }

  lemma ArchiveTaskHasEffect(db: Database, req: Request, id: Uuid, version: int)
    requires ArchiveTask(db, req, id, version).Ok?
    ensures MoveTaskEffect(db, ArchiveTask(db, req, id, version).value, id, TaskStatus.Archived, version, Archive)
  {
  }

  /** The task moved, and one transfer record about it; an accept takes its time from that record. */
  ghost predicate TransferEffect(db: Database, d: Database, id: Uuid, way: Transferred, input: Transfer, version: int) {
    && TaskMoved(db.tasks, d.tasks, input.taskId, way.Next(), version)
    && (way.TransferIn? ==> d.tasks[input.taskId].acceptedAt == Some(input.recordedAt))
    && Logged(db.log, d.log, DroneTask, input.taskId, way.Action())
    && id !in db.transfers
    && d == db.(tasks := d.tasks, transfers := db.transfers[id := input], log := d.log)
  }

  lemma TransferTaskHasEffect(db: Database, req: Request, way: Transferred, input: Transfer, version: int)
    requires TransferTask(db, req, way, input, version).Ok?
    ensures TransferEffect(db, TransferTask(db, req, way, input, version).value, req.uuid(0), way, input, version)
  {
  }

  // ---------- batches ----------

  ghost function TakenUp(tasks: Tasks, ids: seq<Uuid>): Tasks {
    map t | t in tasks ::
      if t in ids then tasks[t].(status := TaskStatus.InProgress, version := tasks[t].version + 1) else tasks[t]
  }

  ghost function LinksOf(batch: Uuid, ids: seq<Uuid>): set<Link> {
    set t | t in ids :: Link(batch, t)
  }

  ghost predicate Ready(tasks: Tasks, id: Uuid, now: Time) {
    id in tasks && tasks[id].status.Accepted? && now <= tasks[id].expiresAt
  }

  /** Attaching succeeds exactly on distinct, accepted, unexpired tasks that the batch does not hold yet. */
  ghost predicate Attachable(db: Database, batch: Uuid, ids: seq<Uuid>, now: Time) {
    && Distinct(ids)
    && forall i :: 0 <= i < |ids| ==>
         batch in db.batches && Link(batch, ids[i]) !in db.links && Ready(db.tasks, ids[i], now)
  }

  /** The loop takes up all of the tasks or fails, and it fails exactly when one of them is not attachable. */
  lemma {:induction false} AttachTasksExact(db: Database, batch: Uuid, ids: seq<Uuid>, now: Time)
    ensures R.AttachTasks(db, batch, ids, now).Ok? <==> Attachable(db, batch, ids, now)
    ensures R.AttachTasks(db, batch, ids, now).Ok? ==>
              R.AttachTasks(db, batch, ids, now).value
                == db.(links := db.links + LinksOf(batch, ids), tasks := TakenUp(db.tasks, ids))
    decreases |ids|
  {
    if ids == [] {
      assert TakenUp(db.tasks, ids) == db.tasks;
      assert db.links + LinksOf(batch, ids) == db.links;
    } else if R.AttachTask(db, batch, ids[0], now).Ok? {
      var next := R.AttachTask(db, batch, ids[0], now).value;
      AttachTasksExact(next, batch, ids[1..], now);
      AttachableStep(db, next, batch, ids, now);
      if Attachable(db, batch, ids, now) {
        AttachedStep(db, next, batch, ids);
      }
    }
  }

  lemma AttachableStep(db: Database, next: Database, batch: Uuid, ids: seq<Uuid>, now: Time)
    requires ids != [] && R.AttachTask(db, batch, ids[0], now) == Ok(next)
    ensures Attachable(next, batch, ids[1..], now) <==> Attachable(db, batch, ids, now)
  {
    var rest := ids[1..];
    if Attachable(next, batch, rest, now) {
      forall i | 0 <= i < |ids| ensures Link(batch, ids[i]) !in db.links && Ready(db.tasks, ids[i], now) {
        if i > 0 { assert ids[i] == rest[i - 1]; }
      }
      forall i, j | 0 <= i < j < |ids| ensures ids[i] != ids[j] {
        assert ids[j] == rest[j - 1];
        if i > 0 { assert ids[i] == rest[i - 1]; }
      }
    }
  }

  lemma AttachedStep(db: Database, next: Database, batch: Uuid, ids: seq<Uuid>)
    requires ids != [] && Distinct(ids) && ids[0] in db.tasks
    requires next.tasks == TakenUp(db.tasks, [ids[0]]) && next.links == db.links + {Link(batch, ids[0])}
    ensures TakenUp(next.tasks, ids[1..]) == TakenUp(db.tasks, ids)
    ensures next.links + LinksOf(batch, ids[1..]) == db.links + LinksOf(batch, ids)
  {
    forall t ensures t in ids <==> t == ids[0] || t in ids[1..] {}
    assert ids[0] !in ids[1..];
    assert LinksOf(batch, ids) == LinksOf(batch, ids[1..]) + {Link(batch, ids[0])};
  }

  ghost predicate CreateBatchEffect(db: Database, d: Database, id: Uuid, ids: seq<Uuid>) {
    && id !in db.batches && id in d.batches && ids != []
    && d.batches[id].status.Queued? && d.batches[id].version == 1 && |ids| <= d.batches[id].capacity
    && d.batches[id].startedAt.None? && d.batches[id].completedAt.None?
    && Distinct(ids)
    && (forall i :: 0 <= i < |ids| ==>
          Link(id, ids[i]) !in db.links && ids[i] in db.tasks && db.tasks[ids[i]].status.Accepted?)
    && Logged(db.log, d.log, MissionBatch, id, Create)
    && d == db.(batches := db.batches[id := d.batches[id]], links := db.links + LinksOf(id, ids),
                tasks := TakenUp(db.tasks, ids), log := d.log)
  }

  lemma CreateBatchHasEffect(db: Database, req: Request, input: BatchInput, ids: seq<Uuid>)
    requires CreateBatch(db, req, input, ids).Ok?
    ensures CreateBatchEffect(db, CreateBatch(db, req, input, ids).value, req.uuid(0), ids)
  {
    var db1 := R.InsertBatch(db, req.uuid(0), input.code, input.flightMethod, input.capacity).value;
    AttachTasksExact(db1, req.uuid(0), ids, req.databaseNow);
  }

  /** Starting stamps the start; completing and cancelling stamp the end. */
  ghost predicate BatchStepped(before: Batch, after: Batch, step: BatchStep) {
    && after == before.(status := step.Next(), version := before.version + 1,
                        startedAt := after.startedAt, completedAt := after.completedAt)
    && (if step.StartStep? then after.startedAt.Some? else after.startedAt == before.startedAt)
    && (if step.StartStep? then after.completedAt == before.completedAt else after.completedAt.Some?)
  }

  ghost predicate ChangeBatchEffect(db: Database, d: Database, id: Uuid, step: BatchStep, version: int) {
    && id in db.batches && db.batches[id].version == version && db.batches[id].status.CanMoveTo(step.Next())
    && (step.CompleteStep? ==> R.AllReviewed(db.links, db.telemetry, id))
    && (step.CancelStep? ==> !R.HasTelemetry(db.telemetry, id))
    && id in d.batches && BatchStepped(db.batches[id], d.batches[id], step)
    && Logged(db.log, d.log, MissionBatch, id, step.Action())
    && d == db.(batches := db.batches[id := d.batches[id]],
                tasks := if step.CancelStep? then R.Restored(db.tasks, db.links, id) else db.tasks, log := d.log)
  }

  lemma ChangeBatchHasEffect(db: Database, req: Request, id: Uuid, step: BatchStep, version: int)
    requires ChangeBatch(db, req, id, step, version).Ok?
    ensures ChangeBatchEffect(db, ChangeBatch(db, req, id, step, version).value, id, step, version)
  {
  }

  // ---------- telemetry ----------

  ghost predicate SubmitEffect(db: Database, d: Database, id: Uuid, task: Uuid, batch: Uuid) {
    && id !in db.telemetry && id in d.telemetry
    && Attached(db, batch, task) && db.tasks[task].status.InProgress? && db.batches[batch].status.Running?
    && R.PairFree(db.telemetry, task, batch)
    && d.telemetry[id].taskId == task && d.telemetry[id].batchId == batch
    && d.telemetry[id].status.Pending? && d.telemetry[id].version == 1 && d.telemetry[id].reviewedAt.None?
    && Logged(db.log, d.log, TelemetryRecord, id, Record)
    && d == db.(telemetry := db.telemetry[id := d.telemetry[id]], log := d.log)
  }

  lemma SubmitHasEffect(db: Database, req: Request, input: ObservationInput)
    requires SubmitObservation(db, req, input).Ok?
    ensures SubmitEffect(db, SubmitObservation(db, req, input).value, req.uuid(0), input.taskId, input.batchId)
  {
  }

  /** A telemetry row before and after its review. */
  ghost predicate ReviewedRow(before: Telemetry, after: Telemetry, task: Uuid, accepted: bool, version: int) {
    && before.status.Pending? && before.version == version && before.taskId == task
    && after.reviewedAt.Some?
    && after == before.(status := if accepted then TelemetryStatus.Verified else TelemetryStatus.Rejected,
                        reviewedAt := after.reviewedAt, version := version + 1)
  }

  /** A rejection opened a reassess alert; an acceptance opened none. */
  ghost predicate AlertOpened(before: Alerts, after: Alerts, id: Uuid, task: Uuid, kind: AlertKind) {
    && id !in before && id in after
    && R.AlertSlotFree(before, task, kind, AlertStatus.Open)
    && after == before[id := after[id]]
    && after[id].taskId == task && after[id].kind == kind && after[id].status.Open? && after[id].closedAt.None?
  }

  ghost predicate ReviewEffect(
    db: Database, d: Database, req: Request, id: Uuid, task: Uuid, accepted: bool, version: int, taskVersion: int)
  {
    && id in db.telemetry && id in d.telemetry && task in db.tasks
    && ReviewedRow(db.telemetry[id], d.telemetry[id], task, accepted, version)
    && TaskMoved(db.tasks, d.tasks, task, if accepted then TaskStatus.Verified else TaskStatus.Rejected, taskVersion)
    && (accepted ==>
          && d.alerts == db.alerts
          && Logged(db.log, d.log, TelemetryRecord, id, Review))
    && (!accepted ==>
          && AlertOpened(db.alerts, d.alerts, req.uuid(0), task, Reassess)
          && |d.log| == |db.log| + 2
          && Logged(db.log, d.log[..|db.log| + 1], SafetyAlert, req.uuid(0), OpenAlert)
          && Logged(d.log[..|db.log| + 1], d.log, TelemetryRecord, id, Review))
    && d == db.(telemetry := db.telemetry[id := d.telemetry[id]], tasks := d.tasks, alerts := d.alerts, log := d.log)
  }

  lemma ReassessmentHasEffect(db: Database, req: Request, task: Uuid)
    requires OpenReassessment(db, req, task).Ok?
    ensures var d := OpenReassessment(db, req, task).value;
            && AlertOpened(db.alerts, d.alerts, req.uuid(0), task, Reassess)
            && Logged(db.log, d.log, SafetyAlert, req.uuid(0), OpenAlert)
            && d == db.(alerts := d.alerts, log := d.log)
  {
  }

  lemma ReviewHasEffect(
    db: Database, req: Request, id: Uuid, task: Uuid, accepted: bool, version: int, taskVersion: int)
    requires ReviewObservation(db, req, id, task, accepted, version, taskVersion).Ok?
    ensures var d := ReviewObservation(db, req, id, task, accepted, version, taskVersion).value;
            ReviewEffect(db, d, req, id, task, accepted, version, taskVersion)
  {
    var d := ReviewObservation(db, req, id, task, accepted, version, taskVersion).value;
    var db1 := R.ReviewTelemetry(db, id, accepted, version, req.clock(0)).value;
    var next := if accepted then TaskStatus.Verified else TaskStatus.Rejected;
    var db2 := R.MoveTask(db1, task, next, taskVersion, req.clock(1)).value;
    if !accepted {
      ReassessmentHasEffect(db2, req, task);
      var db3 := OpenReassessment(db2, req, task).value;
      assert d.log[..|db.log| + 1] == db3.log;
    }
  }

  // ---------- alerts, operators, expiry ----------

  ghost predicate OpenAlertEffect(db: Database, d: Database, id: Uuid, task: Uuid, kind: AlertKind) {
    && task in db.tasks
    && AlertOpened(db.alerts, d.alerts, id, task, kind)
    && Logged(db.log, d.log, SafetyAlert, id, OpenAlert)
    && d == db.(alerts := d.alerts, log := d.log)
  }

  lemma OpenAlertHasEffect(db: Database, req: Request, input: AlertInput)
    requires OpenAlertFor(db, req, input).Ok?
    ensures input.kind.Some?
    ensures OpenAlertEffect(db, OpenAlertFor(db, req, input).value, req.uuid(0), input.taskId, input.kind.value)
  {
  }

  /** An alert moved on to a status no other alert of its task and kind has. */
  ghost predicate MoveAlertEffect(db: Database, d: Database, id: Uuid, status: AlertStatus, action: Action) {
    && id in db.alerts && id in d.alerts && d.alerts[id].status == status
    && (db.alerts[id].status.Open? || (status.Closed? && db.alerts[id].status.InProgress?))
    && R.AlertSlotFree(db.alerts, db.alerts[id].taskId, db.alerts[id].kind, status)
    && d.alerts[id] == db.alerts[id].(status := status, closedAt := d.alerts[id].closedAt)
    && (if status.Closed? then d.alerts[id].closedAt.Some? else d.alerts[id].closedAt == db.alerts[id].closedAt)
    && Logged(db.log, d.log, SafetyAlert, id, action)
    && d == db.(alerts := db.alerts[id := d.alerts[id]], log := d.log)
  }

  lemma StartAlertHasEffect(db: Database, req: Request, id: Uuid)
    requires StartAlert(db, req, id).Ok?
    ensures MoveAlertEffect(db, StartAlert(db, req, id).value, id, AlertStatus.InProgress, Start)
  {
  }

  lemma CloseAlertHasEffect(db: Database, req: Request, id: Uuid)
    requires CloseAlert(db, req, id).Ok?
    ensures MoveAlertEffect(db, CloseAlert(db, req, id).value, id, AlertStatus.Closed, Close)
  {
  }

  ghost predicate RegisterEffect(db: Database, d: Database, id: Uuid) {
    && Logged(db.log, d.log, FleetOperator, id, Create)
    && id !in db.operators && id in d.operators
    && d == db.(operators := db.operators[id := d.operators[id]], log := d.log)
  }

  lemma RegisterHasEffect(db: Database, req: Request, name: string, role: Role)
    requires RegisterOperator(db, req, name, role).Ok?
    ensures RegisterEffect(db, RegisterOperator(db, req, name, role).value, req.uuid(0))
  {
  }

  /** A registered operator rewritten; who is registered stays the same. */
  ghost predicate OperatorChanged(db: Database, d: Database, id: Uuid) {
    id in db.operators && id in d.operators && d.operators == db.operators[id := d.operators[id]]
  }

  ghost predicate RenameEffect(db: Database, d: Database, id: Uuid, name: string) {
    && OperatorChanged(db, d, id) && d.operators[id] == db.operators[id].(name := name)
    && Logged(db.log, d.log, FleetOperator, id, Rename)
    && d == db.(operators := d.operators, log := d.log)
  }

  lemma RenameHasEffect(db: Database, req: Request, id: Uuid, name: string)
    requires RenameOperator(db, req, id, name).Ok?
    ensures RenameEffect(db, RenameOperator(db, req, id, name).value, id, name)
  {
  }

  ghost predicate RoleEffect(db: Database, d: Database, id: Uuid, role: Role) {
    && OperatorChanged(db, d, id) && d.operators[id] == db.operators[id].(role := role)
    && d == db.(operators := d.operators)
  }

  lemma RoleHasEffect(db: Database, id: Uuid, role: Role)
    requires R.ChangeRole(db, id, role).Ok?
    ensures RoleEffect(db, R.ChangeRole(db, id, role).value, id, role)
  {
  }

  /** The live tasks among the ids, rejected. */
  ghost function RejectedLive(tasks: Tasks, ids: seq<Uuid>): Tasks {
    map t | t in tasks ::
      if t in ids && tasks[t].status.Live()
      then tasks[t].(status := TaskStatus.Rejected, version := tasks[t].version + 1)
      else tasks[t]
  }

  /** Rows appended by the expiry worker only. */
  ghost predicate WorkerRows(before: seq<AuditRow>, after: seq<AuditRow>) {
    && |before| <= |after| && after[..|before|] == before
    && forall i :: |before| <= i < |after| ==> after[i].objectType.WorkerTask?
  }

  ghost predicate ExpireEffect(db: Database, d: Database, ids: seq<Uuid>) {
    && WorkerRows(db.log, d.log)
    && d == db.(tasks := RejectedLive(db.tasks, ids), log := d.log)
  }

  lemma {:induction false} ExpireRowsEffect(s: ExpirySpec.Sweep, req: Request, ids: seq<Uuid>)
    requires ExpirySpec.ExpireRows(s, req, ids).Ok?
    ensures ExpireEffect(s.db, ExpirySpec.ExpireRows(s, req, ids).value.db, ids)
    decreases |ids|
  {
    if ids == [] {
      assert RejectedLive(s.db.tasks, ids) == s.db.tasks;
    } else {
      var next := ExpirySpec.ExpireRow(s, req, ids[0]).value;
      ExpireRowsEffect(next, req, ids[1..]);
      RejectedStep(s.db.tasks, next.db.tasks, ids);
      assert WorkerRows(s.db.log, next.db.log);
      WorkerRowsCompose(s.db.log, next.db.log, ExpirySpec.ExpireRows(s, req, ids).value.db.log);
    }
  }

  lemma RejectedStep(before: Tasks, next: Tasks, ids: seq<Uuid>)
    requires ids != [] && next == RejectedLive(before, [ids[0]])
    ensures RejectedLive(next, ids[1..]) == RejectedLive(before, ids)
  {
    forall t ensures t in ids <==> t == ids[0] || t in ids[1..] {}
  }

  lemma WorkerRowsCompose(a: seq<AuditRow>, b: seq<AuditRow>, c: seq<AuditRow>)
    requires WorkerRows(a, b) && WorkerRows(b, c)
    ensures WorkerRows(a, c)
  {
    assert c[..|a|] == c[..|b|][..|a|];
    forall i | |a| <= i < |c| ensures c[i].objectType.WorkerTask? {
      if i < |b| { assert c[i] == c[..|b|][i]; }
    }
  }

  // ---------- all of them ----------

  ghost predicate Effect(db: Database, d: Database, op: Op) {
    match op
    case RegisterOperatorOp(req, _, _) => RegisterEffect(db, d, req.uuid(0))
    case RenameOperatorOp(_, id, name) => RenameEffect(db, d, id, name)
    case ChangeRoleOp(_, id, role) => RoleEffect(db, d, id, role)
    case CreateMissionOp(req, _) => CreateMissionEffect(db, d, req)
    case AdvanceMissionOp(_, id, step, version) => AdvanceMissionEffect(db, d, id, step, version)
    case CreateTaskOp(req, _) => CreateTasksEffect(db, d, DroneTask, req.uuid(0), Create)
    case CreateTasksOp(_, inputs) => inputs != [] && CreateTasksEffect(db, d, TaskBulk, inputs[0].missionId, CreateBulk)
    case CompleteTaskOp(_, id, version) => CompleteTaskEffect(db, d, id, version)
    case ArchiveTaskOp(_, id, version) => MoveTaskEffect(db, d, id, TaskStatus.Archived, version, Archive)
    case TransferTaskOp(req, way, input, version) => TransferEffect(db, d, req.uuid(0), way, input, version)
    case CreateBatchOp(req, _, ids) => CreateBatchEffect(db, d, req.uuid(0), ids)
    case ChangeBatchOp(_, id, step, version) => ChangeBatchEffect(db, d, id, step, version)
    case SubmitOp(req, input) => SubmitEffect(db, d, req.uuid(0), input.taskId, input.batchId)
    case ReviewOp(req, id, task, accepted, version, taskVersion) =>
      ReviewEffect(db, d, req, id, task, accepted, version, taskVersion)
    case OpenAlertOp(req, input) =>
      input.kind.Some? && OpenAlertEffect(db, d, req.uuid(0), input.taskId, input.kind.value)
    case StartAlertOp(_, id) => MoveAlertEffect(db, d, id, AlertStatus.InProgress, Start)
    case CloseAlertOp(_, id) => MoveAlertEffect(db, d, id, AlertStatus.Closed, Close)
    case ExpireOp(_, ids) => ExpireEffect(db, d, ids)
  }

  /** Every operation that succeeds has its effect, and nothing else. */
  lemma HasEffect(db: Database, op: Op)
    requires Succeeds(db, op)
    ensures Effect(db, Exec(db, op), op)
  {
    match op
    case RegisterOperatorOp(req, name, role) => RegisterHasEffect(db, req, name, role);
    case RenameOperatorOp(req, id, name) => RenameHasEffect(db, req, id, name);
    case ChangeRoleOp(_, id, role) => RoleHasEffect(db, id, role);
    case CreateMissionOp(req, input) => CreateMissionHasEffect(db, req, input);
    case AdvanceMissionOp(req, id, step, version) => AdvanceMissionHasEffect(db, req, id, step, version);
    case CreateTaskOp(req, input) => CreateTaskHasEffect(db, req, input);
    case CreateTasksOp(req, inputs) => CreateTasksHasEffect(db, req, inputs);
    case CompleteTaskOp(req, id, version) => CompleteTaskHasEffect(db, req, id, version);
    case ArchiveTaskOp(req, id, version) => ArchiveTaskHasEffect(db, req, id, version);
    case TransferTaskOp(req, way, input, version) => TransferTaskHasEffect(db, req, way, input, version);
    case CreateBatchOp(req, input, ids) => CreateBatchHasEffect(db, req, input, ids);
    case ChangeBatchOp(req, id, step, version) => ChangeBatchHasEffect(db, req, id, step, version);
    case SubmitOp(req, input) => SubmitHasEffect(db, req, input);
    case ReviewOp(req, id, task, accepted, version, taskVersion) =>
      ReviewHasEffect(db, req, id, task, accepted, version, taskVersion);
    case OpenAlertOp(req, input) => OpenAlertHasEffect(db, req, input);
    case StartAlertOp(req, id) => StartAlertHasEffect(db, req, id);
    case CloseAlertOp(req, id) => CloseAlertHasEffect(db, req, id);
    case ExpireOp(req, ids) => ExpireRowsEffect(ExpirySpec.Sweep(db, 0, 0), req, ids);
  }
}
