/**
 When an operation on one task takes effect and exactly what it leaves, in terms of the tables and the request
 alone; and which error it gives otherwise.
 */
module TaskRules {
  import opened Basics
  import opened Status
  import opened Tables
  import opened Text
  import opened Transactions
  import opened Runs
  import opened Effects
  import T = Transactions
  import R = Repository

  /** The log with the audit row of the request. */
  function WithRow(
    db: Database, req: Request, event: Uuid, objectType: ObjectType, id: Uuid, action: Action): seq<AuditRow>
  {
    db.log + [AuditRow(event, req.requestId, req.operator, objectType, id, action)]
  }

  /** The audit row is written exactly when it is acceptable. */
  lemma AuditDecides(
    db: Database, req: Request, event: Uuid, objectType: ObjectType, id: Uuid, action: Action)
    ensures Audit(db, req, event, objectType, id, action).Ok? <==> AuditAccepted(db, req, event)
    ensures Audit(db, req, event, objectType, id, action).Ok? ==>
              Audit(db, req, event, objectType, id, action).value
                == db.(log := WithRow(db, req, event, objectType, id, action))
  {
  }

  // ---------- creating ----------

  ghost predicate TaskCreatable(db: Database, req: Request, input: TaskInput) {
    && !Blank(input.code) && BusinessCode(input.code) && req.clock(0) <= input.expiresAt
    && input.droneId in db.drones && db.drones[input.droneId].missionId == input.missionId
    && input.missionId in db.missions
    && req.uuid(0) !in db.tasks && (forall t :: t in db.tasks ==> db.tasks[t].code != input.code)
    && AuditAccepted(db, req, req.uuid(1))
  }

  lemma CreateTaskDecides(db: Database, req: Request, input: TaskInput)
    ensures CreateTask(db, req, input).Ok? <==> TaskCreatable(db, req, input)
    ensures CreateTask(db, req, input).Ok? ==>
              CreateTask(db, req, input).value == db.(
                tasks := db.tasks[req.uuid(0) := Task(
                  input.missionId, input.droneId, input.code, TaskStatus.Queued, None, None, input.expiresAt, 1)],
                log := WithRow(db, req, req.uuid(1), DroneTask, req.uuid(0), Create))
    ensures CreateTask(db, req, input) == Err(Expired) <==> !Blank(input.code) && input.expiresAt < req.clock(0)
    ensures CreateTask(db, req, input).Err? ==> CreateTask(db, req, input).error in {Conflict, Expired}
  {
  }

  /** A task is created exactly on a drone of its mission, with a free code and a future expiry. */
  lemma CreateTaskExact(db: Database, op: Op)
    requires op.CreateTaskOp?
    ensures Succeeds(db, op) <==> !op.req.commit.Refused? && TaskCreatable(db, op.req, op.task)
    ensures Succeeds(db, op) ==>
              Exec(db, op) == db.(
                tasks := db.tasks[op.req.uuid(0) := Task(
                  op.task.missionId, op.task.droneId, op.task.code, TaskStatus.Queued, None, None, op.task.expiresAt,
                  1)],
                log := WithRow(db, op.req, op.req.uuid(1), DroneTask, op.req.uuid(0), Create))
  {
    CreateTaskDecides(db, op.req, op.task);
  }

  // ---------- completing ----------

  /** The mission is active and its window is open. */
  ghost predicate Executing(m: Mission, now: Time) {
    m.status == MissionStatus.Active && m.startsAt <= now && now < m.endsAt
  }

  ghost predicate Completable(db: Database, req: Request, id: Uuid, version: int) {
    && id in db.tasks && db.tasks[id].status == TaskStatus.Queued && db.tasks[id].version == version
    && req.clock(1) <= db.tasks[id].expiresAt
    && db.tasks[id].missionId in db.missions && Executing(db.missions[db.tasks[id].missionId], req.clock(0))
    && db.tasks[id].droneId in db.drones
    && db.drones[db.tasks[id].droneId].completed < db.drones[db.tasks[id].droneId].required
    && AuditAccepted(db, req, req.uuid(0))
  }

  ghost function Completed(db: Database, req: Request, id: Uuid): Database
    requires id in db.tasks && db.tasks[id].droneId in db.drones
  {
    var task := db.tasks[id];
    var drone := db.drones[task.droneId];
    db.(tasks := db.tasks[id := task.(
          status := TaskStatus.Completed, version := task.version + 1, completedAt := Some(req.clock(2)))],
        drones := db.drones[task.droneId := drone.(completed := drone.completed + 1)],
        log := WithRow(db, req, req.uuid(0), DroneTask, id, Complete))
  }

  lemma CompleteTaskDecides(db: Database, req: Request, id: Uuid, version: int)
    ensures CompleteTask(db, req, id, version).Ok? <==> Completable(db, req, id, version)
    ensures CompleteTask(db, req, id, version).Ok? ==>
              CompleteTask(db, req, id, version).value == Completed(db, req, id)
  {
  }

  lemma CompleteTaskErrors(db: Database, req: Request, id: Uuid, version: int)
    ensures var result := CompleteTask(db, req, id, version);
            var known := id in db.tasks && db.tasks[id].missionId in db.missions;
            var ready :=
              known && Executing(db.missions[db.tasks[id].missionId], req.clock(0)) && db.tasks[id].status.Queued?;
            && (result == Err(NotFound) <==> !known)
            && (result == Err(InvalidTransition) <==> known && !ready)
            && (result == Err(Expired) <==> ready && db.tasks[id].expiresAt < req.clock(1))
            && (result.Err? ==> result.error in {NotFound, InvalidTransition, Expired, Conflict})
  {
  }

  /** A task is completed exactly when queued and unexpired, under an executing mission, with quota left. */
  lemma CompleteTaskExact(db: Database, op: Op)
    requires op.CompleteTaskOp?
    ensures Succeeds(db, op) <==> !op.req.commit.Refused? && Completable(db, op.req, op.id, op.version)
    ensures Succeeds(db, op) ==> Exec(db, op) == Completed(db, op.req, op.id)
  {
    CompleteTaskDecides(db, op.req, op.id, op.version);
  }

  // ---------- archiving ----------

  ghost predicate Archivable(db: Database, req: Request, id: Uuid, version: int) {
    && id in db.tasks && db.tasks[id].version == version
    && (db.tasks[id].status == TaskStatus.Verified || db.tasks[id].status == TaskStatus.Rejected)
    && AuditAccepted(db, req, req.uuid(0))
  }

  lemma ArchiveTaskDecides(db: Database, req: Request, id: Uuid, version: int)
    ensures var result := ArchiveTask(db, req, id, version);
            && (result.Ok? <==> Archivable(db, req, id, version))
            && (result.Ok? ==> result.value == db.(
                  tasks := db.tasks[id := db.tasks[id].(status := TaskStatus.Archived, version := version + 1)],
                  log := WithRow(db, req, req.uuid(0), DroneTask, id, Archive)))
  {
  }

  lemma ArchiveTaskErrors(db: Database, req: Request, id: Uuid, version: int)
    ensures var result := ArchiveTask(db, req, id, version);
            && (result == Err(NotFound) <==> id !in db.tasks)
            && (result == Err(InvalidTransition) <==>
                  id in db.tasks && !(db.tasks[id].status.Verified? || db.tasks[id].status.Rejected?))
            && (result.Err? ==> result.error in {NotFound, InvalidTransition, Conflict})
  {
  }

  /** A task is archived exactly when verified or rejected; expiry does not matter. */
  lemma ArchiveTaskExact(db: Database, op: Op)
    requires op.ArchiveTaskOp?
    ensures Succeeds(db, op) <==> !op.req.commit.Refused? && Archivable(db, op.req, op.id, op.version)
    ensures Succeeds(db, op) ==>
              Exec(db, op) == db.(
                tasks := db.tasks[op.id := db.tasks[op.id].(status := TaskStatus.Archived, version := op.version + 1)],
                log := WithRow(db, op.req, op.req.uuid(0), DroneTask, op.id, Archive))
  {
    ArchiveTaskDecides(db, op.req, op.id, op.version);
  }

  // ---------- transferring ----------

  ghost predicate Transferable(db: Database, req: Request, input: Transfer, version: int) {
    && input.taskId in db.tasks && db.tasks[input.taskId].version == version
    && req.uuid(0) !in db.transfers && input.toOperator in db.operators
    && (input.fromOperator.Some? ==> input.fromOperator.value in db.operators)
    && AuditAccepted(db, req, req.uuid(1))
  }

  /** A device transfer leaves the accept time; an accept takes it from the record. */
  ghost function Handed(task: Task, way: T.Transferred, recordedAt: Time): Task {
    match way
    case TransferOut => task.(status := TaskStatus.TransferPending, version := task.version + 1)
    case TransferIn =>
      task.(status := TaskStatus.Accepted, version := task.version + 1, acceptedAt := Some(recordedAt))
  }

  ghost function Transferred(db: Database, req: Request, way: T.Transferred, input: Transfer): Database
    requires input.taskId in db.tasks
  {
    var action := if way.TransferOut? then DeviceTransfer else Accept;
    db.(tasks := db.tasks[input.taskId := Handed(db.tasks[input.taskId], way, input.recordedAt)],
        transfers := db.transfers[req.uuid(0) := input],
        log := WithRow(db, req, req.uuid(1), DroneTask, input.taskId, action))
  }

  lemma HandedDecides(db: Database, way: T.Transferred, input: Transfer, version: int)
    ensures var moved := R.MoveTask(db, input.taskId, way.Next(), version, input.recordedAt);
            && (moved.Ok? <==> input.taskId in db.tasks && db.tasks[input.taskId].version == version)
            && (moved.Ok? ==> moved.value == db.(
                  tasks := db.tasks[input.taskId := Handed(db.tasks[input.taskId], way, input.recordedAt)]))
            && (moved.Err? ==> moved.error == Conflict)
  {
  }

  lemma RecordDecides(db: Database, req: Request, input: Transfer)
    ensures var kept := R.InsertTransfer(db, req.uuid(0), input);
            && (kept.Ok? <==>
                  && req.uuid(0) !in db.transfers && input.taskId in db.tasks && input.toOperator in db.operators
                  && (input.fromOperator.Some? ==> input.fromOperator.value in db.operators))
            && (kept.Ok? ==> kept.value == db.(transfers := db.transfers[req.uuid(0) := input]))
            && (kept.Err? ==> kept.error == Conflict)
  {
  }

  lemma TransferTaskDecides(db: Database, req: Request, way: T.Transferred, input: Transfer, version: int)
    ensures var result := TransferTask(db, req, way, input, version);
            && (result.Ok? <==> Transferable(db, req, input, version))
            && (result.Ok? ==> result.value == Transferred(db, req, way, input))
            && (result.Err? ==> result.error == Conflict)
  {
    HandedDecides(db, way, input, version);
    var moved := R.MoveTask(db, input.taskId, way.Next(), version, input.recordedAt);
    if moved.Ok? {
      RecordDecides(moved.value, req, input);
    }
  }

  /** A device transfer or accept needs the version, a new record and registered operators, and no status at all. */
  lemma TransferExact(db: Database, op: Op)
    requires op.TransferTaskOp?
    ensures Succeeds(db, op) <==> !op.req.commit.Refused? && Transferable(db, op.req, op.transfer, op.version)
    ensures Succeeds(db, op) ==> Exec(db, op) == Transferred(db, op.req, op.way, op.transfer)
  {
    TransferTaskDecides(db, op.req, op.way, op.transfer, op.version);
  }
}
