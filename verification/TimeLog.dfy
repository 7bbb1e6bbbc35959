/** Accept, completion and start times are there exactly when the log has the action that stamps them. */
module TimeLog {
  import opened Basics
  import opened Status
  import opened Tables
  import opened Transactions
  import opened Runs
  import opened Effects
  import AuditLog
  import Growth
  import Invariants
  import Quota
  import Transfers

  /** The actions that stamp a time. */
  ghost predicate Stamping(ty: ObjectType, action: Action) {
    (ty.DroneTask? && (action.Accept? || action.Complete?)) || (ty.MissionBatch? && action.Start?)
  }

  ghost predicate InLog(log: seq<AuditRow>, ty: ObjectType, x: Uuid, action: Action) {
    action in AuditLog.History(log, ty, x)
  }

  ghost predicate HasAccept(tasks: Tasks, t: Uuid) {
    t in tasks && tasks[t].acceptedAt.Some?
  }

  ghost predicate HasCompletion(tasks: Tasks, t: Uuid) {
    t in tasks && tasks[t].completedAt.Some?
  }

  ghost predicate TasksTimed(tasks: Tasks, log: seq<AuditRow>) {
    forall t ::
      && (HasAccept(tasks, t) <==> InLog(log, DroneTask, t, Accept))
      && (HasCompletion(tasks, t) <==> InLog(log, DroneTask, t, Complete))
  }

  ghost predicate BatchesTimed(batches: Batches, log: seq<AuditRow>) {
    forall b :: HasStart(batches, b) <==> InLog(log, MissionBatch, b, Start)
  }

  ghost predicate Timed(db: Database) {
    TasksTimed(db.tasks, db.log) && BatchesTimed(db.batches, db.log)
  }

  // ---------- the log ----------

  /** The stamping action an operation appends. */
  ghost predicate Appends(op: Op, ty: ObjectType, x: Uuid, action: Action) {
    match op
    case CompleteTaskOp(_, id, _) => ty.DroneTask? && x == id && action.Complete?
    case TransferTaskOp(_, way, input, _) => ty.DroneTask? && x == input.taskId && action == way.Action()
    case ChangeBatchOp(_, id, step, _) => ty.MissionBatch? && x == id && action == step.Action()
    case _ => false
  }

  lemma LoggedInLog(
    before: seq<AuditRow>, after: seq<AuditRow>, objectType: ObjectType, id: Uuid, logged: Action, ty: ObjectType,
    x: Uuid, action: Action)
    requires Logged(before, after, objectType, id, logged)
    ensures InLog(after, ty, x, action) <==>
              InLog(before, ty, x, action) || (ty == objectType && x == id && action == logged)
  {
    AuditLog.LoggedHistory(before, after, objectType, id, logged, ty, x);
  }

  ghost predicate AboutWork(op: Op) {
    || op.CreateTaskOp? || op.CreateTasksOp? || op.CompleteTaskOp? || op.ArchiveTaskOp? || op.TransferTaskOp?
    || op.CreateBatchOp? || op.ChangeBatchOp?
  }

  lemma WorkLogged(db: Database, d: Database, op: Op, ty: ObjectType, x: Uuid, action: Action)
    requires Effect(db, d, op) && Stamping(ty, action) && AboutWork(op)
    ensures InLog(d.log, ty, x, action) <==> InLog(db.log, ty, x, action) || Appends(op, ty, x, action)
  {
    match op
    case CreateTaskOp(req, _) => LoggedInLog(db.log, d.log, DroneTask, req.uuid(0), Create, ty, x, action);
    case CreateTasksOp(_, inputs) =>
      LoggedInLog(db.log, d.log, TaskBulk, inputs[0].missionId, CreateBulk, ty, x, action);
    case CompleteTaskOp(_, id, _) => LoggedInLog(db.log, d.log, DroneTask, id, Complete, ty, x, action);
    case ArchiveTaskOp(_, id, _) => LoggedInLog(db.log, d.log, DroneTask, id, Archive, ty, x, action);
    case TransferTaskOp(_, way, input, _) =>
      LoggedInLog(db.log, d.log, DroneTask, input.taskId, way.Action(), ty, x, action);
    case CreateBatchOp(req, _, _) => LoggedInLog(db.log, d.log, MissionBatch, req.uuid(0), Create, ty, x, action);
    case ChangeBatchOp(_, id, step, _) => LoggedInLog(db.log, d.log, MissionBatch, id, step.Action(), ty, x, action);
  }

  lemma OthersLogged(db: Database, d: Database, op: Op, ty: ObjectType, x: Uuid, action: Action)
    requires Effect(db, d, op) && Stamping(ty, action) && !AboutWork(op)
    ensures InLog(d.log, ty, x, action) <==> InLog(db.log, ty, x, action)
  {
    match op
    case RegisterOperatorOp(req, _, _) => LoggedInLog(db.log, d.log, FleetOperator, req.uuid(0), Create, ty, x, action);
    case RenameOperatorOp(_, id, _) => LoggedInLog(db.log, d.log, FleetOperator, id, Rename, ty, x, action);
    case ChangeRoleOp(_, _, _) =>
    case CreateMissionOp(req, _) => LoggedInLog(db.log, d.log, DroneMission, req.uuid(0), Create, ty, x, action);
    case AdvanceMissionOp(_, id, step, _) => LoggedInLog(db.log, d.log, DroneMission, id, step.Action(), ty, x, action);
    case SubmitOp(req, _) => LoggedInLog(db.log, d.log, TelemetryRecord, req.uuid(0), Record, ty, x, action);
    case ReviewOp(req, id, task, accepted, version, taskVersion) =>
      AuditLog.ReviewHistories(db, d, req, id, task, accepted, version, taskVersion, ty, x);
    case OpenAlertOp(req, _) => LoggedInLog(db.log, d.log, SafetyAlert, req.uuid(0), OpenAlert, ty, x, action);
    case StartAlertOp(_, id) => LoggedInLog(db.log, d.log, SafetyAlert, id, Start, ty, x, action);
    case CloseAlertOp(_, id) => LoggedInLog(db.log, d.log, SafetyAlert, id, Close, ty, x, action);
    case ExpireOp(_, _) => AuditLog.WorkerHistory(db.log, d.log, ty, x);
  }

  lemma LogStep(db: Database, d: Database, op: Op, ty: ObjectType, x: Uuid, action: Action)
    requires Effect(db, d, op) && Stamping(ty, action)
    ensures InLog(d.log, ty, x, action) <==> InLog(db.log, ty, x, action) || Appends(op, ty, x, action)
  {
    if AboutWork(op) {
      WorkLogged(db, d, op, ty, x, action);
    } else {
      OthersLogged(db, d, op, ty, x, action);
    }
  }

  // ---------- the tables ----------

  lemma AcceptStep(db: Database, d: Database, op: Op, t: Uuid)
    requires Effect(db, d, op) && Growth.TasksGrow(db.tasks, d.tasks)
    ensures HasAccept(d.tasks, t) <==> HasAccept(db.tasks, t) || Appends(op, DroneTask, t, Accept)
  {
    if !op.TransferTaskOp? {
      Transfers.OthersAcceptNothing(db, d, op);
    }
    if HasAccept(db.tasks, t) { assert Growth.TaskGrows(db.tasks[t], d.tasks[t]); }
  }

  /** Only completing a task stamps a completion time. */
  lemma OthersCompleteNothing(db: Database, d: Database, op: Op, t: Uuid)
    requires Effect(db, d, op) && !op.CompleteTaskOp? && HasCompletion(d.tasks, t)
    ensures HasCompletion(db.tasks, t)
  {
    if !Quota.CreatesOrCompletes(op) {
      Quota.OthersMoveStatuses(db, d, op);
    }
  }

  lemma CompletionStep(db: Database, d: Database, op: Op, t: Uuid)
    requires Effect(db, d, op) && Growth.TasksGrow(db.tasks, d.tasks)
    ensures HasCompletion(d.tasks, t) <==> HasCompletion(db.tasks, t) || Appends(op, DroneTask, t, Complete)
  {
    if !op.CompleteTaskOp? && HasCompletion(d.tasks, t) {
      OthersCompleteNothing(db, d, op, t);
    }
    if HasCompletion(db.tasks, t) { assert Growth.TaskGrows(db.tasks[t], d.tasks[t]); }
  }

  lemma OneTaskStep(db: Database, d: Database, op: Op, t: Uuid)
    requires Effect(db, d, op) && Growth.TasksGrow(db.tasks, d.tasks)
    requires HasAccept(db.tasks, t) <==> InLog(db.log, DroneTask, t, Accept)
    requires HasCompletion(db.tasks, t) <==> InLog(db.log, DroneTask, t, Complete)
    ensures HasAccept(d.tasks, t) <==> InLog(d.log, DroneTask, t, Accept)
    ensures HasCompletion(d.tasks, t) <==> InLog(d.log, DroneTask, t, Complete)
  {
    AcceptStep(db, d, op, t);
    CompletionStep(db, d, op, t);
    LogStep(db, d, op, DroneTask, t, Accept);
    LogStep(db, d, op, DroneTask, t, Complete);
  }

  lemma TasksStep(db: Database, d: Database, op: Op)
    requires TasksTimed(db.tasks, db.log) && Effect(db, d, op) && Growth.TasksGrow(db.tasks, d.tasks)
    ensures TasksTimed(d.tasks, d.log)
  {
    forall t
      ensures HasAccept(d.tasks, t) <==> InLog(d.log, DroneTask, t, Accept)
      ensures HasCompletion(d.tasks, t) <==> InLog(d.log, DroneTask, t, Complete)
    {
      OneTaskStep(db, d, op, t);
    }
  }

  ghost predicate HasStart(batches: Batches, b: Uuid) {
    b in batches && batches[b].startedAt.Some?
  }

  lemma CreateBatchStart(db: Database, d: Database, id: Uuid, ids: seq<Uuid>, b: Uuid)
    requires CreateBatchEffect(db, d, id, ids)
    ensures HasStart(d.batches, b) <==> HasStart(db.batches, b)
  {
  }

  lemma ChangeBatchStart(db: Database, d: Database, id: Uuid, step: BatchStep, version: int, b: Uuid)
    requires ChangeBatchEffect(db, d, id, step, version)
    ensures HasStart(d.batches, b) <==> HasStart(db.batches, b) || (b == id && step.Action() == Start)
  {
  }

  lemma StartStep(db: Database, d: Database, op: Op, b: Uuid)
    requires Effect(db, d, op)
    ensures HasStart(d.batches, b) <==> HasStart(db.batches, b) || Appends(op, MissionBatch, b, Start)
  {
    if op.CreateBatchOp? {
      CreateBatchStart(db, d, op.req.uuid(0), op.ids, b);
    } else if op.ChangeBatchOp? {
      ChangeBatchStart(db, d, op.id, op.batchStep, op.version, b);
    } else {
      AuditLog.UnwrittenTables(db, d, op);
    }
  }

  lemma BatchesStep(db: Database, d: Database, op: Op)
    requires BatchesTimed(db.batches, db.log) && Effect(db, d, op)
    ensures BatchesTimed(d.batches, d.log)
  {
    forall b ensures HasStart(d.batches, b) <==> InLog(d.log, MissionBatch, b, Start) {
      StartStep(db, d, op, b);
      LogStep(db, d, op, MissionBatch, b, Start);
    }
  }

  // ---------- every run ----------

  lemma StepKeeps(db: Database, op: Op)
    requires Timed(db) && Quota.Timed(db.tasks)
    ensures Timed(Exec(db, op))
  {
    if Succeeds(db, op) {
      HasEffect(db, op);
      Growth.EffectGrows(db, Exec(db, op), op);
      TasksStep(db, Exec(db, op), op);
      BatchesStep(db, Exec(db, op), op);
    }
  }

  lemma {:induction false} RunKeeps(ops: seq<Op>)
    ensures Timed(Invariants.After(ops))
    decreases |ops|
  {
    if ops != [] {
      RunKeeps(ops[..|ops| - 1]);
      Invariants.Reached(ops[..|ops| - 1]);
      StepKeeps(Invariants.After(ops[..|ops| - 1]), ops[|ops| - 1]);
    }
  }

  /**
   After any run, every time column is there exactly when it should be: accept, completion and start times when
   the log has their action, end and review times when the status says so.
   */
  lemma TimesLogged(ops: seq<Op>, x: Uuid)
    ensures var db := Invariants.After(ops);
            && (x in db.tasks ==>
                  && (db.tasks[x].acceptedAt.Some? <==> Accept in AuditLog.History(db.log, DroneTask, x))
                  && (db.tasks[x].completedAt.Some? <==> Complete in AuditLog.History(db.log, DroneTask, x)))
            && (x in db.batches ==>
                  && (db.batches[x].startedAt.Some? <==> Start in AuditLog.History(db.log, MissionBatch, x))
                  && (db.batches[x].completedAt.Some? <==> !db.batches[x].status.Open()))
            && (x in db.telemetry ==> (db.telemetry[x].reviewedAt.Some? <==> !db.telemetry[x].status.Pending?))
  {
    RunKeeps(ops);
    Invariants.StampsTrue(ops);
    var db := Invariants.After(ops);
    assert HasAccept(db.tasks, x) <==> InLog(db.log, DroneTask, x, Accept);
    assert HasCompletion(db.tasks, x) <==> InLog(db.log, DroneTask, x, Complete);
    assert HasStart(db.batches, x) <==> InLog(db.log, MissionBatch, x, Start);
  }
}
