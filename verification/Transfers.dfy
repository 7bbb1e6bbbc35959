/** Device transfers: one record for every transfer action in the log, and one behind every accept time. */
module Transfers {
  import opened Basics
  import opened Status
  import opened Tables
  import opened Transactions
  import opened Runs
  import opened Effects
  import AuditLog
  import R = Repository

  type Records = map<Uuid, Transfer>

  ghost function RecordsOf(transfers: Records, task: Uuid): set<Uuid> {
    set r | r in transfers && transfers[r].taskId == task
  }

  /** The transfer and accept actions of a history. */
  ghost function Handovers(h: seq<Action>): nat {
    if h == [] then 0
    else Handovers(h[..|h| - 1]) + (if h[|h| - 1].DeviceTransfer? || h[|h| - 1].Accept? then 1 else 0)
  }

  ghost predicate Recorded(transfers: Records, log: seq<AuditRow>) {
    forall t :: |RecordsOf(transfers, t)| == Handovers(AuditLog.History(log, DroneTask, t))
  }

  ghost predicate AcceptBacked(transfers: Records, task: Uuid, at: Time) {
    exists r :: r in transfers && transfers[r].taskId == task && transfers[r].recordedAt == at
  }

  /** Every accept time was taken from a transfer record of the task. */
  ghost predicate AcceptsBacked(tasks: Tasks, transfers: Records) {
    forall t :: t in tasks && tasks[t].acceptedAt.Some? ==> AcceptBacked(transfers, t, tasks[t].acceptedAt.value)
  }

  ghost predicate Inv(db: Database) {
    Recorded(db.transfers, db.log) && AcceptsBacked(db.tasks, db.transfers)
  }

  // ---------- the log ----------

  lemma OneMoreHandover(h: seq<Action>, about: bool, action: Action)
    ensures Handovers(AuditLog.Then(h, about, action))
         == Handovers(h) + (if about && (action.DeviceTransfer? || action.Accept?) then 1 else 0)
  {
    if about {
      assert (h + [action])[..|h|] == h;
    }
  }

  lemma LoggedHandovers(
    before: seq<AuditRow>, after: seq<AuditRow>, objectType: ObjectType, id: Uuid, action: Action, t: Uuid)
    requires Logged(before, after, objectType, id, action)
    ensures Handovers(AuditLog.History(after, DroneTask, t))
         == Handovers(AuditLog.History(before, DroneTask, t))
            + (if objectType.DroneTask? && t == id && (action.DeviceTransfer? || action.Accept?) then 1 else 0)
  {
    AuditLog.LoggedHistory(before, after, objectType, id, action, DroneTask, t);
    OneMoreHandover(AuditLog.History(before, DroneTask, t), objectType.DroneTask? && t == id, action);
  }

  /** A row about something else, or another action on a task, is no handover. */
  lemma QuietRowKeeps(
    transfers: Records, before: seq<AuditRow>, after: seq<AuditRow>, objectType: ObjectType, id: Uuid, action: Action)
    requires Recorded(transfers, before) && Logged(before, after, objectType, id, action)
    requires !objectType.DroneTask? || !(action.DeviceTransfer? || action.Accept?)
    ensures Recorded(transfers, after)
  {
    forall t ensures |RecordsOf(transfers, t)| == Handovers(AuditLog.History(after, DroneTask, t)) {
      LoggedHandovers(before, after, objectType, id, action, t);
    }
  }

  lemma WorkerRowsKeep(transfers: Records, before: seq<AuditRow>, after: seq<AuditRow>)
    requires Recorded(transfers, before) && WorkerRows(before, after)
    ensures Recorded(transfers, after)
  {
    AuditLog.WorkerSame(before, after, DroneTask);
  }

  lemma ReviewRowsKeep(
    db: Database, d: Database, req: Request, id: Uuid, task: Uuid, accepted: bool, version: int, taskVersion: int)
    requires Recorded(db.transfers, db.log) && ReviewEffect(db, d, req, id, task, accepted, version, taskVersion)
    ensures Recorded(db.transfers, d.log)
  {
    if accepted {
      QuietRowKeeps(db.transfers, db.log, d.log, TelemetryRecord, id, Review);
    } else {
      var middle := d.log[..|db.log| + 1];
      QuietRowKeeps(db.transfers, db.log, middle, SafetyAlert, req.uuid(0), OpenAlert);
      QuietRowKeeps(db.transfers, middle, d.log, TelemetryRecord, id, Review);
    }
  }

  lemma RecordAdded(transfers: Records, id: Uuid, input: Transfer, t: Uuid)
    requires id !in transfers
    ensures |RecordsOf(transfers[id := input], t)| == |RecordsOf(transfers, t)| + (if t == input.taskId then 1 else 0)
  {
    if t == input.taskId {
      assert RecordsOf(transfers[id := input], t) == RecordsOf(transfers, t) + {id};
    } else {
      assert RecordsOf(transfers[id := input], t) == RecordsOf(transfers, t);
    }
  }

  lemma HandoverRecorded(db: Database, d: Database, id: Uuid, way: Transferred, input: Transfer, version: int)
    requires Recorded(db.transfers, db.log) && TransferEffect(db, d, id, way, input, version)
    ensures Recorded(d.transfers, d.log)
  {
    forall t ensures |RecordsOf(d.transfers, t)| == Handovers(AuditLog.History(d.log, DroneTask, t)) {
      LoggedHandovers(db.log, d.log, DroneTask, input.taskId, way.Action(), t);
      RecordAdded(db.transfers, id, input, t);
    }
  }

  lemma RecordedKept(db: Database, d: Database, op: Op)
    requires Recorded(db.transfers, db.log) && Effect(db, d, op)
    ensures Recorded(d.transfers, d.log)
  {
    match op
    case RegisterOperatorOp(req, _, _) =>
      QuietRowKeeps(db.transfers, db.log, d.log, FleetOperator, req.uuid(0), Create);
    case RenameOperatorOp(_, id, _) => QuietRowKeeps(db.transfers, db.log, d.log, FleetOperator, id, Rename);
    case ChangeRoleOp(_, _, _) =>
    case CreateMissionOp(req, _) => QuietRowKeeps(db.transfers, db.log, d.log, DroneMission, req.uuid(0), Create);
    case AdvanceMissionOp(_, id, step, _) =>
      QuietRowKeeps(db.transfers, db.log, d.log, DroneMission, id, step.Action());
    case CreateTaskOp(req, _) => QuietRowKeeps(db.transfers, db.log, d.log, DroneTask, req.uuid(0), Create);
    case CreateTasksOp(_, inputs) =>
      QuietRowKeeps(db.transfers, db.log, d.log, TaskBulk, inputs[0].missionId, CreateBulk);
    case CompleteTaskOp(_, id, _) => QuietRowKeeps(db.transfers, db.log, d.log, DroneTask, id, Complete);
    case ArchiveTaskOp(_, id, _) => QuietRowKeeps(db.transfers, db.log, d.log, DroneTask, id, Archive);
    case TransferTaskOp(req, way, input, version) => HandoverRecorded(db, d, req.uuid(0), way, input, version);
    case CreateBatchOp(req, _, _) => QuietRowKeeps(db.transfers, db.log, d.log, MissionBatch, req.uuid(0), Create);
    case ChangeBatchOp(_, id, step, _) => QuietRowKeeps(db.transfers, db.log, d.log, MissionBatch, id, step.Action());
    case SubmitOp(req, _) => QuietRowKeeps(db.transfers, db.log, d.log, TelemetryRecord, req.uuid(0), Record);
    case ReviewOp(req, id, task, accepted, version, taskVersion) =>
      ReviewRowsKeep(db, d, req, id, task, accepted, version, taskVersion);
    case OpenAlertOp(req, _) => QuietRowKeeps(db.transfers, db.log, d.log, SafetyAlert, req.uuid(0), OpenAlert);
    case StartAlertOp(_, id) => QuietRowKeeps(db.transfers, db.log, d.log, SafetyAlert, id, Start);
    case CloseAlertOp(_, id) => QuietRowKeeps(db.transfers, db.log, d.log, SafetyAlert, id, Close);
    case ExpireOp(_, _) => WorkerRowsKeep(db.transfers, db.log, d.log);
  }

  // ---------- accept times ----------

  /** A rewrite of the task table that brings no accept time of its own. */
  ghost predicate NoNewAccept(before: Tasks, after: Tasks) {
    forall t :: t in after && after[t].acceptedAt.Some? ==> t in before && before[t].acceptedAt == after[t].acceptedAt
  }

  lemma HandoverBacks(db: Database, d: Database, id: Uuid, way: Transferred, input: Transfer, version: int)
    requires AcceptsBacked(db.tasks, db.transfers) && TransferEffect(db, d, id, way, input, version)
    ensures AcceptsBacked(d.tasks, d.transfers)
  {
    forall t | t in d.tasks && d.tasks[t].acceptedAt.Some?
      ensures AcceptBacked(d.transfers, t, d.tasks[t].acceptedAt.value)
    {
      if t == input.taskId && way.TransferIn? {
        assert d.transfers[id].taskId == t;
      } else {
        var r :| r in db.transfers && db.transfers[r].taskId == t
          && db.transfers[r].recordedAt == db.tasks[t].acceptedAt.value;
        assert d.transfers[r] == db.transfers[r];
      }
    }
  }

  lemma MovedAcceptsNothing(before: Tasks, after: Tasks, id: Uuid, status: TaskStatus, version: int)
    requires TaskMoved(before, after, id, status, version) && !status.Accepted?
    ensures NoNewAccept(before, after)
  {
  }

  lemma BulkAcceptsNothing(tasks: Tasks, links: set<Link>, batch: Uuid, ids: seq<Uuid>)
    ensures NoNewAccept(tasks, TakenUp(tasks, ids))
    ensures NoNewAccept(tasks, RejectedLive(tasks, ids))
    ensures NoNewAccept(tasks, R.Restored(tasks, links, batch))
  {
  }

  lemma CreatedOrCompletedAcceptNothing(db: Database, d: Database, op: Op)
    requires Effect(db, d, op) && (op.CreateTaskOp? || op.CreateTasksOp? || op.CompleteTaskOp?)
    ensures NoNewAccept(db.tasks, d.tasks)
  {
  }

  ghost predicate AboutTasks(op: Op) {
    || op.CreateTaskOp? || op.CreateTasksOp? || op.CompleteTaskOp? || op.ArchiveTaskOp? || op.CreateBatchOp?
    || op.ChangeBatchOp? || op.SubmitOp? || op.ReviewOp?
  }

  lemma TaskOpsRecordNothing(db: Database, d: Database, op: Op)
    requires Effect(db, d, op) && AboutTasks(op)
    ensures d.transfers == db.transfers
  {
  }

  /** Only a transfer writes a record. */
  lemma OthersRecordNothing(db: Database, d: Database, op: Op)
    requires Effect(db, d, op) && !op.TransferTaskOp?
    ensures d.transfers == db.transfers
  {
    if AboutTasks(op) {
      TaskOpsRecordNothing(db, d, op);
    }
  }

  ghost predicate MovesTasks(op: Op) {
    op.ArchiveTaskOp? || op.ReviewOp? || op.CreateBatchOp? || op.ChangeBatchOp? || op.ExpireOp?
  }

  lemma MovesAcceptNothing(db: Database, d: Database, op: Op)
    requires Effect(db, d, op) && MovesTasks(op)
    ensures NoNewAccept(db.tasks, d.tasks)
  {
    match op
    case ArchiveTaskOp(_, id, version) => MovedAcceptsNothing(db.tasks, d.tasks, id, TaskStatus.Archived, version);
    case ReviewOp(_, _, task, accepted, _, version) =>
      var next := if accepted then TaskStatus.Verified else TaskStatus.Rejected;
      MovedAcceptsNothing(db.tasks, d.tasks, task, next, version);
    case CreateBatchOp(req, _, ids) => BulkAcceptsNothing(db.tasks, db.links, req.uuid(0), ids);
    case ChangeBatchOp(_, id, _, _) => BulkAcceptsNothing(db.tasks, db.links, id, []);
    case ExpireOp(req, ids) => BulkAcceptsNothing(db.tasks, db.links, req.uuid(0), ids);
  }

  /** Only a transfer stamps an accept time. */
  lemma OthersAcceptNothing(db: Database, d: Database, op: Op)
    requires Effect(db, d, op) && !op.TransferTaskOp?
    ensures NoNewAccept(db.tasks, d.tasks)
  {
    if MovesTasks(op) {
      MovesAcceptNothing(db, d, op);
    } else if op.CreateTaskOp? || op.CreateTasksOp? || op.CompleteTaskOp? {
      CreatedOrCompletedAcceptNothing(db, d, op);
    }
  }

  lemma Kept(db: Database, d: Database, op: Op)
    requires Inv(db) && Effect(db, d, op)
    ensures Inv(d)
  {
    RecordedKept(db, d, op);
    if op.TransferTaskOp? {
      HandoverBacks(db, d, op.req.uuid(0), op.way, op.transfer, op.version);
    } else {
      OthersRecordNothing(db, d, op);
      OthersAcceptNothing(db, d, op);
    }
  }
}
