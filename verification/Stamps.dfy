/** The time columns tell how far a row has come. */
module Stamps {
  import opened Basics
  import opened Status
  import opened Tables
  import opened Transactions
  import opened Runs
  import opened Effects

  /** Started exactly when it ran or may have run before it was cancelled; ended exactly when it is not open. */
  ghost predicate BatchStamped(b: Batch) {
    && (b.status.Queued? ==> b.startedAt.None?)
    && (b.status.Running? || b.status.Completed? ==> b.startedAt.Some?)
    && (b.completedAt.Some? <==> !b.status.Open())
  }

  ghost predicate BatchesStamped(batches: Batches) {
    forall b :: b in batches ==> BatchStamped(batches[b])
  }

  /** A task that is accepted or in progress has an accept time. */
  ghost predicate TasksStamped(tasks: Tasks) {
    forall t :: t in tasks && (tasks[t].status.Accepted? || tasks[t].status.InProgress?) ==> tasks[t].acceptedAt.Some?
  }

  /** A telemetry row has a review time exactly when it is not pending. */
  ghost predicate EventsStamped(telemetry: Events) {
    forall e :: e in telemetry ==> (telemetry[e].reviewedAt.Some? <==> !telemetry[e].status.Pending?)
  }

  ghost predicate Inv(db: Database) {
    BatchesStamped(db.batches) && TasksStamped(db.tasks) && EventsStamped(db.telemetry)
  }

  // ---------- each effect that touches a stamped table ----------

  lemma AddedStamped(drones: Drones, before: Tasks, after: Tasks)
    requires TasksStamped(before) && TasksAdded(drones, before, after)
    ensures TasksStamped(after)
  {
  }

  lemma MovedStamped(before: Tasks, after: Tasks, id: Uuid, status: TaskStatus, version: int)
    requires TasksStamped(before) && TaskMoved(before, after, id, status, version) && !status.InProgress?
    ensures TasksStamped(after)
  {
  }

  lemma CompletedStamped(db: Database, d: Database, id: Uuid, version: int)
    requires Inv(db) && CompleteTaskEffect(db, d, id, version)
    ensures Inv(d)
  {
  }

  lemma RejectedStamped(tasks: Tasks, ids: seq<Uuid>)
    requires TasksStamped(tasks)
    ensures TasksStamped(RejectedLive(tasks, ids))
  {
  }

  lemma CreateBatchStamped(db: Database, d: Database, id: Uuid, ids: seq<Uuid>)
    requires Inv(db) && CreateBatchEffect(db, d, id, ids)
    ensures Inv(d)
  {
    forall t | t in d.tasks && d.tasks[t].status.InProgress? ensures d.tasks[t].acceptedAt.Some? {
      if i :| 0 <= i < |ids| && ids[i] == t {
        assert db.tasks[ids[i]].status.Accepted?;
      }
    }
  }

  lemma ChangeBatchStamped(db: Database, d: Database, id: Uuid, step: BatchStep, version: int)
    requires Inv(db) && ChangeBatchEffect(db, d, id, step, version)
    ensures Inv(d)
  {
  }

  lemma SubmitStamped(db: Database, d: Database, id: Uuid, task: Uuid, batch: Uuid)
    requires Inv(db) && SubmitEffect(db, d, id, task, batch)
    ensures Inv(d)
  {
  }

  lemma ReviewStamped(
    db: Database, d: Database, req: Request, id: Uuid, task: Uuid, accepted: bool, version: int, taskVersion: int)
    requires Inv(db) && ReviewEffect(db, d, req, id, task, accepted, version, taskVersion)
    ensures Inv(d)
  {
    MovedStamped(db.tasks, d.tasks, task, if accepted then TaskStatus.Verified else TaskStatus.Rejected, taskVersion);
  }

  lemma Kept(db: Database, d: Database, op: Op)
    requires Inv(db) && Effect(db, d, op)
    ensures Inv(d)
  {
    match op
    case CreateTaskOp(_, _) => AddedStamped(db.drones, db.tasks, d.tasks);
    case CreateTasksOp(_, _) => AddedStamped(db.drones, db.tasks, d.tasks);
    case CompleteTaskOp(_, id, version) => CompletedStamped(db, d, id, version);
    case ArchiveTaskOp(_, id, version) => MovedStamped(db.tasks, d.tasks, id, TaskStatus.Archived, version);
    case TransferTaskOp(_, way, input, version) => MovedStamped(db.tasks, d.tasks, input.taskId, way.Next(), version);
    case CreateBatchOp(req, _, ids) => CreateBatchStamped(db, d, req.uuid(0), ids);
    case ChangeBatchOp(_, id, step, version) => ChangeBatchStamped(db, d, id, step, version);
    case SubmitOp(req, input) => SubmitStamped(db, d, req.uuid(0), input.taskId, input.batchId);
    case ReviewOp(req, id, task, accepted, version, taskVersion) =>
      ReviewStamped(db, d, req, id, task, accepted, version, taskVersion);
    case ExpireOp(_, ids) => RejectedStamped(db.tasks, ids);
    case _ =>
  }
}
