/**
 What time does to the tables: rows are never lost, a version identifies the content of its row, finished rows
 are final, and the log only grows.
 */
module Growth {
  import opened Basics
  import opened Status
  import opened Tables
  import opened Transactions
  import opened Runs
  import opened Effects
  import R = Repository
  import Quota
  import Invariants

  /** Equal versions mean equal rows. */
  ghost predicate Versioned<T>(before: T, after: T, was: int, now: int) {
    was <= now && (was == now ==> before == after)
  }

  ghost predicate MissionGrows(a: Mission, b: Mission) {
    && b == a.(status := b.status, version := b.version)
    && Versioned(a, b, a.version, b.version)
    && (a.status.Closed? ==> b == a)
  }

  ghost predicate DroneGrows(a: Drone, b: Drone) {
    b == a.(completed := b.completed) && a.completed <= b.completed
  }

  /** A completion time, once stamped, stays. */
  ghost predicate TaskGrows(a: Task, b: Task) {
    && b == a.(status := b.status, version := b.version, completedAt := b.completedAt, acceptedAt := b.acceptedAt)
    && Versioned(a, b, a.version, b.version)
    && (a.completedAt.Some? ==> b.completedAt == a.completedAt)
    && (a.acceptedAt.Some? ==> b.acceptedAt.Some?)
  }

  ghost predicate BatchGrows(a: Batch, b: Batch) {
    && b == a.(status := b.status, version := b.version, startedAt := b.startedAt, completedAt := b.completedAt)
    && Versioned(a, b, a.version, b.version)
    && (!a.status.Open() ==> b == a)
  }

  ghost predicate EventGrows(a: Telemetry, b: Telemetry) {
    && b == a.(status := b.status, version := b.version, reviewedAt := b.reviewedAt)
    && Versioned(a, b, a.version, b.version)
    && (!a.status.Pending? ==> b == a)
  }

  ghost predicate AlertGrows(a: Alert, b: Alert) {
    b == a.(status := b.status, closedAt := b.closedAt) && (a.status.Closed? ==> b == a)
  }

  ghost predicate MissionsGrow(a: Missions, b: Missions) {
    forall x :: x in a ==> x in b && MissionGrows(a[x], b[x])
  }

  ghost predicate DronesGrow(a: Drones, b: Drones) {
    forall x :: x in a ==> x in b && DroneGrows(a[x], b[x])
  }

  ghost predicate TasksGrow(a: Tasks, b: Tasks) {
    forall x :: x in a ==> x in b && TaskGrows(a[x], b[x])
  }

  ghost predicate BatchesGrow(a: Batches, b: Batches) {
    forall x :: x in a ==> x in b && BatchGrows(a[x], b[x])
  }

  ghost predicate EventsGrow(a: Events, b: Events) {
    forall x :: x in a ==> x in b && EventGrows(a[x], b[x])
  }

  ghost predicate AlertsGrow(a: Alerts, b: Alerts) {
    forall x :: x in a ==> x in b && AlertGrows(a[x], b[x])
  }

  /** A transfer record is never written again. */
  ghost predicate TransfersKept(a: map<Uuid, Transfer>, b: map<Uuid, Transfer>) {
    forall x :: x in a ==> x in b && b[x] == a[x]
  }

  ghost predicate Grows(a: Database, b: Database) {
    && MissionsGrow(a.missions, b.missions) && DronesGrow(a.drones, b.drones) && TasksGrow(a.tasks, b.tasks)
    && BatchesGrow(a.batches, b.batches) && EventsGrow(a.telemetry, b.telemetry) && AlertsGrow(a.alerts, b.alerts)
    && a.operators.Keys <= b.operators.Keys && TransfersKept(a.transfers, b.transfers)
    && a.links <= b.links && a.log <= b.log
  }

  lemma GrowsComposes(a: Database, b: Database, c: Database)
    requires Grows(a, b) && Grows(b, c)
    ensures Grows(a, c)
  {
  }

  lemma GrowsByTables(a: Database, b: Database)
    requires b.missions == a.missions && b.drones == a.drones && b.batches == a.batches && b.links == a.links
    requires b.operators == a.operators && b.transfers == a.transfers
    requires TasksGrow(a.tasks, b.tasks) && EventsGrow(a.telemetry, b.telemetry) && AlertsGrow(a.alerts, b.alerts)
    requires a.log <= b.log
    ensures Grows(a, b)
  {
  }

  // ---------- each effect ----------

  lemma RegisterGrows(db: Database, d: Database, id: Uuid)
    requires RegisterEffect(db, d, id)
    ensures Grows(db, d)
  {
  }

  lemma RenameGrows(db: Database, d: Database, id: Uuid, name: string)
    requires RenameEffect(db, d, id, name)
    ensures Grows(db, d)
  {
  }

  lemma RoleGrows(db: Database, d: Database, id: Uuid, role: Role)
    requires RoleEffect(db, d, id, role)
    ensures Grows(db, d)
  {
  }

  lemma CreateMissionGrows(db: Database, d: Database, req: Request)
    requires CreateMissionEffect(db, d, req)
    ensures Grows(db, d)
  {
  }

  lemma AdvanceMissionGrows(db: Database, d: Database, id: Uuid, step: MissionStep, version: int)
    requires AdvanceMissionEffect(db, d, id, step, version)
    ensures Grows(db, d)
  {
  }

  lemma CreateTasksGrows(db: Database, d: Database, objectType: ObjectType, objectId: Uuid, action: Action)
    requires CreateTasksEffect(db, d, objectType, objectId, action)
    ensures Grows(db, d)
  {
  }

  lemma CompleteTaskGrows(db: Database, d: Database, id: Uuid, version: int)
    requires Quota.Timed(db.tasks) && CompleteTaskEffect(db, d, id, version)
    ensures Grows(db, d)
  {
  }

  lemma MoveTaskGrows(db: Database, d: Database, id: Uuid, status: TaskStatus, version: int, action: Action)
    requires MoveTaskEffect(db, d, id, status, version, action)
    ensures Grows(db, d)
  {
  }

  lemma TransferGrows(db: Database, d: Database, id: Uuid, way: Transferred, input: Transfer, version: int)
    requires TransferEffect(db, d, id, way, input, version)
    ensures Grows(db, d)
  {
  }

  lemma BulkGrows(tasks: Tasks, links: set<Link>, batch: Uuid, ids: seq<Uuid>)
    ensures TasksGrow(tasks, TakenUp(tasks, ids))
    ensures TasksGrow(tasks, RejectedLive(tasks, ids))
    ensures TasksGrow(tasks, R.Restored(tasks, links, batch))
  {
  }

  lemma CreateBatchGrows(db: Database, d: Database, id: Uuid, ids: seq<Uuid>)
    requires CreateBatchEffect(db, d, id, ids)
    ensures Grows(db, d)
  {
    BulkGrows(db.tasks, db.links, id, ids);
  }

  lemma ChangeBatchGrows(db: Database, d: Database, id: Uuid, step: BatchStep, version: int)
    requires ChangeBatchEffect(db, d, id, step, version)
    ensures Grows(db, d)
  {
    BulkGrows(db.tasks, db.links, id, []);
  }

  lemma SubmitGrows(db: Database, d: Database, id: Uuid, task: Uuid, batch: Uuid)
    requires SubmitEffect(db, d, id, task, batch)
    ensures Grows(db, d)
  {
  }

  lemma ReviewedGrows(before: Events, after: Events, id: Uuid, task: Uuid, accepted: bool, version: int)
    requires id in before && id in after && after == before[id := after[id]]
    requires ReviewedRow(before[id], after[id], task, accepted, version)
    ensures EventsGrow(before, after)
  {
  }

  lemma MovedGrows(before: Tasks, after: Tasks, id: Uuid, status: TaskStatus, version: int)
    requires TaskMoved(before, after, id, status, version)
    ensures TasksGrow(before, after)
  {
  }

  lemma AlertOpenedGrows(before: Alerts, after: Alerts, id: Uuid, task: Uuid, kind: AlertKind)
    requires AlertOpened(before, after, id, task, kind)
    ensures AlertsGrow(before, after)
  {
  }

  lemma TwoLogged(before: seq<AuditRow>, after: seq<AuditRow>)
    requires |after| == |before| + 2 && after[..|before| + 1][..|before|] == before
    ensures before <= after
  {
    assert after[..|before| + 1][..|before|] == after[..|before|];
  }

  lemma ReviewRowsGrow(
    db: Database, d: Database, req: Request, id: Uuid, task: Uuid, accepted: bool, version: int, taskVersion: int)
    requires ReviewEffect(db, d, req, id, task, accepted, version, taskVersion)
    ensures EventsGrow(db.telemetry, d.telemetry) && TasksGrow(db.tasks, d.tasks)
    ensures d.missions == db.missions && d.drones == db.drones && d.batches == db.batches && d.links == db.links
    ensures d.operators == db.operators && d.transfers == db.transfers
  {
    ReviewedGrows(db.telemetry, d.telemetry, id, task, accepted, version);
    MovedGrows(db.tasks, d.tasks, task, if accepted then TaskStatus.Verified else TaskStatus.Rejected, taskVersion);
  }

  lemma ReviewAlertsGrow(
    db: Database, d: Database, req: Request, id: Uuid, task: Uuid, accepted: bool, version: int, taskVersion: int)
    requires ReviewEffect(db, d, req, id, task, accepted, version, taskVersion)
    ensures AlertsGrow(db.alerts, d.alerts) && db.log <= d.log
  {
    if !accepted {
      AlertOpenedGrows(db.alerts, d.alerts, req.uuid(0), task, Reassess);
      TwoLogged(db.log, d.log);
    }
  }

  lemma ReviewGrows(
    db: Database, d: Database, req: Request, id: Uuid, task: Uuid, accepted: bool, version: int, taskVersion: int)
    requires ReviewEffect(db, d, req, id, task, accepted, version, taskVersion)
    ensures Grows(db, d)
  {
    ReviewRowsGrow(db, d, req, id, task, accepted, version, taskVersion);
    ReviewAlertsGrow(db, d, req, id, task, accepted, version, taskVersion);
    GrowsByTables(db, d);
  }

  lemma OpenAlertGrows(db: Database, d: Database, id: Uuid, task: Uuid, kind: AlertKind)
    requires OpenAlertEffect(db, d, id, task, kind)
    ensures Grows(db, d)
  {
  }

  lemma MoveAlertGrows(db: Database, d: Database, id: Uuid, status: AlertStatus, action: Action)
    requires MoveAlertEffect(db, d, id, status, action)
    ensures Grows(db, d)
  {
  }

  lemma ExpireGrows(db: Database, d: Database, ids: seq<Uuid>)
    requires ExpireEffect(db, d, ids)
    ensures Grows(db, d)
  {
    BulkGrows(db.tasks, db.links, Uuid(0), ids);
  }

  // ---------- every operation, every run ----------

  ghost predicate AboutOneTask(op: Op) {
    op.CreateTaskOp? || op.CreateTasksOp? || op.CompleteTaskOp? || op.ArchiveTaskOp? || op.TransferTaskOp?
  }

  ghost predicate AboutManyTasks(op: Op) {
    op.CreateBatchOp? || op.ChangeBatchOp? || op.ExpireOp?
  }

  lemma TaskOpsGrow(db: Database, d: Database, op: Op)
    requires Quota.Timed(db.tasks) && Effect(db, d, op) && AboutOneTask(op)
    ensures Grows(db, d)
  {
    match op
    case CreateTaskOp(req, _) => CreateTasksGrows(db, d, DroneTask, req.uuid(0), Create);
    case CreateTasksOp(_, inputs) => CreateTasksGrows(db, d, TaskBulk, inputs[0].missionId, CreateBulk);
    case CompleteTaskOp(_, id, version) => CompleteTaskGrows(db, d, id, version);
    case ArchiveTaskOp(_, id, version) => MoveTaskGrows(db, d, id, TaskStatus.Archived, version, Archive);
    case TransferTaskOp(req, way, input, version) => TransferGrows(db, d, req.uuid(0), way, input, version);
  }

  lemma BatchOpsGrow(db: Database, d: Database, op: Op)
    requires Effect(db, d, op) && AboutManyTasks(op)
    ensures Grows(db, d)
  {
    match op
    case CreateBatchOp(req, _, ids) => CreateBatchGrows(db, d, req.uuid(0), ids);
    case ChangeBatchOp(_, id, step, version) => ChangeBatchGrows(db, d, id, step, version);
    case ExpireOp(_, ids) => ExpireGrows(db, d, ids);
  }

  lemma OthersGrow(db: Database, d: Database, op: Op)
    requires Effect(db, d, op) && !AboutOneTask(op) && !AboutManyTasks(op)
    ensures Grows(db, d)
  {
    match op
    case RegisterOperatorOp(req, _, _) => RegisterGrows(db, d, req.uuid(0));
    case RenameOperatorOp(_, id, name) => RenameGrows(db, d, id, name);
    case ChangeRoleOp(_, id, role) => RoleGrows(db, d, id, role);
    case CreateMissionOp(req, _) => CreateMissionGrows(db, d, req);
    case AdvanceMissionOp(_, id, step, version) => AdvanceMissionGrows(db, d, id, step, version);
    case SubmitOp(req, input) => SubmitGrows(db, d, req.uuid(0), input.taskId, input.batchId);
    case ReviewOp(req, id, task, accepted, version, taskVersion) =>
      ReviewGrows(db, d, req, id, task, accepted, version, taskVersion);
    case OpenAlertOp(req, input) => OpenAlertGrows(db, d, req.uuid(0), input.taskId, input.kind.value);
    case StartAlertOp(_, id) => MoveAlertGrows(db, d, id, AlertStatus.InProgress, Start);
    case CloseAlertOp(_, id) => MoveAlertGrows(db, d, id, AlertStatus.Closed, Close);
  }

  lemma EffectGrows(db: Database, d: Database, op: Op)
    requires Quota.Timed(db.tasks) && Effect(db, d, op)
    ensures Grows(db, d)
  {
    if AboutOneTask(op) {
      TaskOpsGrow(db, d, op);
    } else if AboutManyTasks(op) {
      BatchOpsGrow(db, d, op);
    } else {
      OthersGrow(db, d, op);
    }
  }

  lemma StepGrows(db: Database, op: Op)
    requires Quota.Timed(db.tasks)
    ensures Grows(db, Exec(db, op))
  {
    if Succeeds(db, op) {
      HasEffect(db, op);
      EffectGrows(db, Exec(db, op), op);
    }
  }

  lemma GrowsOn(db: Database, before: Database, op: Op)
    requires Grows(db, before) && Quota.Timed(before.tasks)
    ensures Grows(db, Exec(before, op))
  {
    StepGrows(before, op);
    GrowsComposes(db, before, Exec(before, op));
  }

  lemma {:induction false} TimedRunGrows(db: Database, ops: seq<Op>)
    requires forall k {:trigger ops[..k]} :: 0 <= k < |ops| ==> Quota.Timed(ExecAll(db, ops[..k]).tasks)
    ensures Grows(db, ExecAll(db, ops))
    decreases |ops|
  {
    if ops != [] {
      var shorter := ops[..|ops| - 1];
      forall k {:trigger shorter[..k]} | 0 <= k < |shorter| ensures Quota.Timed(ExecAll(db, shorter[..k]).tasks) {
        assert shorter[..k] == ops[..k];
      }
      TimedRunGrows(db, shorter);
      GrowsOn(db, ExecAll(db, shorter), ops[|ops| - 1]);
    }
  }

  /** Over any further run from a reachable state the tables only grow, row by row. */
  lemma RunGrows(db: Database, ops: seq<Op>)
    requires Invariants.Inv(db)
    ensures Grows(db, ExecAll(db, ops))
  {
    forall k {:trigger ops[..k]} | 0 <= k < |ops| ensures Quota.Timed(ExecAll(db, ops[..k]).tasks) {
      Invariants.RunKeeps(db, ops[..k]);
    }
    TimedRunGrows(db, ops);
  }
}
