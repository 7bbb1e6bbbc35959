/** The audit log tells the truth: replaying an object's actions gives its status, and counting them its version. */
module AuditLog {
  import opened Basics
  import opened Status
  import opened Tables
  import opened Transactions
  import opened Runs
  import opened Effects

  /** The actions recorded for one object, in append order. */
  ghost function History(log: seq<AuditRow>, objectType: ObjectType, id: Uuid): seq<Action> {
    if log == [] then []
    else
      var last := log[|log| - 1];
      History(log[..|log| - 1], objectType, id)
        + (if last.objectType == objectType && last.objectId == id then [last.action] else [])
  }

  /** The history, with one more action when the row is about the object. */
  ghost function Then(h: seq<Action>, about: bool, action: Action): seq<Action> {
    if !about then h else if h == [] then [action] else h + [action]
  }

  lemma LoggedHistory(
    before: seq<AuditRow>, after: seq<AuditRow>, objectType: ObjectType, id: Uuid, action: Action, ty: ObjectType,
    x: Uuid)
    requires Logged(before, after, objectType, id, action)
    ensures History(after, ty, x) == Then(History(before, ty, x), ty == objectType && x == id, action)
  {
    assert after[..|after| - 1] == before;
  }

  lemma {:induction false} WorkerHistory(before: seq<AuditRow>, after: seq<AuditRow>, ty: ObjectType, x: Uuid)
    requires WorkerRows(before, after) && !ty.WorkerTask?
    ensures History(after, ty, x) == History(before, ty, x)
    decreases |after|
  {
    if |after| > |before| {
      var shorter := after[..|after| - 1];
      assert shorter[..|before|] == after[..|before|];
      WorkerHistory(before, shorter, ty, x);
    } else {
      assert after == before;
    }
  }

  // ---------- replay ----------

  /** Replay is strict: an action the life cycle does not allow makes the whole history meaningless. */
  ghost function ReplayMission(h: seq<Action>): Option<MissionStatus> {
    if h == [] then None
    else
      var next: Option<MissionStatus> := match h[|h| - 1]
        case Create => Some(MissionStatus.Draft)
        case Schedule => Some(MissionStatus.Scheduled)
        case Activate => Some(MissionStatus.Active)
        case Close => Some(MissionStatus.Closed)
        case _ => None;
      if |h| == 1 then (if h[0].Create? then next else None)
      else
        var before := ReplayMission(h[..|h| - 1]);
        if before.Some? && next.Some? && before.value.CanMoveTo(next.value) then next else None
  }

  ghost function ReplayBatch(h: seq<Action>): Option<BatchStatus> {
    if h == [] then None
    else
      var next: Option<BatchStatus> := match h[|h| - 1]
        case Create => Some(BatchStatus.Queued)
        case Start => Some(BatchStatus.Running)
        case Complete => Some(BatchStatus.Completed)
        case Cancel => Some(BatchStatus.Cancelled)
        case _ => None;
      if |h| == 1 then (if h[0].Create? then next else None)
      else
        var before := ReplayBatch(h[..|h| - 1]);
        if before.Some? && next.Some? && before.value.CanMoveTo(next.value) then next else None
  }

  ghost function ReplayAlert(h: seq<Action>): Option<AlertStatus> {
    if h == [] then None
    else if |h| == 1 then (if h[0].OpenAlert? then Some(AlertStatus.Open) else None)
    else
      match (ReplayAlert(h[..|h| - 1]), h[|h| - 1])
      case (Some(Open), Start) => Some(AlertStatus.InProgress)
      case (Some(Open), Close) => Some(AlertStatus.Closed)
      case (Some(InProgress), Close) => Some(AlertStatus.Closed)
      case _ => None
  }

  ghost function TelemetryActions(row: Telemetry): seq<Action> {
    if row.status.Pending? then [Record] else [Record, Review]
  }

  ghost predicate MissionLogged(missions: Missions, id: Uuid, h: seq<Action>) {
    if id in missions then ReplayMission(h) == Some(missions[id].status) && |h| == missions[id].version else h == []
  }

  ghost predicate BatchLogged(batches: Batches, id: Uuid, h: seq<Action>) {
    if id in batches then ReplayBatch(h) == Some(batches[id].status) && |h| == batches[id].version else h == []
  }

  ghost predicate AlertLogged(alerts: Alerts, id: Uuid, h: seq<Action>) {
    if id in alerts then ReplayAlert(h) == Some(alerts[id].status) else h == []
  }

  ghost predicate EventLogged(telemetry: Events, id: Uuid, h: seq<Action>) {
    if id in telemetry then h == TelemetryActions(telemetry[id]) && |h| == telemetry[id].version else h == []
  }

  ghost predicate MissionsAgree(missions: Missions, log: seq<AuditRow>) {
    forall x :: MissionLogged(missions, x, History(log, DroneMission, x))
  }

  ghost predicate BatchesAgree(batches: Batches, log: seq<AuditRow>) {
    forall x :: BatchLogged(batches, x, History(log, MissionBatch, x))
  }

  ghost predicate AlertsAgree(alerts: Alerts, log: seq<AuditRow>) {
    forall x :: AlertLogged(alerts, x, History(log, SafetyAlert, x))
  }

  ghost predicate EventsAgree(telemetry: Events, log: seq<AuditRow>) {
    forall x :: EventLogged(telemetry, x, History(log, TelemetryRecord, x))
  }

  ghost predicate Inv(db: Database) {
    && MissionsAgree(db.missions, db.log)
    && BatchesAgree(db.batches, db.log)
    && AlertsAgree(db.alerts, db.log)
    && EventsAgree(db.telemetry, db.log)
  }

  // ---------- one action at a time ----------

  lemma MissionActed(before: Option<MissionStatus>, h: seq<Action>, step: MissionStep)
    requires h != [] && ReplayMission(h) == before && before.Some? && before.value.CanMoveTo(step.Next())
    ensures ReplayMission(h + [step.Action()]) == Some(step.Next())
  {
    assert (h + [step.Action()])[..|h|] == h;
  }

  lemma BatchActed(before: Option<BatchStatus>, h: seq<Action>, step: BatchStep)
    requires h != [] && ReplayBatch(h) == before && before.Some? && before.value.CanMoveTo(step.Next())
    ensures ReplayBatch(h + [step.Action()]) == Some(step.Next())
  {
    assert (h + [step.Action()])[..|h|] == h;
  }

  lemma AlertActed(h: seq<Action>, status: AlertStatus, action: Action)
    requires h != [] && ReplayAlert(h).Some?
    requires action == (if status.Closed? then Close else Start) && !status.Open?
    requires ReplayAlert(h).value.Open? || (status.Closed? && ReplayAlert(h).value.InProgress?)
    ensures ReplayAlert(h + [action]) == Some(status)
  {
    assert (h + [action])[..|h|] == h;
  }

  // ---------- the four object types ----------

  /** The rows an operation appended leave an object type's histories as they were. */
  ghost predicate SameHistories(before: seq<AuditRow>, after: seq<AuditRow>, ty: ObjectType) {
    forall x :: History(after, ty, x) == History(before, ty, x)
  }

  lemma OtherTypesSame(
    before: seq<AuditRow>, after: seq<AuditRow>, objectType: ObjectType, id: Uuid, action: Action, ty: ObjectType)
    requires Logged(before, after, objectType, id, action) && ty != objectType
    ensures SameHistories(before, after, ty)
  {
    forall x ensures History(after, ty, x) == History(before, ty, x) {
      LoggedHistory(before, after, objectType, id, action, ty, x);
    }
  }

  lemma WorkerSame(before: seq<AuditRow>, after: seq<AuditRow>, ty: ObjectType)
    requires WorkerRows(before, after) && !ty.WorkerTask?
    ensures SameHistories(before, after, ty)
  {
    forall x ensures History(after, ty, x) == History(before, ty, x) {
      WorkerHistory(before, after, ty, x);
    }
  }

  ghost predicate Tracked(ty: ObjectType) {
    ty.DroneMission? || ty.MissionBatch? || ty.SafetyAlert? || ty.TelemetryRecord?
  }

  /** The one tracked object type an operation writes about, if any; a rejecting review writes about two. */
  ghost predicate Writes(op: Op, ty: ObjectType) {
    match op
    case CreateMissionOp(_, _) => ty.DroneMission?
    case AdvanceMissionOp(_, _, _, _) => ty.DroneMission?
    case CreateBatchOp(_, _, _) => ty.MissionBatch?
    case ChangeBatchOp(_, _, _, _) => ty.MissionBatch?
    case SubmitOp(_, _) => ty.TelemetryRecord?
    case ReviewOp(_, _, _, accepted, _, _) => ty.TelemetryRecord? || (!accepted && ty.SafetyAlert?)
    case OpenAlertOp(_, _) => ty.SafetyAlert?
    case StartAlertOp(_, _) => ty.SafetyAlert?
    case CloseAlertOp(_, _) => ty.SafetyAlert?
    case _ => false
  }

  lemma ReviewHistories(
    db: Database, d: Database, req: Request, id: Uuid, task: Uuid, accepted: bool, version: int, taskVersion: int,
    ty: ObjectType, x: Uuid)
    requires ReviewEffect(db, d, req, id, task, accepted, version, taskVersion)
    ensures History(d.log, ty, x)
              == Then(Then(History(db.log, ty, x), !accepted && ty.SafetyAlert? && x == req.uuid(0), OpenAlert),
                                          ty.TelemetryRecord? && x == id, Review)
  {
    if accepted {
      LoggedHistory(db.log, d.log, TelemetryRecord, id, Review, ty, x);
    } else {
      var middle := d.log[..|db.log| + 1];
      LoggedHistory(db.log, middle, SafetyAlert, req.uuid(0), OpenAlert, ty, x);
      LoggedHistory(middle, d.log, TelemetryRecord, id, Review, ty, x);
    }
  }

  lemma UnwrittenSame(db: Database, d: Database, op: Op, ty: ObjectType)
    requires Effect(db, d, op) && Tracked(ty) && !Writes(op, ty)
    ensures SameHistories(db.log, d.log, ty)
  {
    match op
    case RegisterOperatorOp(req, _, _) => OtherTypesSame(db.log, d.log, FleetOperator, req.uuid(0), Create, ty);
    case RenameOperatorOp(_, id, _) => OtherTypesSame(db.log, d.log, FleetOperator, id, Rename, ty);
    case ChangeRoleOp(_, _, _) =>
    case CreateMissionOp(req, _) => OtherTypesSame(db.log, d.log, DroneMission, req.uuid(0), Create, ty);
    case AdvanceMissionOp(_, id, step, _) => OtherTypesSame(db.log, d.log, DroneMission, id, step.Action(), ty);
    case CreateTaskOp(req, _) => OtherTypesSame(db.log, d.log, DroneTask, req.uuid(0), Create, ty);
    case CreateTasksOp(_, inputs) => OtherTypesSame(db.log, d.log, TaskBulk, inputs[0].missionId, CreateBulk, ty);
    case CompleteTaskOp(_, id, _) => OtherTypesSame(db.log, d.log, DroneTask, id, Complete, ty);
    case ArchiveTaskOp(_, id, _) => OtherTypesSame(db.log, d.log, DroneTask, id, Archive, ty);
    case TransferTaskOp(_, way, input, _) => OtherTypesSame(db.log, d.log, DroneTask, input.taskId, way.Action(), ty);
    case CreateBatchOp(req, _, _) => OtherTypesSame(db.log, d.log, MissionBatch, req.uuid(0), Create, ty);
    case ChangeBatchOp(_, id, step, _) => OtherTypesSame(db.log, d.log, MissionBatch, id, step.Action(), ty);
    case SubmitOp(req, _) => OtherTypesSame(db.log, d.log, TelemetryRecord, req.uuid(0), Record, ty);
    case ReviewOp(req, id, task, accepted, version, taskVersion) =>
      forall x ensures History(d.log, ty, x) == History(db.log, ty, x) {
        ReviewHistories(db, d, req, id, task, accepted, version, taskVersion, ty, x);
      }
    case OpenAlertOp(req, _) => OtherTypesSame(db.log, d.log, SafetyAlert, req.uuid(0), OpenAlert, ty);
    case StartAlertOp(_, id) => OtherTypesSame(db.log, d.log, SafetyAlert, id, Start, ty);
    case CloseAlertOp(_, id) => OtherTypesSame(db.log, d.log, SafetyAlert, id, Close, ty);
    case ExpireOp(_, _) => WorkerSame(db.log, d.log, ty);
  }

  /** Operations that do not write about a type leave its table's statuses and versions alone. */
  lemma UnwrittenTables(db: Database, d: Database, op: Op)
    requires Effect(db, d, op)
    ensures !Writes(op, DroneMission) ==> d.missions == db.missions
    ensures !Writes(op, MissionBatch) ==> d.batches == db.batches
    ensures !Writes(op, SafetyAlert) ==> d.alerts == db.alerts
    ensures !Writes(op, TelemetryRecord) ==> d.telemetry == db.telemetry
  {
  }

  lemma MissionsKept(db: Database, d: Database, op: Op, x: Uuid)
    requires MissionLogged(db.missions, x, History(db.log, DroneMission, x)) && Effect(db, d, op)
    requires Writes(op, DroneMission)
    ensures MissionLogged(d.missions, x, History(d.log, DroneMission, x))
  {
    var h := History(db.log, DroneMission, x);
    match op
    case CreateMissionOp(req, _) => LoggedHistory(db.log, d.log, DroneMission, req.uuid(0), Create, DroneMission, x);
    case AdvanceMissionOp(_, id, step, _) =>
      LoggedHistory(db.log, d.log, DroneMission, id, step.Action(), DroneMission, x);
      if x == id { MissionActed(Some(db.missions[id].status), h, step); }
  }

  lemma BatchesKept(db: Database, d: Database, op: Op, x: Uuid)
    requires BatchLogged(db.batches, x, History(db.log, MissionBatch, x)) && Effect(db, d, op)
    requires Writes(op, MissionBatch)
    ensures BatchLogged(d.batches, x, History(d.log, MissionBatch, x))
  {
    var h := History(db.log, MissionBatch, x);
    match op
    case CreateBatchOp(req, _, _) => LoggedHistory(db.log, d.log, MissionBatch, req.uuid(0), Create, MissionBatch, x);
    case ChangeBatchOp(_, id, step, _) =>
      LoggedHistory(db.log, d.log, MissionBatch, id, step.Action(), MissionBatch, x);
      if x == id { BatchActed(Some(db.batches[id].status), h, step); }
  }

  lemma AlertMoved(db: Database, d: Database, id: Uuid, status: AlertStatus, action: Action, x: Uuid)
    requires AlertLogged(db.alerts, x, History(db.log, SafetyAlert, x)) && MoveAlertEffect(db, d, id, status, action)
    requires !status.Open? && action == (if status.Closed? then Close else Start)
    ensures AlertLogged(d.alerts, x, History(d.log, SafetyAlert, x))
  {
    LoggedHistory(db.log, d.log, SafetyAlert, id, action, SafetyAlert, x);
    if x == id { AlertActed(History(db.log, SafetyAlert, x), status, action); }
  }

  lemma AlertsKept(db: Database, d: Database, op: Op, x: Uuid)
    requires AlertLogged(db.alerts, x, History(db.log, SafetyAlert, x)) && Effect(db, d, op) && Writes(op, SafetyAlert)
    ensures AlertLogged(d.alerts, x, History(d.log, SafetyAlert, x))
  {
    match op
    case OpenAlertOp(req, _) => LoggedHistory(db.log, d.log, SafetyAlert, req.uuid(0), OpenAlert, SafetyAlert, x);
    case StartAlertOp(_, id) => AlertMoved(db, d, id, AlertStatus.InProgress, Start, x);
    case CloseAlertOp(_, id) => AlertMoved(db, d, id, AlertStatus.Closed, Close, x);
    case ReviewOp(req, id, task, accepted, version, taskVersion) =>
      ReviewHistories(db, d, req, id, task, accepted, version, taskVersion, SafetyAlert, x);
  }

  lemma ReviewLogged(
    db: Database, d: Database, req: Request, id: Uuid, task: Uuid, accepted: bool, version: int, taskVersion: int,
    x: Uuid)
    requires EventLogged(db.telemetry, x, History(db.log, TelemetryRecord, x))
    requires ReviewEffect(db, d, req, id, task, accepted, version, taskVersion)
    ensures EventLogged(d.telemetry, x, History(d.log, TelemetryRecord, x))
  {
    ReviewHistories(db, d, req, id, task, accepted, version, taskVersion, TelemetryRecord, x);
  }

  lemma EventsKept(db: Database, d: Database, op: Op, x: Uuid)
    requires EventLogged(db.telemetry, x, History(db.log, TelemetryRecord, x)) && Effect(db, d, op)
    requires Writes(op, TelemetryRecord)
    ensures EventLogged(d.telemetry, x, History(d.log, TelemetryRecord, x))
  {
    match op
    case SubmitOp(req, _) => LoggedHistory(db.log, d.log, TelemetryRecord, req.uuid(0), Record, TelemetryRecord, x);
    case ReviewOp(req, id, task, accepted, version, taskVersion) =>
      ReviewLogged(db, d, req, id, task, accepted, version, taskVersion, x);
  }

  lemma AllMissionsKept(db: Database, d: Database, op: Op)
    requires MissionsAgree(db.missions, db.log) && Effect(db, d, op)
    ensures MissionsAgree(d.missions, d.log)
  {
    if Writes(op, DroneMission) {
      forall x ensures MissionLogged(d.missions, x, History(d.log, DroneMission, x)) { MissionsKept(db, d, op, x); }
    } else {
      UnwrittenTables(db, d, op);
      UnwrittenSame(db, d, op, DroneMission);
    }
  }

  lemma AllBatchesKept(db: Database, d: Database, op: Op)
    requires BatchesAgree(db.batches, db.log) && Effect(db, d, op)
    ensures BatchesAgree(d.batches, d.log)
  {
    if Writes(op, MissionBatch) {
      forall x ensures BatchLogged(d.batches, x, History(d.log, MissionBatch, x)) { BatchesKept(db, d, op, x); }
    } else {
      UnwrittenTables(db, d, op);
      UnwrittenSame(db, d, op, MissionBatch);
    }
  }

  lemma AllAlertsKept(db: Database, d: Database, op: Op)
    requires AlertsAgree(db.alerts, db.log) && Effect(db, d, op)
    ensures AlertsAgree(d.alerts, d.log)
  {
    if Writes(op, SafetyAlert) {
      forall x ensures AlertLogged(d.alerts, x, History(d.log, SafetyAlert, x)) { AlertsKept(db, d, op, x); }
    } else {
      UnwrittenTables(db, d, op);
      UnwrittenSame(db, d, op, SafetyAlert);
    }
  }

  lemma AllEventsKept(db: Database, d: Database, op: Op)
    requires EventsAgree(db.telemetry, db.log) && Effect(db, d, op)
    ensures EventsAgree(d.telemetry, d.log)
  {
    if Writes(op, TelemetryRecord) {
      forall x ensures EventLogged(d.telemetry, x, History(d.log, TelemetryRecord, x)) { EventsKept(db, d, op, x); }
    } else {
      UnwrittenTables(db, d, op);
      UnwrittenSame(db, d, op, TelemetryRecord);
    }
  }

  /** Every operation keeps log and tables in agreement. */
  lemma Kept(db: Database, d: Database, op: Op)
    requires Inv(db) && Effect(db, d, op)
    ensures Inv(d)
  {
    AllMissionsKept(db, d, op);
    AllBatchesKept(db, d, op);
    AllAlertsKept(db, d, op);
    AllEventsKept(db, d, op);
  }
}
