/** What holds in every state that any sequence of operations, successful or not, can reach. */
module Invariants {
  import opened Basics
  import opened Status
  import opened Tables
  import opened Transactions
  import opened Runs
  import R = Repository
  import Effects
  import Quota
  import Custody
  import AuditLog
  import SafetyAlerts
  import Stamps
  import Transfers

  ghost predicate Inv(db: Database) {
    Quota.Inv(db) && Custody.Inv(db) && AuditLog.Inv(db) && SafetyAlerts.Inv(db) && Stamps.Inv(db) && Transfers.Inv(db)
  }

  lemma EmptyInv()
    ensures Inv(EMPTY)
  {
    forall t ensures SafetyAlerts.RejectedOf(EMPTY.telemetry, t) == {} {}
  }

  /** One operation, whatever its arguments, identifiers, clock readings and outcome. */
  lemma StepKeeps(db: Database, op: Op)
    requires Inv(db)
    ensures Inv(Exec(db, op))
  {
    if Succeeds(db, op) {
      var d := Exec(db, op);
      Effects.HasEffect(db, op);
      Quota.Kept(db, d, op);
      Custody.Kept(db, d, op);
      AuditLog.Kept(db, d, op);
      SafetyAlerts.Kept(db, d, op);
      Stamps.Kept(db, d, op);
      Transfers.Kept(db, d, op);
    }
  }

  lemma {:induction false} RunKeeps(db: Database, ops: seq<Op>)
    requires Inv(db)
    ensures Inv(ExecAll(db, ops))
    decreases |ops|
  {
    if ops != [] {
      RunKeeps(db, ops[..|ops| - 1]);
      StepKeeps(ExecAll(db, ops[..|ops| - 1]), ops[|ops| - 1]);
    }
  }

  /** The state after a run from the empty schema. */
  ghost function After(ops: seq<Op>): Database {
    ExecAll(EMPTY, ops)
  }

  lemma Reached(ops: seq<Op>)
    ensures Inv(After(ops))
  {
    EmptyInv();
    RunKeeps(EMPTY, ops);
  }

  // ---------- the guarantees, over every run ----------

  /** A task in progress is attached to a queued or running batch that has not reviewed it. */
  lemma NoStrandedTask(ops: seq<Op>, t: Uuid)
    requires t in After(ops).tasks && After(ops).tasks[t].status.InProgress?
    ensures var db := After(ops);
            exists b :: && b in db.batches && Link(b, t) in db.links
                        && (db.batches[b].status.Queued? || db.batches[b].status.Running?)
                        && !exists e :: && e in db.telemetry
                                        && db.telemetry[e].batchId == b && db.telemetry[e].taskId == t
                                        && !db.telemetry[e].status.Pending?
  {
    Reached(ops);
    var db := After(ops);
    assert Custody.Held(db.batches, db.links, db.telemetry, t);
    var b :| Custody.Holds(db.batches, db.links, db.telemetry, b, t);
    assert Link(b, t) in db.links;
  }

  /** A drone's counter is the number of its tasks with a completion time, and never more than it requires. */
  lemma QuotaConserved(ops: seq<Op>, drone: Uuid)
    requires drone in After(ops).drones
    ensures var db := After(ops);
            db.drones[drone].completed
              == |set t | t in db.tasks && db.tasks[t].droneId == drone && db.tasks[t].completedAt.Some?|
              <= db.drones[drone].required
  {
    Reached(ops);
    var db := After(ops);
    assert Quota.CompletedOf(db.tasks, drone)
        == set t | t in db.tasks && db.tasks[t].droneId == drone && db.tasks[t].completedAt.Some?;
  }

  /** The progress report of any mission is within its requirement. */
  lemma ProgressExact(ops: seq<Op>, mission: Uuid)
    ensures var db := After(ops);
            var p := Quota.MissionProgress(db, mission);
            && p.completed <= Quota.CompletedSum(db.drones, Quota.DronesOf(db.drones, mission)) <= p.required
            && p.Remaining() == p.required - p.completed
  {
    Reached(ops);
    Quota.ProgressBounded(After(ops), mission);
  }

  /** Replaying the log yields every status, and counting it every version. */
  lemma LogAgrees(ops: seq<Op>, x: Uuid)
    ensures var db := After(ops);
            var missionLog := AuditLog.History(db.log, DroneMission, x);
            var batchLog := AuditLog.History(db.log, MissionBatch, x);
            var telemetryLog := AuditLog.History(db.log, TelemetryRecord, x);
            var alertLog := AuditLog.History(db.log, SafetyAlert, x);
            && (x in db.missions ==>
                  && AuditLog.ReplayMission(missionLog) == Some(db.missions[x].status)
                  && |missionLog| == db.missions[x].version)
            && (x in db.batches ==>
                  && AuditLog.ReplayBatch(batchLog) == Some(db.batches[x].status)
                  && |batchLog| == db.batches[x].version)
            && (x in db.telemetry ==>
                  |telemetryLog| == db.telemetry[x].version == if db.telemetry[x].status.Pending? then 1 else 2)
            && (x in db.alerts ==> AuditLog.ReplayAlert(alertLog) == Some(db.alerts[x].status))
            && (x !in db.missions ==> missionLog == []) && (x !in db.batches ==> batchLog == [])
            && (x !in db.telemetry ==> telemetryLog == []) && (x !in db.alerts ==> alertLog == [])
  {
    Reached(ops);
    var db := After(ops);
    assert AuditLog.MissionLogged(db.missions, x, AuditLog.History(db.log, DroneMission, x));
    assert AuditLog.BatchLogged(db.batches, x, AuditLog.History(db.log, MissionBatch, x));
    assert AuditLog.EventLogged(db.telemetry, x, AuditLog.History(db.log, TelemetryRecord, x));
    assert AuditLog.AlertLogged(db.alerts, x, AuditLog.History(db.log, SafetyAlert, x));
  }

  /**
   Telemetry exists only on attached pairs of running or completed batches; completed batches have it all, reviewed.
   */
  lemma TelemetryConsistent(ops: seq<Op>, batch: Uuid)
    requires batch in After(ops).batches
    ensures var db := After(ops);
            && (forall e :: e in db.telemetry && db.telemetry[e].batchId == batch ==>
                  && Link(batch, db.telemetry[e].taskId) in db.links
                  && (db.batches[batch].status.Running? || db.batches[batch].status.Completed?))
            && (db.batches[batch].status.Completed? ==>
                  forall t {:trigger t in Custody.TasksOf(db.links, batch)} :: t in Custody.TasksOf(db.links, batch) ==>
                    exists e :: && e in db.telemetry && db.telemetry[e].batchId == batch && db.telemetry[e].taskId == t
                                && !db.telemetry[e].status.Pending?
                                && forall f :: f in db.telemetry && Custody.SamePair(db.telemetry[f], db.telemetry[e])
                                     ==> f == e)
            && 0 < |Custody.TasksOf(db.links, batch)| <= db.batches[batch].capacity
  {
    Reached(ops);
    Custody.TelemetryMatchesBatch(After(ops), batch);
  }

  /** Rejected telemetry of a task is backed by its reassess alerts, of which there are at most three. */
  lemma RejectionsBacked(ops: seq<Op>, t: Uuid)
    ensures |SafetyAlerts.RejectedOf(After(ops).telemetry, t)| <= |SafetyAlerts.ReassessOf(After(ops).alerts, t)| <= 3
    ensures forall a :: a in After(ops).alerts ==>
              (After(ops).alerts[a].status.Closed? <==> After(ops).alerts[a].closedAt.Some?)
  {
    Reached(ops);
    SafetyAlerts.RejectionsBounded(After(ops), t);
  }

  /** The time columns agree with the statuses. */
  lemma StampsTrue(ops: seq<Op>)
    ensures var db := After(ops);
            && (forall b :: b in db.batches ==>
                  var batch := db.batches[b];
                  batch.completedAt.Some? <==> batch.status.Completed? || batch.status.Cancelled?)
            && (forall b :: b in db.batches && db.batches[b].status.Queued? ==> db.batches[b].startedAt.None?)
            && (forall b :: b in db.batches && (db.batches[b].status.Running? || db.batches[b].status.Completed?) ==>
                  db.batches[b].startedAt.Some?)
            && (forall t :: t in db.tasks && (db.tasks[t].status.Accepted? || db.tasks[t].status.InProgress?) ==>
                  db.tasks[t].acceptedAt.Some?)
            && (forall t :: t in db.tasks && db.tasks[t].status.Completed? ==> db.tasks[t].completedAt.Some?)
            && (forall e :: e in db.telemetry ==>
                  (db.telemetry[e].reviewedAt.Some? <==> !db.telemetry[e].status.Pending?))
  {
    Reached(ops);
  }

  /** A task has one transfer record for each transfer and accept in its log, one of them behind its accept time. */
  lemma TransfersRecorded(ops: seq<Op>, t: Uuid)
    ensures var db := After(ops);
            && |set r | r in db.transfers && db.transfers[r].taskId == t|
                 == Transfers.Handovers(AuditLog.History(db.log, DroneTask, t))
            && (t in db.tasks && db.tasks[t].acceptedAt.Some? ==>
                  exists r :: r in db.transfers && db.transfers[r].taskId == t
                    && db.transfers[r].recordedAt == db.tasks[t].acceptedAt.value)
  {
    Reached(ops);
    var db := After(ops);
    assert Transfers.RecordsOf(db.transfers, t) == set r | r in db.transfers && db.transfers[r].taskId == t;
    if t in db.tasks && db.tasks[t].acceptedAt.Some? {
      assert Transfers.AcceptBacked(db.transfers, t, db.tasks[t].acceptedAt.value);
    }
  }

  // ---------- forever after ----------

  /** A completed batch with its links and its telemetry, which is what no later operation can touch. */
  ghost predicate SameBatch(db: Database, d: Database, batch: Uuid) {
    && batch in db.batches && batch in d.batches && d.batches[batch] == db.batches[batch]
    && (forall t {:trigger Link(batch, t)} :: Link(batch, t) in d.links <==> Link(batch, t) in db.links)
    && (forall e :: e in d.telemetry && d.telemetry[e].batchId == batch ==>
          e in db.telemetry && db.telemetry[e] == d.telemetry[e])
    && (forall e :: e in db.telemetry && db.telemetry[e].batchId == batch ==>
          e in d.telemetry && d.telemetry[e] == db.telemetry[e])
  }

  /** What keeps a completed batch as it is: nothing of it is pending, and links never name a missing batch. */
  ghost predicate Frozen(db: Database, batch: Uuid) {
    && batch in db.batches && db.batches[batch].status.Completed?
    && (forall e :: e in db.telemetry && db.telemetry[e].batchId == batch ==> !db.telemetry[e].status.Pending?)
    && (forall l :: l in db.links ==> l.batch in db.batches)
  }

  lemma CompletedIsFrozen(db: Database, batch: Uuid)
    requires Custody.Inv(db) && batch in db.batches && db.batches[batch].status.Completed?
    ensures Frozen(db, batch)
  {
    forall e | e in db.telemetry && db.telemetry[e].batchId == batch ensures !db.telemetry[e].status.Pending? {
      assert Link(batch, db.telemetry[e].taskId) in db.links;
      assert R.Reviewed(db.telemetry, batch, db.telemetry[e].taskId);
    }
  }

  lemma NewBatchElsewhere(db: Database, d: Database, id: Uuid, ids: seq<Uuid>, batch: Uuid)
    requires Frozen(db, batch) && Effects.CreateBatchEffect(db, d, id, ids)
    ensures SameBatch(db, d, batch)
  {
    forall t ensures Link(batch, t) !in Effects.LinksOf(id, ids) {}
  }

  lemma ReviewElsewhere(
    db: Database, d: Database, req: Request, id: Uuid, task: Uuid, accepted: bool, version: int, taskVersion: int,
    batch: Uuid)
    requires Frozen(db, batch) && Effects.ReviewEffect(db, d, req, id, task, accepted, version, taskVersion)
    ensures SameBatch(db, d, batch)
  {
  }

  lemma ChangeElsewhere(db: Database, d: Database, id: Uuid, step: BatchStep, version: int, batch: Uuid)
    requires Frozen(db, batch) && Effects.ChangeBatchEffect(db, d, id, step, version)
    ensures SameBatch(db, d, batch)
  {
  }

  lemma SubmitElsewhere(db: Database, d: Database, id: Uuid, task: Uuid, b: Uuid, batch: Uuid)
    requires Frozen(db, batch) && Effects.SubmitEffect(db, d, id, task, b)
    ensures SameBatch(db, d, batch)
  {
  }

  lemma OthersElsewhere(db: Database, d: Database, op: Op, batch: Uuid)
    requires batch in db.batches && Effects.Effect(db, d, op) && !Custody.MovesCustody(op)
    ensures SameBatch(db, d, batch)
  {
    Custody.OthersStartNothing(db, d, op);
  }

  lemma BatchOpsFreeze(db: Database, d: Database, op: Op, batch: Uuid)
    requires Frozen(db, batch) && Effects.Effect(db, d, op) && (op.CreateBatchOp? || op.ChangeBatchOp?)
    ensures SameBatch(db, d, batch)
  {
    if op.CreateBatchOp? {
      NewBatchElsewhere(db, d, op.req.uuid(0), op.ids, batch);
    } else {
      ChangeElsewhere(db, d, op.id, op.batchStep, op.version, batch);
    }
  }

  lemma TelemetryOpsFreeze(db: Database, d: Database, op: Op, batch: Uuid)
    requires Frozen(db, batch) && Effects.Effect(db, d, op) && (op.SubmitOp? || op.ReviewOp?)
    ensures SameBatch(db, d, batch)
  {
    if op.SubmitOp? {
      SubmitElsewhere(db, d, op.req.uuid(0), op.observation.taskId, op.observation.batchId, batch);
    } else {
      ReviewElsewhere(db, d, op.req, op.id, op.taskId, op.accepted, op.version, op.taskVersion, batch);
    }
  }

  lemma EffectFreezes(db: Database, d: Database, op: Op, batch: Uuid)
    requires Frozen(db, batch) && Effects.Effect(db, d, op)
    ensures SameBatch(db, d, batch)
  {
    if op.CreateBatchOp? || op.ChangeBatchOp? {
      BatchOpsFreeze(db, d, op, batch);
    } else if op.SubmitOp? || op.ReviewOp? {
      TelemetryOpsFreeze(db, d, op, batch);
    } else {
      OthersElsewhere(db, d, op, batch);
    }
  }

  lemma StepFreezes(db: Database, op: Op, batch: Uuid)
    requires Frozen(db, batch)
    ensures SameBatch(db, Exec(db, op), batch)
  {
    if Succeeds(db, op) {
      Effects.HasEffect(db, op);
      EffectFreezes(db, Exec(db, op), op, batch);
    }
  }

  lemma SameBatchComposes(a: Database, b: Database, c: Database, batch: Uuid)
    requires SameBatch(a, b, batch) && SameBatch(b, c, batch)
    ensures SameBatch(a, c, batch)
  {
  }

  /** Once completed, a batch keeps its row, its tasks and its reviewed telemetry through any further run. */
  lemma {:induction false} CompletedForever(db: Database, ops: seq<Op>, batch: Uuid)
    requires Inv(db) && batch in db.batches && db.batches[batch].status.Completed?
    ensures SameBatch(db, ExecAll(db, ops), batch)
    decreases |ops|
  {
    if ops != [] {
      var before := ExecAll(db, ops[..|ops| - 1]);
      CompletedForever(db, ops[..|ops| - 1], batch);
      RunKeeps(db, ops[..|ops| - 1]);
      CompletedIsFrozen(before, batch);
      StepFreezes(before, ops[|ops| - 1], batch);
      SameBatchComposes(db, before, ExecAll(db, ops), batch);
    }
  }
}
