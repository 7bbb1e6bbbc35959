/** The repository over mutable tables: one method per writing function, and the transaction around them. */
module Postgres {
  import opened Basics
  import opened Status
  import opened Tables
  import R = Repository
  import T = Transactions
  import ExpirySpec
  import Expiry
  import opened Selection

  /** A write succeeds with exactly the specified database, or fails with exactly the specified error. */
  ghost predicate Matches(o: Outcome, after: Database, spec: Result<Database>) {
    match spec
    case Ok(d) => o.Pass? && after == d
    case Err(e) => o == Fail(e)
  }

  class Store {
    var operators: map<Uuid, Operator>
    var missions: Missions
    var drones: Drones
    var tasks: Tasks
    var transfers: map<Uuid, Transfer>
    var batches: Batches
    var links: set<Link>
    var telemetry: Events
    var alerts: Alerts
    var log: seq<AuditRow>

    function Db(): Database
      reads this
    {
      Database(operators, missions, drones, tasks, transfers, batches, links, telemetry, alerts, log)
    }

    constructor ()
      ensures Db() == EMPTY
    {
      operators, missions, drones, tasks, transfers := map[], map[], map[], map[], map[];
      batches, links, telemetry, alerts, log := map[], {}, map[], map[], [];
    }

    // ---------- transactions ----------

    /** BEGIN: what a rollback will return to. */
    method Begin() returns (saved: Database)
      ensures saved == Db()
    {
      saved := Db();
    }

    method Rollback(saved: Database)
      modifies this
      ensures Db() == saved
    {
      operators, missions, drones := saved.operators, saved.missions, saved.drones;
      tasks, transfers := saved.tasks, saved.transfers;
      batches, links, telemetry, alerts, log := saved.batches, saved.links, saved.telemetry, saved.alerts, saved.log;
    }

    /**
     The end of InTx: roll back on an error of the callback or when COMMIT is refused. An error of COMMIT
     reaches the caller even when the writes have taken effect.
     */
    method Finish(saved: Database, outcome: Outcome, commit: T.Commit) returns (o: Outcome)
      modifies this
      ensures o == if outcome.Pass? && !commit.Acknowledged? then Fail(Failed) else outcome
      ensures Db() == if outcome.Pass? && !commit.Refused? then old(Db()) else saved
    {
      if outcome.Fail? {
        Rollback(saved);
        return outcome;
      }
      if commit.Refused? {
        Rollback(saved);
      }
      if !commit.Acknowledged? {
        return Fail(Failed);
      }
      return Pass;
    }

    // ---------- operators, missions and drones ----------

    method CreateFleetOperator(id: Uuid, row: Operator) returns (o: Outcome)
      modifies this
      ensures Matches(o, Db(), R.InsertOperator(old(Db()), id, row))
    {
      if id in operators {
        return Fail(Conflict);
      }
      operators := operators[id := row];
      return Pass;
    }

    method RenameFleetOperator(id: Uuid, name: string) returns (o: Outcome)
      modifies this
      ensures Matches(o, Db(), R.RenameOperator(old(Db()), id, name))
    {
      if id !in operators {
        return Fail(NotFound);
      }
      operators := operators[id := operators[id].(name := name)];
      return Pass;
    }

    /** Runs outside InTx, as a transaction of one statement. */
    method ChangeFleetOperatorRole(id: Uuid, role: Role, commit: T.Commit) returns (o: Outcome)
      modifies this
      ensures match R.ChangeRole(old(Db()), id, role)
        case Err(e) => o == Fail(e) && Db() == old(Db())
        case Ok(d) => && o == (if commit.Acknowledged? then Pass else Fail(Failed))
                      && Db() == (if commit.Refused? then old(Db()) else d)
    {
      var saved := Begin();
      if id !in operators {
        return Fail(NotFound);
      }
      operators := operators[id := operators[id].(role := role)];
      o := Finish(saved, Pass, commit);
    }

    method CreateMission(id: Uuid, row: Mission) returns (o: Outcome)
      modifies this
      ensures Matches(o, Db(), R.InsertMission(old(Db()), id, row))
    {
      if id in missions || exists m :: m in missions && missions[m].code == row.code {
        return Fail(Conflict);
      }
      if row.createdBy !in operators || row.endsAt <= row.startsAt {
        return Fail(Conflict);
      }
      missions := missions[id := row];
      return Pass;
    }

    method AdvanceMission(id: Uuid, status: MissionStatus, version: int) returns (o: Outcome)
      modifies this
      ensures Matches(o, Db(), R.AdvanceMission(old(Db()), id, status, version))
    {
      if id !in missions || missions[id].version != version {
        return Fail(Conflict);
      }
      missions := missions[id := missions[id].(status := status, version := missions[id].version + 1)];
      return Pass;
    }

    method CreateDroneUnit(id: Uuid, row: Drone) returns (o: Outcome)
      modifies this
      ensures Matches(o, Db(), R.InsertDrone(old(Db()), id, row))
    {
      if !R.FitsInt4(row.required) {
        return Fail(Failed);
      }
      if id in drones || row.missionId !in missions || row.required <= 0 {
        return Fail(Conflict);
      }
      if exists d :: d in drones && drones[d].missionId == row.missionId && drones[d].code == row.code {
        return Fail(Conflict);
      }
      drones := drones[id := row];
      return Pass;
    }

    // ---------- tasks ----------

    method CreateDroneTask(id: Uuid, row: Task) returns (o: Outcome)
      modifies this
      ensures Matches(o, Db(), R.InsertTask(old(Db()), id, row))
    {
      if id in tasks || exists t :: t in tasks && tasks[t].code == row.code {
        return Fail(Conflict);
      }
      if row.missionId !in missions || row.droneId !in drones {
        return Fail(Conflict);
      }
      tasks := tasks[id := row];
      return Pass;
    }

    method MoveDroneTask(id: Uuid, status: TaskStatus, version: int, now: Time) returns (o: Outcome)
      modifies this
      ensures Matches(o, Db(), R.MoveTask(old(Db()), id, status, version, now))
    {
      if id !in tasks || tasks[id].version != version {
        return Fail(Conflict);
      }
      var task := tasks[id];
      if status.Completed? {
        if task.droneId !in drones || drones[task.droneId].required <= drones[task.droneId].completed {
          return Fail(Conflict);
        }
        var drone := drones[task.droneId];
        tasks := tasks[id := task.(status := status, version := task.version + 1, completedAt := Some(now))];
        drones := drones[task.droneId := drone.(completed := drone.completed + 1)];
        return Pass;
      }
      task := task.(status := status, version := task.version + 1);
      if status.Accepted? {
        task := task.(acceptedAt := Some(now));
      }
      tasks := tasks[id := task];
      return Pass;
    }

    method RecordHandoff(id: Uuid, row: Transfer) returns (o: Outcome)
      modifies this
      ensures Matches(o, Db(), R.InsertTransfer(old(Db()), id, row))
    {
      if id in transfers || row.taskId !in tasks {
        return Fail(Conflict);
      }
      if row.toOperator !in operators || (row.fromOperator.Some? && row.fromOperator.value !in operators) {
        return Fail(Conflict);
      }
      transfers := transfers[id := row];
      return Pass;
    }

    // ---------- batches ----------

    method CreateDroneMissionBatch(id: Uuid, code: string, flightMethod: string, capacity: int) returns (o: Outcome)
      modifies this
      ensures Matches(o, Db(), R.InsertBatch(old(Db()), id, code, flightMethod, capacity))
    {
      if !R.FitsInt4(capacity) {
        return Fail(Failed);
      }
      if id in batches || (exists b :: b in batches && batches[b].code == code) || capacity <= 0 {
        return Fail(Conflict);
      }
      batches := batches[id := Batch(code, BatchStatus.Queued, flightMethod, capacity, None, None, 1)];
      return Pass;
    }

    /** One turn of the loop below: insert the link, then move the task if it is eligible. */
    method AttachTask(batch: Uuid, id: Uuid, now: Time) returns (o: Outcome)
      modifies this
      ensures Matches(o, Db(), R.AttachTask(old(Db()), batch, id, now))
    {
      if Link(batch, id) in links || batch !in batches || id !in tasks {
        return Fail(Conflict);
      }
      links := links + {Link(batch, id)};
      if !tasks[id].status.Accepted? || tasks[id].expiresAt < now {
        return Fail(InvalidTransition);
      }
      tasks := tasks[id := tasks[id].(status := TaskStatus.InProgress, version := tasks[id].version + 1)];
      return Pass;
    }

    /** The attach loop; on an error it stops where it is and leaves the rest to the rollback. */
    method AttachDroneTasks(batch: Uuid, ids: seq<Uuid>, now: Time) returns (o: Outcome)
      modifies this
      ensures Matches(o, Db(), R.AttachTasks(old(Db()), batch, ids, now))
    {
      var i := 0;
      while i < |ids|
        invariant 0 <= i <= |ids|
        invariant R.AttachTasks(Db(), batch, ids[i..], now) == R.AttachTasks(old(Db()), batch, ids, now)
      {
        assert ids[i..][0] == ids[i] && ids[i..][1..] == ids[i + 1..];
        o := AttachTask(batch, ids[i], now);
        if o.Fail? {
          return;
        }
        i := i + 1;
      }
      return Pass;
    }

    method ChangeDroneMissionBatch(id: Uuid, step: T.BatchStep, version: int, now: Time) returns (o: Outcome)
      modifies this
      ensures Matches(o, Db(), T.ChangeBatchRow(old(Db()), id, step, version, now))
    {
      if id !in batches || batches[id].version != version {
        return Fail(Conflict);
      }
      var batch := batches[id].(version := version + 1);
      match step {
      case CancelStep =>
        if !batch.status.Open() || exists e :: e in telemetry && telemetry[e].batchId == id {
          return Fail(Conflict);
        }
        tasks := map t | t in tasks ::
          if Link(id, t) in links && tasks[t].status.InProgress?
          then tasks[t].(status := TaskStatus.Accepted, version := tasks[t].version + 1)
          else tasks[t];
        batch := batch.(status := BatchStatus.Cancelled, completedAt := Some(now));
      case StartStep =>
        if !batch.status.Queued? {
          return Fail(Conflict);
        }
        batch := batch.(status := BatchStatus.Running, startedAt := Some(now));
      case CompleteStep =>
        if !batch.status.Running? || !R.AllReviewed(links, telemetry, id) {
          return Fail(Conflict);
        }
        batch := batch.(status := BatchStatus.Completed, completedAt := Some(now));
      }
      batches := batches[id := batch];
      return Pass;
    }

    // ---------- telemetry and alerts ----------

    method CreateObservation(id: Uuid, row: Telemetry) returns (o: Outcome)
      modifies this
      ensures Matches(o, Db(), R.InsertTelemetry(old(Db()), id, row))
    {
      if id in telemetry || !R.PairFree(telemetry, row.taskId, row.batchId) {
        return Fail(Conflict);
      }
      if row.taskId !in tasks || row.batchId !in batches || row.recordedBy !in operators {
        return Fail(Conflict);
      }
      if !(0.0 <= row.riskScore < R.SCORE_LIMIT) || !(0.0 <= row.alertThreshold < R.SCORE_LIMIT) {
        return Fail(Conflict);
      }
      telemetry := telemetry[id := row];
      return Pass;
    }

    method ReviewObservationRecord(id: Uuid, accepted: bool, version: int, now: Time) returns (o: Outcome)
      modifies this
      ensures Matches(o, Db(), R.ReviewTelemetry(old(Db()), id, accepted, version, now))
    {
      var status := TelemetryStatus.Verified;
      if !accepted {
        status := TelemetryStatus.Rejected;
      }
      if id !in telemetry || !telemetry[id].status.Pending? || telemetry[id].version != version {
        return Fail(Conflict);
      }
      telemetry := telemetry[id := telemetry[id].(
        status := status, reviewedAt := Some(now), version := telemetry[id].version + 1)];
      return Pass;
    }

    method CreateIntervention(id: Uuid, task: Uuid, kind: AlertKind, reason: string, dueAt: Time) returns (o: Outcome)
      modifies this
      ensures Matches(o, Db(), R.InsertAlert(old(Db()), id, task, kind, reason, dueAt))
    {
      if id in alerts || task !in tasks || !R.AlertSlotFree(alerts, task, kind, AlertStatus.Open) {
        return Fail(Conflict);
      }
      alerts := alerts[id := Alert(task, kind, AlertStatus.Open, reason, dueAt, None)];
      return Pass;
    }

    method MarkInterventionInProgress(id: Uuid) returns (o: Outcome)
      modifies this
      ensures Matches(o, Db(), R.StartAlert(old(Db()), id))
    {
      if id !in alerts || !alerts[id].status.Open? {
        return Fail(Conflict);
      }
      if !R.AlertSlotFree(alerts, alerts[id].taskId, alerts[id].kind, AlertStatus.InProgress) {
        return Fail(Failed);
      }
      alerts := alerts[id := alerts[id].(status := AlertStatus.InProgress)];
      return Pass;
    }

    method CloseIntervention(id: Uuid, now: Time) returns (o: Outcome)
      modifies this
      ensures Matches(o, Db(), R.CloseAlert(old(Db()), id, now))
    {
      if id !in alerts || alerts[id].status.Closed? {
        return Fail(Conflict);
      }
      if !R.AlertSlotFree(alerts, alerts[id].taskId, alerts[id].kind, AlertStatus.Closed) {
        return Fail(Failed);
      }
      alerts := alerts[id := alerts[id].(status := AlertStatus.Closed, closedAt := Some(now))];
      return Pass;
    }

    // ---------- the audit log and the expiry worker ----------

    method WriteAudit(row: AuditRow) returns (o: Outcome)
      modifies this
      ensures Matches(o, Db(), R.WriteAudit(old(Db()), row))
    {
      if !R.EventIdFree(log, row.id) || (row.operator.Some? && row.operator.value !in operators) {
        return Fail(Conflict);
      }
      log := log + [row];
      return Pass;
    }

    /** The guarded update of one selected task with its audit row, and the two counters after it. */
    method ExpireTask(req: T.Request, id: Uuid, marked: nat, failed: nat)
      returns (o: Outcome, marked': nat, failed': nat)
      modifies this
      ensures match ExpirySpec.ExpireRow(ExpirySpec.Sweep(old(Db()), marked, failed), req, id)
        case Ok(s) => o.Pass? && s == ExpirySpec.Sweep(Db(), marked', failed')
        case Err(e) => o == Fail(e)
    {
      if id !in tasks || !tasks[id].status.Live() {
        return Pass, marked, failed + 1;
      }
      tasks := tasks[id := tasks[id].(status := TaskStatus.Rejected, version := tasks[id].version + 1)];
      o := WriteAudit(AuditRow(req.uuid(marked), ExpirySpec.WORKER_REQUEST, None, WorkerTask, id, Expire));
      marked', failed' := marked + 1, failed;
    }

    method ExpireSelected(req: T.Request, selected: seq<Uuid>) returns (o: Outcome, marked: nat, failed: nat)
      modifies this
      ensures var spec := ExpirySpec.ExpireRows(ExpirySpec.Sweep(old(Db()), 0, 0), req, selected);
              && (o.Pass? ==> spec == Ok(ExpirySpec.Sweep(Db(), marked, failed)))
              && (o.Fail? ==> spec == Err(o.error))
    {
      marked, failed := 0, 0;
      var i := 0;
      while i < |selected|
        invariant 0 <= i <= |selected|
        invariant ExpirySpec.ExpireRows(ExpirySpec.Sweep(Db(), marked, failed), req, selected[i..])
               == ExpirySpec.ExpireRows(ExpirySpec.Sweep(old(Db()), 0, 0), req, selected)
      {
        assert selected[i..][0] == selected[i] && selected[i..][1..] == selected[i + 1..];
        o, marked, failed := ExpireTask(req, selected[i], marked, failed);
        if o.Fail? {
          return;
        }
        i := i + 1;
      }
      o := Pass;
    }

    /**
     The expiry pass in its own transaction: select, then update and audit row by row. `ids` is what the
     query returned.
     */
    method MarkExpiredDroneTasks(req: T.Request, now: Time, limit: int)
      returns (o: Outcome, scanned: nat, marked: nat, failed: nat, ghost ids: seq<Uuid>)
      modifies this
      ensures Earliest(ExpirySpec.Overdue(old(tasks), now), EffectiveLimit(limit), ids)
      ensures var spec := ExpirySpec.ExpireRows(ExpirySpec.Sweep(old(Db()), 0, 0), req, ids);
              && (o.Pass? <==> spec.Ok? && req.commit.Acknowledged?)
              && (o.Pass? ==> spec.value == ExpirySpec.Sweep(Db(), marked, failed) && scanned == |ids|)
              && (o.Fail? ==> scanned == marked == failed == 0)
              && Db() == if spec.Ok? && !req.commit.Refused? then spec.value.db else old(Db())
      ensures forall i :: 0 <= i < |ids| ==> ids[i] in old(tasks) && Expiry.PastDue(old(tasks)[ids[i]], now)
      ensures forall t :: t in old(tasks) && now <= old(tasks)[t].expiresAt ==>
                t in tasks && tasks[t] == old(tasks)[t]
      ensures o.Pass? ==>
                && marked == Min(Expiry.Bound(limit), |set t | t in old(tasks) && Expiry.PastDue(old(tasks)[t], now)|)
                && failed == 0
                && (marked < Expiry.Bound(limit) ==> forall t :: t in tasks ==> !Expiry.PastDue(tasks[t], now))
    {
      Expiry.SameAsQuery(tasks, now, limit);
      var saved := Begin();
      var selected := SelectEarliest(ExpirySpec.Overdue(tasks, now), EffectiveLimit(limit));
      ids := selected;
      o, marked, failed := ExpireSelected(req, selected);
      scanned := |selected|;
      Expiry.PassDrains(saved, req, now, limit, ids);
      Expiry.PassFinishes(saved.tasks, now, limit, ids);
      o := Finish(saved, o, req.commit);
      if o.Fail? {
        scanned, marked, failed := 0, 0, 0;
      }
    }
  }
}
