/**
 The service operations over the mutable store. Each runs its callback between Begin and Finish; what is
 proved is that the store ends up exactly where the run semantics says, rolled back after any error.
 */
module Service {
  import opened Basics
  import opened Status
  import opened Tables
  import opened Text
  import opened Transactions
  import opened Runs
  import P = Postgres
  import T = Transactions

  /**
   The operation took effect completely or not at all. Its error is the one of the callback, or else that of a
   COMMIT that was refused or whose acknowledgement was lost.
   */
  ghost predicate Performed(o: Outcome, before: Database, after: Database, op: Op) {
    && after == Exec(before, op)
    && match Transact(before, op)
       case Err(e) => o == Fail(e)
       case Ok(_) => o == if op.req.commit.Acknowledged? then Pass else Fail(Failed)
  }

  /** The seenDroneUnits scan. */
  method CheckDroneInputs(drones: seq<DroneInput>) returns (ok: bool)
    ensures ok <==> DroneInputsOk(drones)
  {
    var seen: set<string> := {};
    for i := 0 to |drones|
      invariant forall j :: 0 <= j < i ==> DroneInputOk(drones[j]) && drones[j].code in seen
      invariant forall c :: c in seen ==> exists j :: 0 <= j < i && drones[j].code == c
      invariant forall j, k :: 0 <= j < k < i ==> drones[j].code != drones[k].code
    {
      if !DroneInputOk(drones[i]) || drones[i].code in seen {
        return false;
      }
      seen := seen + {drones[i].code};
    }
    return true;
  }

  /** The duplicate scan of validateIDs. */
  method CheckDistinct(ids: seq<Uuid>) returns (ok: bool)
    ensures ok <==> Distinct(ids)
  {
    var seen: set<Uuid> := {};
    for i := 0 to |ids|
      invariant forall j :: 0 <= j < i ==> ids[j] in seen
      invariant forall x :: x in seen ==> exists j :: 0 <= j < i && ids[j] == x
      invariant forall j, k :: 0 <= j < k < i ==> ids[j] != ids[k]
    {
      if ids[i] in seen {
        return false;
      }
      seen := seen + {ids[i]};
    }
    return true;
  }

  /** The scan of ValidateBulkRequests, stopping at the first defect. */
  method CheckBulk(inputs: seq<TaskInput>, now: Time) returns (o: Outcome)
    ensures o == BulkCheck(inputs, {}, now)
  {
    var seen: set<string> := {};
    for i := 0 to |inputs|
      invariant BulkCheck(inputs[i..], seen, now) == BulkCheck(inputs, {}, now)
    {
      assert inputs[i..][0] == inputs[i] && inputs[i..][1..] == inputs[i + 1..];
      if Blank(inputs[i].code) {
        return Fail(Conflict);
      }
      if inputs[i].expiresAt < now {
        return Fail(Expired);
      }
      if inputs[i].code in seen {
        return Fail(Conflict);
      }
      seen := seen + {inputs[i].code};
    }
    return Pass;
  }

  class Service {
    const repo: P.Store

    constructor (repo: P.Store)
      ensures this.repo == repo
    {
      this.repo := repo;
    }

    method WriteAudit(req: Request, event: Uuid, objectType: ObjectType, objectId: Uuid, action: Action)
      returns (o: Outcome)
      modifies repo
      ensures P.Matches(o, repo.Db(), Audit(old(repo.Db()), req, event, objectType, objectId, action))
    {
      o := repo.WriteAudit(AuditRow(event, req.requestId, req.operator, objectType, objectId, action));
    }

    method RegisterFleetOperator(req: Request, name: string, role: Role) returns (o: Outcome)
      modifies repo
      ensures Performed(o, old(repo.Db()), repo.Db(), RegisterOperatorOp(req, name, role))
    {
      if Blank(name) {
        return Fail(Conflict);
      }
      var saved := repo.Begin();
      o := repo.CreateFleetOperator(req.uuid(0), Operator(name, role));
      if o.Pass? {
        o := WriteAudit(req, req.uuid(1), FleetOperator, req.uuid(0), Create);
      }
      o := repo.Finish(saved, o, req.commit);
    }

    method RenameFleetOperator(req: Request, id: Uuid, name: string) returns (o: Outcome)
      modifies repo
      ensures Performed(o, old(repo.Db()), repo.Db(), RenameOperatorOp(req, id, name))
    {
      if !RequiredName(name) {
        return Fail(Conflict);
      }
      var saved := repo.Begin();
      o := repo.RenameFleetOperator(id, name);
      if o.Pass? {
        o := WriteAudit(req, req.uuid(0), FleetOperator, id, Rename);
      }
      o := repo.Finish(saved, o, req.commit);
    }

    // ---------- missions ----------

    /** The insert loop of CreateMission, appending the new identifiers. */
    method InsertDroneUnits(mission: Uuid, drones: seq<DroneInput>, uuid: nat -> Uuid)
      returns (o: Outcome, ids: seq<Uuid>)
      modifies repo
      ensures P.Matches(o, repo.Db(), InsertDrones(old(repo.Db()), mission, drones, uuid, 1))
      ensures o.Pass? ==> |ids| == |drones| && forall i :: 0 <= i < |ids| ==> ids[i] == uuid(1 + i)
    {
      ids := [];
      var i := 0;
      while i < |drones|
        invariant 0 <= i <= |drones|
        invariant InsertDrones(repo.Db(), mission, drones[i..], uuid, 1 + i)
                  == InsertDrones(old(repo.Db()), mission, drones, uuid, 1)
        invariant |ids| == i && forall j :: 0 <= j < i ==> ids[j] == uuid(1 + j)
      {
        assert drones[i..][0] == drones[i] && drones[i..][1..] == drones[i + 1..];
        o := repo.CreateDroneUnit(uuid(1 + i),
          Drone(mission, drones[i].code, drones[i].roomLabel, drones[i].required, 0));
        if o.Fail? {
          return;
        }
        ids := ids + [uuid(1 + i)];
        i := i + 1;
      }
      o := Pass;
    }

    method CreateMissionInTransaction(req: Request, input: MissionInput) returns (o: Outcome, droneIds: seq<Uuid>)
      requires MissionChecks(req, input).Pass?
      modifies repo
      ensures P.Matches(o, repo.Db(), T.CreateMission(old(repo.Db()), req, input))
      ensures o.Pass? ==>
                |droneIds| == |input.drones| && forall i :: 0 <= i < |droneIds| ==> droneIds[i] == req.uuid(1 + i)
    {
      droneIds := [];
      o := repo.CreateMission(req.uuid(0), DraftMission(input));
      if o.Pass? {
        o, droneIds := InsertDroneUnits(req.uuid(0), input.drones, req.uuid);
      }
      if o.Pass? {
        o := WriteAudit(req, req.uuid(1 + |input.drones|), DroneMission, req.uuid(0), Create);
      }
    }

    /** The checks before the transaction, in the order of the source. */
    method CheckMission(req: Request, input: MissionInput) returns (o: Outcome)
      ensures o == MissionChecks(req, input)
    {
      if input.code == "" || input.name == "" || input.drones == [] {
        return Fail(Conflict);
      }
      if !BusinessCode(input.code) || !RequiredName(input.name) || !input.zoneKnown {
        return Fail(Conflict);
      }
      var unitsOk := CheckDroneInputs(input.drones);
      if !unitsOk || input.endsAt <= input.startsAt || input.timezone == "" {
        return Fail(Conflict);
      }
      if input.endsAt < req.clock(0) {
        return Fail(Expired);
      }
      return Pass;
    }

    method CreateMission(req: Request, input: MissionInput) returns (o: Outcome, droneIds: seq<Uuid>)
      modifies repo
      ensures Performed(o, old(repo.Db()), repo.Db(), CreateMissionOp(req, input))
      ensures o.Pass? ==>
                |droneIds| == |input.drones| && forall i :: 0 <= i < |droneIds| ==> droneIds[i] == req.uuid(1 + i)
      ensures o.Fail? ==> droneIds == []
    {
      o := CheckMission(req, input);
      if o.Fail? {
        return o, [];
      }
      var saved := repo.Begin();
      o, droneIds := CreateMissionInTransaction(req, input);
      o := repo.Finish(saved, o, req.commit);
      if o.Fail? {
        droneIds := [];
      }
    }

    method AdvanceMission(req: Request, id: Uuid, step: MissionStep, version: int) returns (o: Outcome)
      modifies repo
      ensures Performed(o, old(repo.Db()), repo.Db(), AdvanceMissionOp(req, id, step, version))
    {
      var saved := repo.Begin();
      if id !in repo.missions {
        o := Fail(NotFound);
      } else if !repo.missions[id].status.CanMoveTo(step.Next()) {
        o := Fail(InvalidTransition);
      } else {
        o := repo.AdvanceMission(id, step.Next(), version);
        if o.Pass? {
          o := WriteAudit(req, req.uuid(0), DroneMission, id, step.Action());
        }
      }
      o := repo.Finish(saved, o, req.commit);
    }

    // ---------- tasks ----------

    method InsertTask(id: Uuid, input: TaskInput) returns (o: Outcome)
      modifies repo
      ensures P.Matches(o, repo.Db(), InsertQueuedTask(old(repo.Db()), id, input))
    {
      if !(input.droneId in repo.drones && repo.drones[input.droneId].missionId == input.missionId) {
        return Fail(Conflict);
      }
      o := repo.CreateDroneTask(id,
        Task(input.missionId, input.droneId, input.code, TaskStatus.Queued, None, None, input.expiresAt, 1));
    }

    method CreateDroneTask(req: Request, input: TaskInput) returns (o: Outcome)
      modifies repo
      ensures Performed(o, old(repo.Db()), repo.Db(), CreateTaskOp(req, input))
    {
      if Blank(input.code) {
        return Fail(Conflict);
      }
      if input.expiresAt < req.clock(0) {
        return Fail(Expired);
      }
      if !BusinessCode(input.code) {
        return Fail(Conflict);
      }
      var saved := repo.Begin();
      o := InsertTask(req.uuid(0), input);
      if o.Pass? {
        o := WriteAudit(req, req.uuid(1), DroneTask, req.uuid(0), Create);
      }
      o := repo.Finish(saved, o, req.commit);
    }

    method InsertTasks(inputs: seq<TaskInput>, uuid: nat -> Uuid) returns (o: Outcome)
      modifies repo
      ensures P.Matches(o, repo.Db(), InsertQueuedTasks(old(repo.Db()), inputs, uuid, 0))
    {
      var i := 0;
      while i < |inputs|
        invariant 0 <= i <= |inputs|
        invariant InsertQueuedTasks(repo.Db(), inputs[i..], uuid, i)
                  == InsertQueuedTasks(old(repo.Db()), inputs, uuid, 0)
      {
        assert inputs[i..][0] == inputs[i] && inputs[i..][1..] == inputs[i + 1..];
        o := InsertTask(uuid(i), inputs[i]);
        if o.Fail? {
          return;
        }
        i := i + 1;
      }
      o := Pass;
    }

    method CreateDroneTasksBulk(req: Request, inputs: seq<TaskInput>) returns (o: Outcome)
      modifies repo
      ensures Performed(o, old(repo.Db()), repo.Db(), CreateTasksOp(req, inputs))
    {
      if inputs == [] {
        return Fail(Conflict);
      }
      o := CheckBulk(inputs, req.clock(0));
      if o.Fail? {
        return;
      }
      var saved := repo.Begin();
      o := InsertTasks(inputs, req.uuid);
      if o.Pass? {
        o := WriteAudit(req, req.uuid(|inputs|), TaskBulk, inputs[0].missionId, CreateBulk);
      }
      o := repo.Finish(saved, o, req.commit);
    }

    method CompleteDroneTask(req: Request, id: Uuid, version: int) returns (o: Outcome)
      modifies repo
      ensures Performed(o, old(repo.Db()), repo.Db(), CompleteTaskOp(req, id, version))
    {
      var saved := repo.Begin();
      if id !in repo.tasks || repo.tasks[id].missionId !in repo.missions {
        o := Fail(NotFound);
      } else if !repo.missions[repo.tasks[id].missionId].CanExecuteAt(req.clock(0)) {
        o := Fail(InvalidTransition);
      } else if !repo.tasks[id].status.CanMoveTo(TaskStatus.Completed) {
        o := Fail(InvalidTransition);
      } else if repo.tasks[id].expiresAt < req.clock(1) {
        o := Fail(Expired);
      } else {
        o := repo.MoveDroneTask(id, TaskStatus.Completed, version, req.clock(2));
        if o.Pass? {
          o := WriteAudit(req, req.uuid(0), DroneTask, id, Complete);
        }
      }
      o := repo.Finish(saved, o, req.commit);
    }

    method ArchiveDroneTask(req: Request, id: Uuid, version: int) returns (o: Outcome)
      modifies repo
      ensures Performed(o, old(repo.Db()), repo.Db(), ArchiveTaskOp(req, id, version))
    {
      var saved := repo.Begin();
      if id !in repo.tasks {
        o := Fail(NotFound);
      } else if !repo.tasks[id].status.CanMoveTo(TaskStatus.Archived) {
        o := Fail(InvalidTransition);
      } else {
        o := repo.MoveDroneTask(id, TaskStatus.Archived, version, req.clock(1));
        if o.Pass? {
          o := WriteAudit(req, req.uuid(0), DroneTask, id, Archive);
        }
      }
      o := repo.Finish(saved, o, req.commit);
    }

    method TransferInTransaction(req: Request, way: Transferred, input: Transfer, version: int) returns (o: Outcome)
      modifies repo
      ensures P.Matches(o, repo.Db(), TransferTask(old(repo.Db()), req, way, input, version))
    {
      o := repo.MoveDroneTask(input.taskId, way.Next(), version, input.recordedAt);
      if o.Pass? {
        o := repo.RecordHandoff(req.uuid(0), input);
      }
      if o.Pass? {
        o := WriteAudit(req, req.uuid(1), DroneTask, input.taskId, way.Action());
      }
    }

    /** HandoffDroneTask and AcceptDroneTask. */
    method TransferDroneTask(req: Request, way: Transferred, input: Transfer, version: int) returns (o: Outcome)
      modifies repo
      ensures Performed(o, old(repo.Db()), repo.Db(), TransferTaskOp(req, way, input, version))
    {
      var saved := repo.Begin();
      o := TransferInTransaction(req, way, input, version);
      o := repo.Finish(saved, o, req.commit);
    }

    // ---------- batches ----------

    method CreateDroneMissionBatch(req: Request, input: BatchInput, ids: seq<Uuid>) returns (o: Outcome)
      modifies repo
      ensures Performed(o, old(repo.Db()), repo.Db(), CreateBatchOp(req, input, ids))
    {
      if |ids| == 0 || input.capacity < |ids| {
        return Fail(CapacityExceeded);
      }
      var distinct := CheckDistinct(ids);
      if Blank(input.code) || Blank(input.flightMethod) || !BusinessCode(input.code) || !distinct {
        return Fail(Conflict);
      }
      var saved := repo.Begin();
      o := repo.CreateDroneMissionBatch(req.uuid(0), input.code, input.flightMethod, input.capacity);
      if o.Pass? {
        o := repo.AttachDroneTasks(req.uuid(0), ids, req.databaseNow);
      }
      if o.Pass? {
        o := WriteAudit(req, req.uuid(1), MissionBatch, req.uuid(0), Create);
      }
      o := repo.Finish(saved, o, req.commit);
    }

    method ChangeBatchInTransaction(req: Request, id: Uuid, step: BatchStep, version: int) returns (o: Outcome)
      modifies repo
      ensures P.Matches(o, repo.Db(), ChangeBatch(old(repo.Db()), req, id, step, version))
    {
      o := repo.ChangeDroneMissionBatch(id, step, version, req.databaseNow);
      if o.Pass? {
        o := WriteAudit(req, req.uuid(0), MissionBatch, id, step.Action());
      }
    }

    method ChangeDroneMissionBatch(req: Request, id: Uuid, step: BatchStep, version: int) returns (o: Outcome)
      modifies repo
      ensures Performed(o, old(repo.Db()), repo.Db(), ChangeBatchOp(req, id, step, version))
    {
      var saved := repo.Begin();
      o := ChangeBatchInTransaction(req, id, step, version);
      o := repo.Finish(saved, o, req.commit);
    }

    // ---------- telemetry and alerts ----------

    /** validateObservationTarget and the recorder check. */
    method CheckTarget(input: ObservationInput) returns (o: Outcome)
      ensures o == (if !Attached(repo.Db(), input.batchId, input.taskId) then Fail(Conflict)
                    else if !repo.tasks[input.taskId].status.InProgress? then Fail(InvalidTransition)
                    else if !repo.batches[input.batchId].status.Running? then Fail(InvalidTransition)
                    else if input.recorder !in repo.operators then Fail(NotFound)
                    else if !repo.operators[input.recorder].CanRecordObservation() then Fail(Conflict)
                    else Pass)
    {
      if !Attached(repo.Db(), input.batchId, input.taskId) {
        return Fail(Conflict);
      }
      if !repo.tasks[input.taskId].status.InProgress? || !repo.batches[input.batchId].status.Running? {
        return Fail(InvalidTransition);
      }
      if input.recorder !in repo.operators {
        return Fail(NotFound);
      }
      if !repo.operators[input.recorder].CanRecordObservation() {
        return Fail(Conflict);
      }
      return Pass;
    }

    method SubmitInTransaction(req: Request, input: ObservationInput) returns (o: Outcome)
      requires input.observedAt.Some? && input.riskScore.Finite? && input.alertThreshold.Finite?
      requires 0.0 <= input.riskScore.value && 0.0 <= input.alertThreshold.value && !Blank(input.scale)
      modifies repo
      ensures P.Matches(o, repo.Db(), T.SubmitObservation(old(repo.Db()), req, input))
    {
      o := CheckTarget(input);
      if o.Pass? {
        o := repo.CreateObservation(req.uuid(0),
          Telemetry(input.taskId, input.batchId, input.recorder, TelemetryStatus.Pending, input.riskScore.value,
                    input.scale, input.alertThreshold.value, input.observedAt.value, None, 1));
      }
      if o.Pass? {
        o := WriteAudit(req, req.uuid(1), TelemetryRecord, req.uuid(0), Record);
      }
    }

    method SubmitObservation(req: Request, input: ObservationInput) returns (o: Outcome)
      modifies repo
      ensures Performed(o, old(repo.Db()), repo.Db(), SubmitOp(req, input))
    {
      if input.observedAt.None? || input.riskScore.NotFinite? || input.alertThreshold.NotFinite? {
        return Fail(Conflict);
      }
      if input.riskScore.value < 0.0 || input.alertThreshold.value < 0.0 || Blank(input.scale) {
        return Fail(Conflict);
      }
      var saved := repo.Begin();
      o := SubmitInTransaction(req, input);
      o := repo.Finish(saved, o, req.commit);
    }

    /** An alert and its audit row; a rejecting review opens one too. */
    method OpenInTransaction(req: Request, task: Uuid, kind: AlertKind, reason: string, dueAt: Time)
      returns (o: Outcome)
      modifies repo
      ensures P.Matches(o, repo.Db(), InsertAlertWithAudit(old(repo.Db()), req, task, kind, reason, dueAt))
    {
      o := repo.CreateIntervention(req.uuid(0), task, kind, reason, dueAt);
      if o.Pass? {
        o := WriteAudit(req, req.uuid(1), SafetyAlert, req.uuid(0), OpenAlert);
      }
    }

    method OpenReassessmentAlert(req: Request, task: Uuid) returns (o: Outcome)
      modifies repo
      ensures P.Matches(o, repo.Db(), OpenReassessment(old(repo.Db()), req, task))
    {
      o := OpenInTransaction(req, task, Reassess, REASSESS_REASON, req.clock(2) + 72 * HOUR);
    }

    method ReviewInTransaction(req: Request, id: Uuid, task: Uuid, accepted: bool, version: int, taskVersion: int)
      returns (o: Outcome)
      modifies repo
      ensures P.Matches(o, repo.Db(),
                T.ReviewObservation(old(repo.Db()), req, id, task, accepted, version, taskVersion))
    {
      if id !in repo.telemetry {
        return Fail(NotFound);
      }
      if repo.telemetry[id].taskId != task {
        return Fail(Conflict);
      }
      o := repo.ReviewObservationRecord(id, accepted, version, req.clock(0));
      if o.Fail? {
        return;
      }
      var next := TaskStatus.Verified;
      if !accepted {
        next := TaskStatus.Rejected;
      }
      o := repo.MoveDroneTask(task, next, taskVersion, req.clock(1));
      if o.Fail? {
        return;
      }
      if !accepted {
        o := OpenReassessmentAlert(req, task);
        if o.Fail? {
          return;
        }
      }
      o := WriteAudit(req, req.uuid(if accepted then 0 else 2), TelemetryRecord, id, Review);
    }

    method ReviewObservation(req: Request, id: Uuid, task: Uuid, accepted: bool, version: int, taskVersion: int)
      returns (o: Outcome)
      modifies repo
      ensures Performed(o, old(repo.Db()), repo.Db(), ReviewOp(req, id, task, accepted, version, taskVersion))
    {
      var saved := repo.Begin();
      o := ReviewInTransaction(req, id, task, accepted, version, taskVersion);
      o := repo.Finish(saved, o, req.commit);
    }

    /** A missing due date is three days ahead; the clock is read again for the check that follows. */
    method CheckAlert(req: Request, input: AlertInput) returns (o: Outcome, dueAt: Time)
      ensures o.Pass? ==> input.kind.Some?
      ensures forall db :: OpenAlertFor(db, req, input)
                == if o.Fail? then Err(o.error)
                   else InsertAlertWithAudit(db, req, input.taskId, input.kind.value, input.reason, dueAt)
    {
      var readings := 0;
      if input.dueAt.None? {
        dueAt := req.clock(0) + 72 * HOUR;
        readings := 1;
      } else {
        dueAt := input.dueAt.value;
      }
      if Blank(input.reason) || input.kind.None? || dueAt < req.clock(readings) - 24 * HOUR {
        return Fail(Conflict), dueAt;
      }
      return Pass, dueAt;
    }

    method OpenIntervention(req: Request, input: AlertInput) returns (o: Outcome)
      modifies repo
      ensures Performed(o, old(repo.Db()), repo.Db(), OpenAlertOp(req, input))
    {
      var checked, dueAt := CheckAlert(req, input);
      if checked.Fail? {
        return checked;
      }
      var saved := repo.Begin();
      o := OpenInTransaction(req, input.taskId, input.kind.value, input.reason, dueAt);
      o := repo.Finish(saved, o, req.commit);
    }

    method MarkInterventionInProgress(req: Request, id: Uuid) returns (o: Outcome)
      modifies repo
      ensures Performed(o, old(repo.Db()), repo.Db(), StartAlertOp(req, id))
    {
      var saved := repo.Begin();
      o := repo.MarkInterventionInProgress(id);
      if o.Pass? {
        o := WriteAudit(req, req.uuid(0), SafetyAlert, id, Start);
      }
      o := repo.Finish(saved, o, req.commit);
    }

    method CloseIntervention(req: Request, id: Uuid) returns (o: Outcome)
      modifies repo
      ensures Performed(o, old(repo.Db()), repo.Db(), CloseAlertOp(req, id))
    {
      var saved := repo.Begin();
      o := repo.CloseIntervention(id, req.clock(0));
      if o.Pass? {
        o := WriteAudit(req, req.uuid(0), SafetyAlert, id, Close);
      }
      o := repo.Finish(saved, o, req.commit);
    }
  }
}
