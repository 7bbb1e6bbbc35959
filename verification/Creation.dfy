/**
 Creating missions with their drones, and tasks in bulk: exactly when the insert loops go through, and what
 they leave. The checks on the request rule out that the rows of one request clash with each other.
 */
module Creation {
  import opened Basics
  import opened Status
  import opened Tables
  import opened Text
  import opened Transactions
  import opened Runs
  import opened Effects
  import R = Repository
  import Quota
  import TaskRules

  /** The identifiers number k to k + n - 1 are unused and different. */
  ghost predicate NewIds(used: set<Uuid>, uuid: nat -> Uuid, k: nat, n: nat) {
    && (forall i {:trigger uuid(i)} :: k <= i < k + n ==> uuid(i) !in used)
    && (forall i, j {:trigger uuid(i), uuid(j)} :: k <= i < j < k + n ==> uuid(i) != uuid(j))
  }

  lemma NewIdsStep(used: set<Uuid>, uuid: nat -> Uuid, k: nat, n: nat)
    requires n > 0
    ensures NewIds(used, uuid, k, n) <==> uuid(k) !in used && NewIds(used + {uuid(k)}, uuid, k + 1, n - 1)
  {
  }

  ghost function IdSet(uuid: nat -> Uuid, k: nat, n: nat): set<Uuid>
    decreases n
  {
    if n == 0 then {} else {uuid(k)} + IdSet(uuid, k + 1, n - 1)
  }

  /** The old rows as they were, and each new row under its identifier. */
  ghost predicate RowsInserted<T(!new)>(
    before: map<Uuid, T>, after: map<Uuid, T>, rows: seq<T>, uuid: nat -> Uuid, k: nat)
  {
    && after.Keys == before.Keys + IdSet(uuid, k, |rows|)
    && (forall x :: x in before ==> x in after && after[x] == before[x])
    && (forall i {:trigger uuid(i)} :: k <= i < k + |rows| ==> uuid(i) in after && after[uuid(i)] == rows[i - k])
  }

  lemma RowsInsertedStep<T(!new)>(before: map<Uuid, T>, after: map<Uuid, T>, rows: seq<T>, uuid: nat -> Uuid, k: nat)
    requires rows != [] && uuid(k) !in before
    requires RowsInserted(before[uuid(k) := rows[0]], after, rows[1..], uuid, k + 1)
    ensures RowsInserted(before, after, rows, uuid, k)
  {
    var next := before[uuid(k) := rows[0]];
    assert next.Keys == before.Keys + {uuid(k)};
    forall x | x in before ensures x in after && after[x] == before[x] { assert next[x] == before[x]; }
    forall i {:trigger uuid(i)} | k <= i < k + |rows| ensures uuid(i) in after && after[uuid(i)] == rows[i - k] {
      if i > k { assert rows[1..][i - (k + 1)] == rows[i - k]; } else { assert uuid(k) in next; }
    }
  }

  // ---------- drones ----------

  function NewDrone(mission: Uuid, input: DroneInput): Drone {
    Drone(mission, input.code, input.roomLabel, input.required, 0)
  }

  function NewDrones(mission: Uuid, inputs: seq<DroneInput>): seq<Drone> {
    seq(|inputs|, i requires 0 <= i < |inputs| => NewDrone(mission, inputs[i]))
  }

  ghost predicate DronesFit(db: Database, mission: Uuid, inputs: seq<DroneInput>) {
    && (forall i :: 0 <= i < |inputs| ==>
          && mission in db.missions && 0 < inputs[i].required <= MAX_INT32
          && R.DroneCodeFree(db.drones, mission, inputs[i].code))
    && (forall i, j :: 0 <= i < j < |inputs| ==> inputs[i].code != inputs[j].code)
  }

  lemma DronesFitStep(db: Database, next: Database, mission: Uuid, inputs: seq<DroneInput>, id: Uuid)
    requires inputs != [] && R.InsertDrone(db, id, NewDrone(mission, inputs[0])) == Ok(next)
    ensures DronesFit(next, mission, inputs[1..]) <==> DronesFit(db, mission, inputs)
  {
    var rest := inputs[1..];
    if DronesFit(next, mission, rest) {
      forall i | 0 <= i < |inputs|
        ensures mission in db.missions && 0 < inputs[i].required <= MAX_INT32
        ensures R.DroneCodeFree(db.drones, mission, inputs[i].code)
      {
        if i > 0 {
          assert inputs[i] == rest[i - 1];
          forall d | d in db.drones ensures db.drones[d].missionId != mission || db.drones[d].code != inputs[i].code {
            assert next.drones[d] == db.drones[d];
          }
        }
      }
      forall i, j | 0 <= i < j < |inputs| ensures inputs[i].code != inputs[j].code {
        assert inputs[j] == rest[j - 1];
        if i > 0 { assert inputs[i] == rest[i - 1]; } else { assert next.drones[id].code == inputs[0].code; }
      }
    }
  }

  lemma OneDroneExact(db: Database, mission: Uuid, id: Uuid, input: DroneInput)
    ensures R.InsertDrone(db, id, NewDrone(mission, input)).Ok? <==>
              && id !in db.drones && mission in db.missions && 0 < input.required <= MAX_INT32
              && R.DroneCodeFree(db.drones, mission, input.code)
    ensures R.InsertDrone(db, id, NewDrone(mission, input)).Ok? ==>
              R.InsertDrone(db, id, NewDrone(mission, input)).value
                == db.(drones := db.drones[id := NewDrone(mission, input)])
  {
  }

  /** The insert loop goes through if and only if every drone fits and the identifiers are new. */
  lemma {:induction false} InsertDronesExact(
    db: Database, mission: Uuid, inputs: seq<DroneInput>, uuid: nat -> Uuid, k: nat)
    ensures InsertDrones(db, mission, inputs, uuid, k).Ok? <==>
              DronesFit(db, mission, inputs) && NewIds(db.drones.Keys, uuid, k, |inputs|)
    decreases |inputs|
  {
    if inputs != [] {
      NewIdsStep(db.drones.Keys, uuid, k, |inputs|);
      OneDroneExact(db, mission, uuid(k), inputs[0]);
      var step := R.InsertDrone(db, uuid(k), NewDrone(mission, inputs[0]));
      if step.Ok? {
        assert step.value.drones.Keys == db.drones.Keys + {uuid(k)};
        InsertDronesExact(step.value, mission, inputs[1..], uuid, k + 1);
        DronesFitStep(db, step.value, mission, inputs, uuid(k));
      }
    }
  }

  /** And then it leaves one new drone for each input. */
  lemma {:induction false} InsertDronesLeaves(
    db: Database, mission: Uuid, inputs: seq<DroneInput>, uuid: nat -> Uuid, k: nat)
    requires InsertDrones(db, mission, inputs, uuid, k).Ok?
    ensures var d := InsertDrones(db, mission, inputs, uuid, k).value;
            d == db.(drones := d.drones) && RowsInserted(db.drones, d.drones, NewDrones(mission, inputs), uuid, k)
    decreases |inputs|
  {
    if inputs != [] {
      OneDroneExact(db, mission, uuid(k), inputs[0]);
      var next := R.InsertDrone(db, uuid(k), NewDrone(mission, inputs[0])).value;
      InsertDronesLeaves(next, mission, inputs[1..], uuid, k + 1);
      assert NewDrones(mission, inputs)[1..] == NewDrones(mission, inputs[1..]);
      var d := InsertDrones(db, mission, inputs, uuid, k).value;
      RowsInsertedStep(db.drones, d.drones, NewDrones(mission, inputs), uuid, k);
    }
  }

  // ---------- a mission ----------

  ghost predicate DroneComplete(drone: DroneInput) {
    !Blank(drone.code) && BusinessCode(drone.code) && !Blank(drone.roomLabel) && 0 < drone.required
  }

  /** Everything about the request but its end, which is compared with the clock. */
  ghost predicate MissionComplete(input: MissionInput) {
    && BusinessCode(input.code) && !Blank(input.name) && Utf8Length(TrimSpace(input.name)) <= 80
    && input.zoneKnown && input.timezone != "" && input.startsAt < input.endsAt
    && input.drones != [] && (forall i :: 0 <= i < |input.drones| ==> DroneComplete(input.drones[i]))
    && (forall i, j :: 0 <= i < j < |input.drones| ==> input.drones[i].code != input.drones[j].code)
  }

  /** The checks pass exactly on a complete request that does not end in the past; the latter alone is an expiry. */
  lemma MissionChecksExact(req: Request, input: MissionInput)
    ensures MissionChecks(req, input).Pass? <==> MissionComplete(input) && req.clock(0) <= input.endsAt
    ensures MissionChecks(req, input) == Fail(Expired) <==> MissionComplete(input) && input.endsAt < req.clock(0)
    ensures MissionChecks(req, input).Fail? ==> MissionChecks(req, input).error in {Conflict, Expired}
  {
    assert DroneInputsOk(input.drones) <==>
        && (forall i :: 0 <= i < |input.drones| ==> DroneComplete(input.drones[i]))
        && (forall i, j :: 0 <= i < j < |input.drones| ==> input.drones[i].code != input.drones[j].code) by {
      forall i | 0 <= i < |input.drones| ensures DroneInputOk(input.drones[i]) <==> DroneComplete(input.drones[i]) {}
    }
  }

  /** What a caller can check beforehand. No drone code needs checking against the table: the mission is new. */
  ghost predicate MissionCreatable(db: Database, req: Request, input: MissionInput) {
    && MissionComplete(input) && req.clock(0) <= input.endsAt
    && req.uuid(0) !in db.missions && input.createdBy in db.operators
    && (forall m :: m in db.missions ==> db.missions[m].code != input.code)
    && (forall i :: 0 <= i < |input.drones| ==> input.drones[i].required <= MAX_INT32)
    && NewIds(db.drones.Keys, req.uuid, 1, |input.drones|)
    && AuditAccepted(db, req, req.uuid(1 + |input.drones|))
  }

  /** The stored row, field by field: a draft at version 1. */
  ghost predicate MissionStored(row: Mission, input: MissionInput) {
    && row.status == MissionStatus.Draft && row.version == 1
    && row.code == input.code && row.name == input.name && row.timezone == input.timezone
    && row.startsAt == input.startsAt && row.endsAt == input.endsAt && row.createdBy == input.createdBy
  }

  function MissionAudit(req: Request, input: MissionInput): AuditRow {
    AuditRow(req.uuid(1 + |input.drones|), req.requestId, req.operator, DroneMission, req.uuid(0), Create)
  }

  /** In a new mission only the request's own codes can clash, and the scan has ruled that out. */
  lemma NewMissionFits(db: Database, db1: Database, mission: Uuid, inputs: seq<DroneInput>)
    requires Quota.Placed(db.missions, db.drones, db.tasks) && mission !in db.missions
    requires db1.drones == db.drones && mission in db1.missions && DroneInputsOk(inputs)
    ensures DronesFit(db1, mission, inputs) <==> forall i :: 0 <= i < |inputs| ==> inputs[i].required <= MAX_INT32
  {
    forall i | 0 <= i < |inputs|
      ensures R.DroneCodeFree(db1.drones, mission, inputs[i].code) && 1 <= inputs[i].required
    {
      assert DroneInputOk(inputs[i]);
    }
  }

  lemma MissionInserts(db: Database, id: Uuid, input: MissionInput)
    ensures var inserted := R.InsertMission(db, id, DraftMission(input));
            && (inserted.Ok? <==>
                  && id !in db.missions && input.createdBy in db.operators && input.startsAt < input.endsAt
                  && (forall m :: m in db.missions ==> db.missions[m].code != input.code))
            && (inserted.Ok? ==> inserted.value == db.(missions := db.missions[id := DraftMission(input)]))
    ensures MissionStored(DraftMission(input), input)
  {
  }

  /**
   A mission is created if and only if the checks pass and its code and creator are acceptable; then with all its
   drones.
   */
  lemma CreateMissionExact(db: Database, req: Request, input: MissionInput)
    requires Quota.Placed(db.missions, db.drones, db.tasks)
    ensures CreateMission(db, req, input).Ok? <==> MissionCreatable(db, req, input)
    ensures CreateMission(db, req, input).Ok? ==>
              var d := CreateMission(db, req, input).value;
              && req.uuid(0) in d.missions && MissionStored(d.missions[req.uuid(0)], input)
              && d == db.(missions := db.missions[req.uuid(0) := d.missions[req.uuid(0)]], drones := d.drones,
                   log := db.log + [MissionAudit(req, input)])
              && RowsInserted(db.drones, d.drones, NewDrones(req.uuid(0), input.drones), req.uuid, 1)
  {
    MissionChecksExact(req, input);
    MissionInserts(db, req.uuid(0), input);
    var inserted := R.InsertMission(db, req.uuid(0), DraftMission(input));
    if MissionChecks(req, input).Pass? && inserted.Ok? {
      InsertDronesExact(inserted.value, req.uuid(0), input.drones, req.uuid, 1);
      NewMissionFits(db, inserted.value, req.uuid(0), input.drones);
      if InsertDrones(inserted.value, req.uuid(0), input.drones, req.uuid, 1).Ok? {
        InsertDronesLeaves(inserted.value, req.uuid(0), input.drones, req.uuid, 1);
        var filled := InsertDrones(inserted.value, req.uuid(0), input.drones, req.uuid, 1).value;
        TaskRules.AuditDecides(filled, req, req.uuid(1 + |input.drones|), DroneMission, req.uuid(0), Create);
      }
    }
  }

  lemma CreateMissionOpExact(db: Database, op: Op)
    requires op.CreateMissionOp? && Quota.Placed(db.missions, db.drones, db.tasks)
    ensures Succeeds(db, op) <==> !op.req.commit.Refused? && MissionCreatable(db, op.req, op.mission)
  {
    CreateMissionExact(db, op.req, op.mission);
  }

  // ---------- tasks in bulk ----------

  function NewTask(input: TaskInput): Task {
    Task(input.missionId, input.droneId, input.code, TaskStatus.Queued, None, None, input.expiresAt, 1)
  }

  function NewTasks(inputs: seq<TaskInput>): seq<Task> {
    seq(|inputs|, i requires 0 <= i < |inputs| => NewTask(inputs[i]))
  }

  ghost predicate DistinctCodes(inputs: seq<TaskInput>) {
    forall i, j :: 0 <= i < j < |inputs| ==> inputs[i].code != inputs[j].code
  }

  /** The scan passes if and only if every request is complete and unexpired and no code repeats. */
  lemma {:induction false} BulkCheckExact(inputs: seq<TaskInput>, seen: set<string>, now: Time)
    ensures BulkCheck(inputs, seen, now).Pass? <==>
              && (forall i :: 0 <= i < |inputs| ==>
                    !Blank(inputs[i].code) && now <= inputs[i].expiresAt && inputs[i].code !in seen)
              && DistinctCodes(inputs)
    decreases |inputs|
  {
    if inputs != [] {
      var rest := inputs[1..];
      BulkCheckExact(rest, seen + {inputs[0].code}, now);
      forall i | 0 < i < |inputs| ensures inputs[i] == rest[i - 1] {}
      if BulkCheck(inputs, seen, now).Pass? {
        forall i, j | 0 <= i < j < |inputs| ensures inputs[i].code != inputs[j].code {
          assert inputs[j] == rest[j - 1];
        }
      }
    }
  }

  ghost predicate TaskFits(db: Database, input: TaskInput) {
    && R.DroneOfMission(db, input.missionId, input.droneId) && input.missionId in db.missions
    && R.TaskCodeFree(db.tasks, input.code)
  }

  ghost predicate TasksFit(db: Database, inputs: seq<TaskInput>) {
    (forall i :: 0 <= i < |inputs| ==> TaskFits(db, inputs[i])) && DistinctCodes(inputs)
  }

  lemma TasksFitStep(db: Database, next: Database, inputs: seq<TaskInput>, id: Uuid)
    requires inputs != [] && InsertQueuedTask(db, id, inputs[0]) == Ok(next)
    ensures TasksFit(next, inputs[1..]) <==> TasksFit(db, inputs)
  {
    var rest := inputs[1..];
    if TasksFit(next, rest) {
      forall i | 0 <= i < |inputs| ensures TaskFits(db, inputs[i]) {
        if i > 0 {
          assert TaskFits(next, rest[i - 1]);
          forall t | t in db.tasks ensures db.tasks[t].code != inputs[i].code { assert next.tasks[t] == db.tasks[t]; }
        }
      }
      forall i, j | 0 <= i < j < |inputs| ensures inputs[i].code != inputs[j].code {
        assert inputs[j] == rest[j - 1] && TaskFits(next, rest[j - 1]);
        if i > 0 { assert inputs[i] == rest[i - 1]; } else { assert next.tasks[id].code == inputs[0].code; }
      }
    }
    if TasksFit(db, inputs) {
      forall i | 0 <= i < |rest|
        ensures TaskFits(next, rest[i])
      {
        assert rest[i] == inputs[i + 1] && TaskFits(db, inputs[i + 1]);
      }
    }
  }

  lemma OneTaskExact(db: Database, id: Uuid, input: TaskInput)
    ensures InsertQueuedTask(db, id, input).Ok? <==> TaskFits(db, input) && id !in db.tasks
    ensures InsertQueuedTask(db, id, input).Ok? ==>
              InsertQueuedTask(db, id, input).value == db.(tasks := db.tasks[id := NewTask(input)])
  {
  }

  /** The insert loop goes through if and only if every task fits and the identifiers are new. */
  lemma {:induction false} InsertTasksExact(db: Database, inputs: seq<TaskInput>, uuid: nat -> Uuid, k: nat)
    ensures InsertQueuedTasks(db, inputs, uuid, k).Ok? <==>
              TasksFit(db, inputs) && NewIds(db.tasks.Keys, uuid, k, |inputs|)
    decreases |inputs|
  {
    if inputs != [] {
      NewIdsStep(db.tasks.Keys, uuid, k, |inputs|);
      OneTaskExact(db, uuid(k), inputs[0]);
      var step := InsertQueuedTask(db, uuid(k), inputs[0]);
      if step.Ok? {
        assert step.value.tasks.Keys == db.tasks.Keys + {uuid(k)};
        InsertTasksExact(step.value, inputs[1..], uuid, k + 1);
        TasksFitStep(db, step.value, inputs, uuid(k));
      }
    }
  }

  /** And then it leaves one new queued task for each request. */
  lemma {:induction false} InsertTasksLeaves(db: Database, inputs: seq<TaskInput>, uuid: nat -> Uuid, k: nat)
    requires InsertQueuedTasks(db, inputs, uuid, k).Ok?
    ensures var d := InsertQueuedTasks(db, inputs, uuid, k).value;
            d == db.(tasks := d.tasks) && RowsInserted(db.tasks, d.tasks, NewTasks(inputs), uuid, k)
    decreases |inputs|
  {
    if inputs != [] {
      OneTaskExact(db, uuid(k), inputs[0]);
      var next := InsertQueuedTask(db, uuid(k), inputs[0]).value;
      InsertTasksLeaves(next, inputs[1..], uuid, k + 1);
      assert NewTasks(inputs)[1..] == NewTasks(inputs[1..]);
      RowsInsertedStep(db.tasks, InsertQueuedTasks(db, inputs, uuid, k).value.tasks, NewTasks(inputs), uuid, k);
    }
  }

  function BulkAudit(req: Request, inputs: seq<TaskInput>): AuditRow
    requires inputs != []
  {
    AuditRow(req.uuid(|inputs|), req.requestId, req.operator, TaskBulk, inputs[0].missionId, CreateBulk)
  }

  /** All tasks of a bulk request are created if and only if each one could be, otherwise none is. */
  lemma CreateTasksExact(db: Database, req: Request, inputs: seq<TaskInput>)
    ensures CreateTasks(db, req, inputs).Ok? <==>
              && inputs != []
              && (forall i :: 0 <= i < |inputs| ==> !Blank(inputs[i].code) && req.clock(0) <= inputs[i].expiresAt)
              && TasksFit(db, inputs) && NewIds(db.tasks.Keys, req.uuid, 0, |inputs|)
              && AuditAccepted(db, req, req.uuid(|inputs|))
    ensures CreateTasks(db, req, inputs).Ok? ==>
              var d := CreateTasks(db, req, inputs).value;
              && d == db.(tasks := d.tasks, log := db.log + [BulkAudit(req, inputs)])
              && RowsInserted(db.tasks, d.tasks, NewTasks(inputs), req.uuid, 0)
  {
    BulkCheckExact(inputs, {}, req.clock(0));
    InsertTasksExact(db, inputs, req.uuid, 0);
    if InsertQueuedTasks(db, inputs, req.uuid, 0).Ok? {
      InsertTasksLeaves(db, inputs, req.uuid, 0);
    }
  }
}
