/** Conservation of the quota: completions are counted exactly and never exceed what a drone requires. */
module Quota {
  import opened Basics
  import opened Status
  import opened Tables
  import opened Transactions
  import opened Runs
  import opened Effects
  import R = Repository

  /** The tasks of a drone that carry a completion time. */
  ghost function CompletedOf(tasks: Tasks, drone: Uuid): set<Uuid> {
    set t | t in tasks && tasks[t].droneId == drone && tasks[t].completedAt.Some?
  }

  /** Every drone belongs to a mission, every task to a drone of its own mission. */
  ghost predicate Placed(missions: Missions, drones: Drones, tasks: Tasks) {
    && (forall d :: d in drones ==> drones[d].missionId in missions)
    && (forall t :: t in tasks ==>
          tasks[t].droneId in drones && drones[tasks[t].droneId].missionId == tasks[t].missionId)
  }

  ghost predicate Counted(drones: Drones, tasks: Tasks) {
    forall d :: d in drones ==> drones[d].completed == |CompletedOf(tasks, d)| <= drones[d].required
  }

  /** A queued task was never completed; a completed one carries the time. */
  ghost predicate Timed(tasks: Tasks) {
    forall t :: t in tasks ==>
      && (tasks[t].status.Queued? ==> tasks[t].completedAt.None?)
      && (tasks[t].status.Completed? ==> tasks[t].completedAt.Some?)
  }

  ghost predicate Inv(db: Database) {
    Placed(db.missions, db.drones, db.tasks) && Counted(db.drones, db.tasks) && Timed(db.tasks)
  }

  /** A rewrite of the task table that moves statuses only, to ones that are neither queued nor completed. */
  ghost predicate StatusesOnly(before: Tasks, after: Tasks) {
    && before.Keys == after.Keys
    && forall t :: t in before ==>
         && after[t].missionId == before[t].missionId && after[t].droneId == before[t].droneId
         && after[t].completedAt == before[t].completedAt
         && (after[t].status == before[t].status || !(after[t].status.Queued? || after[t].status.Completed?))
  }

  lemma MovesKeep(missions: Missions, drones: Drones, before: Tasks, after: Tasks)
    requires Placed(missions, drones, before) && Counted(drones, before) && Timed(before) && StatusesOnly(before, after)
    ensures Placed(missions, drones, after) && Counted(drones, after) && Timed(after)
  {
    forall d ensures CompletedOf(after, d) == CompletedOf(before, d) {}
  }

  lemma AddedTasksKeep(missions: Missions, drones: Drones, before: Tasks, after: Tasks)
    requires Placed(missions, drones, before) && Counted(drones, before) && Timed(before)
    requires TasksAdded(drones, before, after)
    ensures Placed(missions, drones, after) && Counted(drones, after) && Timed(after)
  {
    forall d ensures CompletedOf(after, d) == CompletedOf(before, d) {}
  }

  /** A new drone has no tasks yet, so its zero is right. */
  lemma AddedDronesKeep(db: Database, d: Database, req: Request)
    requires Inv(db) && CreateMissionEffect(db, d, req)
    ensures Inv(d)
  {
    forall x | x in d.drones && x !in db.drones ensures CompletedOf(db.tasks, x) == {} {}
  }

  /** Completing a task adds it to its drone's completions and to no other drone's. */
  lemma CompletionCounts(tasks: Tasks, id: Uuid, done: Task, drone: Uuid)
    requires id in tasks && tasks[id].completedAt.None?
    requires done.droneId == tasks[id].droneId && done.completedAt.Some?
    ensures |CompletedOf(tasks[id := done], drone)|
              == |CompletedOf(tasks, drone)| + (if drone == done.droneId then 1 else 0)
  {
    if drone == done.droneId {
      assert CompletedOf(tasks[id := done], drone) == CompletedOf(tasks, drone) + {id};
    } else {
      assert CompletedOf(tasks[id := done], drone) == CompletedOf(tasks, drone);
    }
  }

  lemma CompletionKeeps(db: Database, d: Database, id: Uuid, version: int)
    requires Inv(db) && CompleteTaskEffect(db, d, id, version)
    ensures Inv(d)
  {
    assert db.tasks[id].completedAt.None?;
    forall x | x in d.drones ensures d.drones[x].completed == |CompletedOf(d.tasks, x)| <= d.drones[x].required {
      CompletionCounts(db.tasks, id, d.tasks[id], x);
    }
  }

  ghost predicate CreatesOrCompletes(op: Op) {
    op.CreateMissionOp? || op.CreateTaskOp? || op.CreateTasksOp? || op.CompleteTaskOp? || op.AdvanceMissionOp?
  }

  lemma MovedOnlyStatus(before: Tasks, after: Tasks, id: Uuid, status: TaskStatus, version: int)
    requires TaskMoved(before, after, id, status, version) && !status.Queued? && !status.Completed?
    ensures StatusesOnly(before, after)
  {
  }

  lemma BulkOnlyStatuses(tasks: Tasks, links: set<Link>, batch: Uuid, ids: seq<Uuid>)
    ensures StatusesOnly(tasks, TakenUp(tasks, ids))
    ensures StatusesOnly(tasks, RejectedLive(tasks, ids))
    ensures StatusesOnly(tasks, R.Restored(tasks, links, batch))
  {
  }

  /** Every other operation touches nothing of the task table but statuses, versions and accept times. */
  lemma OthersMoveStatuses(db: Database, d: Database, op: Op)
    requires Effect(db, d, op) && !CreatesOrCompletes(op)
    ensures d.missions == db.missions && d.drones == db.drones && StatusesOnly(db.tasks, d.tasks)
  {
    match op
    case ArchiveTaskOp(_, id, version) => MovedOnlyStatus(db.tasks, d.tasks, id, TaskStatus.Archived, version);
    case TransferTaskOp(_, way, input, version) =>
      MovedOnlyStatus(db.tasks, d.tasks, input.taskId, way.Next(), version);
    case ReviewOp(_, _, task, accepted, _, version) =>
      MovedOnlyStatus(db.tasks, d.tasks, task, if accepted then TaskStatus.Verified else TaskStatus.Rejected, version);
    case CreateBatchOp(req, _, ids) => BulkOnlyStatuses(db.tasks, db.links, req.uuid(0), ids);
    case ChangeBatchOp(_, id, _, _) => BulkOnlyStatuses(db.tasks, db.links, id, []);
    case ExpireOp(req, ids) => BulkOnlyStatuses(db.tasks, db.links, req.uuid(0), ids);
    case _ =>
  }

  lemma AdvanceKeeps(db: Database, d: Database, id: Uuid, step: MissionStep, version: int)
    requires Inv(db) && AdvanceMissionEffect(db, d, id, step, version)
    ensures Inv(d)
  {
  }

  /** Every operation keeps the quota exact. */
  lemma Kept(db: Database, d: Database, op: Op)
    requires Inv(db) && Effect(db, d, op)
    ensures Inv(d)
  {
    if CreatesOrCompletes(op) {
      match op
      case CreateMissionOp(req, _) => AddedDronesKeep(db, d, req);
      case CompleteTaskOp(_, id, version) => CompletionKeeps(db, d, id, version);
      case AdvanceMissionOp(_, id, step, version) => AdvanceKeeps(db, d, id, step, version);
      case _ => AddedTasksKeep(db.missions, db.drones, db.tasks, d.tasks);
    } else {
      OthersMoveStatuses(db, d, op);
      MovesKeep(db.missions, db.drones, db.tasks, d.tasks);
    }
  }

  // ---------- mission progress ----------

  datatype Progress = Progress(
    drones: nat, required: int, completed: nat, accepted: nat, inProgress: nat, verified: nat, rejected: nat,
    archived: nat)
  {
    predicate Complete() {
      required > 0 && completed >= required && rejected == 0
    }

    function Remaining(): int {
      if required <= completed then 0 else required - completed
    }
  }

  ghost function DronesOf(drones: Drones, mission: Uuid): set<Uuid> {
    set d | d in drones && drones[d].missionId == mission
  }

  ghost function InStatus(tasks: Tasks, mission: Uuid, status: TaskStatus): set<Uuid> {
    set t | t in tasks && tasks[t].missionId == mission && tasks[t].status == status
  }

  ghost function Pick(s: set<Uuid>): Uuid
    requires s != {}
    ensures Pick(s) in s
  {
    var x :| x in s; x
  }

  ghost function RequiredSum(drones: Drones, s: set<Uuid>): int
    requires s <= drones.Keys
  {
    if s == {} then 0 else drones[Pick(s)].required + RequiredSum(drones, s - {Pick(s)})
  }

  ghost function CompletedSum(drones: Drones, s: set<Uuid>): int
    requires s <= drones.Keys
  {
    if s == {} then 0 else drones[Pick(s)].completed + CompletedSum(drones, s - {Pick(s)})
  }

  ghost function MissionProgress(db: Database, mission: Uuid): Progress {
    Progress(
      |DronesOf(db.drones, mission)|, RequiredSum(db.drones, DronesOf(db.drones, mission)),
      |InStatus(db.tasks, mission, TaskStatus.Completed)|, |InStatus(db.tasks, mission, TaskStatus.Accepted)|,
      |InStatus(db.tasks, mission, TaskStatus.InProgress)|, |InStatus(db.tasks, mission, TaskStatus.Verified)|,
      |InStatus(db.tasks, mission, TaskStatus.Rejected)|, |InStatus(db.tasks, mission, TaskStatus.Archived)|)
  }

  /** The sums do not depend on the order in which the drones are visited. */
  lemma {:induction false} SumsAdd(drones: Drones, s: set<Uuid>, d: Uuid)
    requires s <= drones.Keys && d in s
    ensures RequiredSum(drones, s) == drones[d].required + RequiredSum(drones, s - {d})
    ensures CompletedSum(drones, s) == drones[d].completed + CompletedSum(drones, s - {d})
  {
    var x := Pick(s);
    if x != d {
      SumsAdd(drones, s - {x}, d);
      SumsAdd(drones, s - {d}, x);
      assert s - {x} - {d} == s - {d} - {x};
    }
  }

  lemma {:induction false} SameSum(before: Drones, after: Drones, s: set<Uuid>)
    requires s <= before.Keys && s <= after.Keys && forall x :: x in s ==> before[x] == after[x]
    ensures RequiredSum(before, s) == RequiredSum(after, s)
  {
    if s != {} {
      SameSum(before, after, s - {Pick(s)});
    }
  }

  ghost function TasksOf(tasks: Tasks, mission: Uuid, status: TaskStatus): set<Uuid> {
    set t | t in tasks && tasks[t].status == status && tasks[t].missionId == mission
  }

  /** The report counts the mission's drones and its tasks in each status. */
  lemma ProgressCounts(db: Database, mission: Uuid)
    ensures var p := MissionProgress(db, mission);
            && p.drones == |set x | x in db.drones && db.drones[x].missionId == mission|
            && p.completed == |TasksOf(db.tasks, mission, TaskStatus.Completed)|
            && p.accepted == |TasksOf(db.tasks, mission, TaskStatus.Accepted)|
            && p.inProgress == |TasksOf(db.tasks, mission, TaskStatus.InProgress)|
            && p.verified == |TasksOf(db.tasks, mission, TaskStatus.Verified)|
            && p.rejected == |TasksOf(db.tasks, mission, TaskStatus.Rejected)|
            && p.archived == |TasksOf(db.tasks, mission, TaskStatus.Archived)|
  {
    forall status: TaskStatus ensures InStatus(db.tasks, mission, status) == TasksOf(db.tasks, mission, status) {}
    assert DronesOf(db.drones, mission) == set x | x in db.drones && db.drones[x].missionId == mission;
  }

  /** The required total is nothing without drones, and each drone of the mission adds its own requirement once. */
  lemma RequiredGrows(db: Database, mission: Uuid, d: Uuid, row: Drone)
    requires d !in db.drones
    ensures var more := MissionProgress(db.(drones := db.drones[d := row]), mission);
            more.required
              == MissionProgress(db, mission).required + (if row.missionId == mission then row.required else 0)
    ensures MissionProgress(db.(drones := map[]), mission).required == 0
  {
    var more := db.drones[d := row];
    var fleet := DronesOf(db.drones, mission);
    SameSum(db.drones, more, fleet);
    assert DronesOf(map[], mission) == {};
    if row.missionId == mission {
      SumsAdd(more, fleet + {d}, d);
      assert DronesOf(more, mission) == fleet + {d} && fleet + {d} - {d} == fleet;
    } else {
      assert DronesOf(more, mission) == fleet;
    }
  }

  ghost function CompletedOn(tasks: Tasks, s: set<Uuid>): set<Uuid> {
    set t | t in tasks && tasks[t].droneId in s && tasks[t].completedAt.Some?
  }

  lemma OneDroneMore(tasks: Tasks, s: set<Uuid>, d: Uuid)
    requires d in s
    ensures |CompletedOn(tasks, s)| == |CompletedOn(tasks, s - {d})| + |CompletedOf(tasks, d)|
  {
    assert CompletedOn(tasks, s) == CompletedOn(tasks, s - {d}) + CompletedOf(tasks, d);
    assert CompletedOn(tasks, s - {d}) !! CompletedOf(tasks, d);
  }

  /** Over any set of drones the counters add up to the completed tasks and stay within what is required. */
  lemma {:induction false} CountersAddUp(drones: Drones, tasks: Tasks, s: set<Uuid>)
    requires Counted(drones, tasks) && s <= drones.Keys
    ensures |CompletedOn(tasks, s)| == CompletedSum(drones, s) <= RequiredSum(drones, s)
  {
    if s == {} {
      assert CompletedOn(tasks, s) == {};
    } else {
      var d := Pick(s);
      CountersAddUp(drones, tasks, s - {d});
      OneDroneMore(tasks, s, d);
    }
  }

  lemma SubsetSize(a: set<Uuid>, b: set<Uuid>)
    requires a <= b
    ensures |a| <= |b|
  {
    assert b == a + (b - a);
  }

  /** The progress of a mission never reports more completions than required, so Remaining is never clamped. */
  lemma ProgressBounded(db: Database, mission: Uuid)
    requires Inv(db)
    ensures var p := MissionProgress(db, mission);
            && p.completed <= CompletedSum(db.drones, DronesOf(db.drones, mission)) <= p.required
            && p.Remaining() == p.required - p.completed
            && (p.Complete() <==> p.required > 0 && p.Remaining() == 0 && p.rejected == 0)
  {
    var fleet := DronesOf(db.drones, mission);
    CountersAddUp(db.drones, db.tasks, fleet);
    SubsetSize(InStatus(db.tasks, mission, TaskStatus.Completed), CompletedOn(db.tasks, fleet));
  }
}
