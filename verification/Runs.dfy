/** Every service operation and the expiry worker as one step relation, and the runs it generates. */
module Runs {
  import opened Basics
  import opened Status
  import opened Tables
  import opened Transactions
  import ExpirySpec
  import R = Repository

  /** `ids` of an expiry pass are the rows its query returned, in that order. */
  datatype Op =
    | RegisterOperatorOp(req: Request, name: string, role: Role)
    | RenameOperatorOp(req: Request, id: Uuid, name: string)
    | ChangeRoleOp(req: Request, id: Uuid, role: Role)
    | CreateMissionOp(req: Request, mission: MissionInput)
    | AdvanceMissionOp(req: Request, id: Uuid, missionStep: MissionStep, version: int)
    | CreateTaskOp(req: Request, task: TaskInput)
    | CreateTasksOp(req: Request, tasks: seq<TaskInput>)
    | CompleteTaskOp(req: Request, id: Uuid, version: int)
    | ArchiveTaskOp(req: Request, id: Uuid, version: int)
    | TransferTaskOp(req: Request, way: Transferred, transfer: Transfer, version: int)
    | CreateBatchOp(req: Request, batch: BatchInput, ids: seq<Uuid>)
    | ChangeBatchOp(req: Request, id: Uuid, batchStep: BatchStep, version: int)
    | SubmitOp(req: Request, observation: ObservationInput)
    | ReviewOp(req: Request, id: Uuid, taskId: Uuid, accepted: bool, version: int, taskVersion: int)
    | OpenAlertOp(req: Request, alert: AlertInput)
    | StartAlertOp(req: Request, id: Uuid)
    | CloseAlertOp(req: Request, id: Uuid)
    | ExpireOp(req: Request, ids: seq<Uuid>)

  /** What the operation's transaction computes, before its COMMIT. */
  ghost function Transact(db: Database, op: Op): (r: Result<Database>) {
    match op
    case RegisterOperatorOp(req, name, role) => RegisterOperator(db, req, name, role)
    case RenameOperatorOp(req, id, name) => RenameOperator(db, req, id, name)
    case ChangeRoleOp(_, id, role) => R.ChangeRole(db, id, role)
    case CreateMissionOp(req, mission) => CreateMission(db, req, mission)
    case AdvanceMissionOp(req, id, step, version) => AdvanceMission(db, req, id, step, version)
    case CreateTaskOp(req, task) => CreateTask(db, req, task)
    case CreateTasksOp(req, tasks) => CreateTasks(db, req, tasks)
    case CompleteTaskOp(req, id, version) => CompleteTask(db, req, id, version)
    case ArchiveTaskOp(req, id, version) => ArchiveTask(db, req, id, version)
    case TransferTaskOp(req, way, transfer, version) => TransferTask(db, req, way, transfer, version)
    case CreateBatchOp(req, batch, ids) => CreateBatch(db, req, batch, ids)
    case ChangeBatchOp(req, id, step, version) => ChangeBatch(db, req, id, step, version)
    case SubmitOp(req, observation) => SubmitObservation(db, req, observation)
    case ReviewOp(req, id, task, accepted, version, taskVersion) =>
      ReviewObservation(db, req, id, task, accepted, version, taskVersion)
    case OpenAlertOp(req, alert) => OpenAlertFor(db, req, alert)
    case StartAlertOp(req, id) => StartAlert(db, req, id)
    case CloseAlertOp(req, id) => CloseAlert(db, req, id)
    case ExpireOp(req, ids) => ExpirySpec.ExpiryPass(db, req, ids)
  }

  /** The operation takes effect, whether or not its caller learns of it. */
  ghost predicate Succeeds(db: Database, op: Op) {
    Transact(db, op).Ok? && !op.req.commit.Refused?
  }

  /** A transaction applies completely or not at all. */
  ghost function Exec(db: Database, op: Op): Database {
    if Succeeds(db, op) then Transact(db, op).value else db
  }

  ghost function ExecAll(db: Database, ops: seq<Op>): Database {
    if ops == [] then db else Exec(ExecAll(db, ops[..|ops| - 1]), ops[|ops| - 1])
  }

  /** Running the first operations, then the rest. */
  lemma {:induction false} ExecAllConcat(db: Database, first: seq<Op>, rest: seq<Op>)
    ensures ExecAll(db, first + rest) == ExecAll(ExecAll(db, first), rest)
    decreases |rest|
  {
    if rest == [] {
      assert first + rest == first;
    } else {
      var shorter := rest[..|rest| - 1];
      assert (first + rest)[..|first + rest| - 1] == first + shorter;
      ExecAllConcat(db, first, shorter);
    }
  }
}
