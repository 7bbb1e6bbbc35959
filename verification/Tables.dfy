/** The rows of the PostgreSQL schema and the database they form. */
module Tables {
  import opened Basics
  import opened Status
  import opened Text

  datatype Operator = Operator(name: string, role: Role) {
    predicate CanRecordObservation() {
      !Blank(name) && (role.TelemetryOperator? || role.SafetySupervisor?)
    }
  }

  datatype Mission = Mission(
    code: string, name: string, status: MissionStatus, timezone: string,
    startsAt: Time, endsAt: Time, version: int, createdBy: Uuid)
  {
    predicate CanExecuteAt(now: Time) {
      status.Active? && startsAt <= now < endsAt
    }
  }

  datatype Drone = Drone(missionId: Uuid, code: string, roomLabel: string, required: int, completed: int)

  datatype Task = Task(
    missionId: Uuid, droneId: Uuid, code: string, status: TaskStatus,
    completedAt: Option<Time>, acceptedAt: Option<Time>, expiresAt: Time, version: int)

  datatype Transfer = Transfer(
    taskId: Uuid, fromOperator: Option<Uuid>, toOperator: Uuid, location: string, recordedAt: Time, note: string)

  datatype Batch = Batch(
    code: string, status: BatchStatus, flightMethod: string, capacity: int,
    startedAt: Option<Time>, completedAt: Option<Time>, version: int)

  /** A row of mission_batch_tasks. */
  datatype Link = Link(batch: Uuid, task: Uuid)

  datatype Telemetry = Telemetry(
    taskId: Uuid, batchId: Uuid, recordedBy: Uuid, status: TelemetryStatus, riskScore: real, scale: string,
    alertThreshold: real, observedAt: Time, reviewedAt: Option<Time>, version: int)

  datatype Alert = Alert(
    taskId: Uuid, kind: AlertKind, status: AlertStatus, reason: string, dueAt: Time, closedAt: Option<Time>)

  /** `WorkerTask` is the type name the expiry worker writes; the service writes `DroneTask`. */
  datatype ObjectType =
    FleetOperator | DroneMission | DroneTask | TaskBulk | MissionBatch | TelemetryRecord | SafetyAlert | WorkerTask

  datatype Action =
    Create | CreateBulk | Schedule | Activate | Close | Complete | Archive | DeviceTransfer | Accept
    | Start | Cancel | Record | Review | OpenAlert | Expire | Rename

  datatype AuditRow = AuditRow(
    id: Uuid, requestId: string, operator: Option<Uuid>, objectType: ObjectType, objectId: Uuid, action: Action)

  type Missions = map<Uuid, Mission>
  type Drones = map<Uuid, Drone>
  type Tasks = map<Uuid, Task>
  type Batches = map<Uuid, Batch>
  type Events = map<Uuid, Telemetry>
  type Alerts = map<Uuid, Alert>

  datatype Database = Database(
    operators: map<Uuid, Operator>, missions: Missions, drones: Drones, tasks: Tasks,
    transfers: map<Uuid, Transfer>, batches: Batches, links: set<Link>, telemetry: Events,
    alerts: Alerts, log: seq<AuditRow>)

  const EMPTY: Database := Database(map[], map[], map[], map[], map[], map[], {}, map[], map[], [])
}
