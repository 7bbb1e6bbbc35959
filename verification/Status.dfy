/** The life cycles of missions, drone tasks, batches, telemetry and safety alerts. */
module Status {

  datatype MissionStatus = Draft | Scheduled | Active | Closed {
    predicate CanMoveTo(next: MissionStatus) {
      match this
      case Draft => next.Scheduled?
      case Scheduled => next.Active? || next.Closed?
      case Active => next.Closed?
      case Closed => false
    }

    /** The text stored in the status column. */
    function Name(): string {
      match this
      case Draft => "draft"
      case Scheduled => "scheduled"
      case Active => "active"
      case Closed => "closed"
    }
  }

  datatype TaskStatus =
    Queued | Completed | TransferPending | Accepted | InProgress | Verified | Rejected | Archived
  {
    predicate CanMoveTo(next: TaskStatus) {
      match this
      case Queued => next.Completed?
      case Completed => next.TransferPending?
      case TransferPending => next.Accepted?
      case Accepted => next.InProgress?
      case InProgress => next.Verified? || next.Rejected?
      case Verified => next.Archived?
      case Rejected => next.Archived?
      case Archived => false
    }

    /** The statuses from which the expiry worker rejects. */
    predicate Live() {
      Queued? || Completed? || TransferPending? || Accepted? || InProgress?
    }

    function Name(): string {
      match this
      case Queued => "queued"
      case Completed => "completed"
      case TransferPending => "device_transfer_pending"
      case Accepted => "accepted"
      case InProgress => "in_progress"
      case Verified => "verified"
      case Rejected => "rejected"
      case Archived => "archived"
    }
  }

  datatype BatchStatus = Queued | Running | Completed | Cancelled {
    predicate CanMoveTo(next: BatchStatus) {
      match this
      case Queued => next.Running? || next.Cancelled?
      case Running => next.Completed? || next.Cancelled?
      case Completed => false
      case Cancelled => false
    }

    predicate Open() {
      Queued? || Running?
    }

    function Name(): string {
      match this
      case Queued => "queued"
      case Running => "running"
      case Completed => "completed"
      case Cancelled => "cancelled"
    }
  }

  datatype TelemetryStatus = Pending | Verified | Rejected

  datatype AlertStatus = Open | InProgress | Closed

  datatype AlertKind = Reassess | RepeatDrone | SafetyAdjustment | CloseRecord

  datatype Role = DroneOperator | TelemetryOperator | QualityReviewer | SafetySupervisor
}
