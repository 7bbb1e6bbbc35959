# Drone operations control: verified model

A Dafny model of the workflow store of the drone operations control service and of the algorithms beside it.

The store is a PostgreSQL schema of missions, drones, tasks, batches, batch links, telemetry, safety alerts and an
audit log. Each service operation is one transaction of several guarded writes, any of which may fail on a version
check, a status guard, a uniqueness or foreign key constraint, or the audit row. The guarantees that matter span
tables and operations, and no single function checks them.

## How it is built

- `Tables`, `Status`, `Text`: the rows, the life cycles and the request checks.
- `Repository`, `Transactions`, `ExpirySpec`: the specification. One function for each SQL statement with its guards
  and constraints, one for each service operation, one for the expiry worker's pass. Generated identifiers, clock
  readings and the outcome of COMMIT are arbitrary inputs: nothing is assumed about them, not even that an identifier
  is new.
- `Postgres.Store` and `Service.Service`: the imperative code over mutable tables, transactions with rollback included,
  proved to do exactly what the specification says: complete or no effect, with the right error. An error of COMMIT
  may reach the caller although the writes took effect, and then every write has.
- `Runs`: every operation as one step, and the runs they generate. `Effects`: what each operation does to the tables in
  closed form. `Quota`, `Custody`, `AuditLog`, `SafetyAlerts`, `Stamps`, `Transfers`: the invariants, each
  preserved by every operation. `Invariants`, `Growth`, `TimeLog` and `AlertLife`: the guarantees over all runs,
  including failing steps, lost commits and the expiry worker.
- `TaskRules`, `BatchRules`, `TelemetryRules`, `OtherRules`: the condition on tables and request under which an
  operation takes effect, and the exact database it then leaves, over the rows alone with every status, column and
  bound named. They share nothing with the way the specification decides, so a wrong guard or column there fails here.
- `Creation`, `RoundTrip`, `Expiry`, `Selection`, `Assignments`: the same for missions and bulk requests, exactly when the loops over drones, tasks and batch
  members go through, what a batch creation and its cancellation undo, and how the two bounded workers drain their
  backlog.
- `RowRace`: one versioned row under interleaved transactions. `Migrations`: file discovery, one process alone, and any
  number of concurrent processes. `Idempotency`, `Leases`, `Retry`, `HashChain`, `StateMachines`, `Sorting`, `Search`,
  `Queries`: the algorithmic parts.

The schema is that of `migrations/001_initial.sql` as amended by `migrations/002_observation_contract.sql`, which
renames the telemetry columns, requires nonnegative scores and replaces the alert kind `retask` by `reassess`.

`dafny verify dfyconfig.toml` checks the whole project.

## Where the code differs from what one would expect

These were found while proving; the code is modelled as it is, and the exact condition is proved.

- A version ahead of the one the transaction reads can be raced off the life cycle: the read, check and guarded update
  are safe if and only if the caller's version is at most the version read (`RowRace.SafeExactly`).
- A search limit above 100 silently becomes 50, so a caller that steps by the limit it asked for misses tasks unless
  the first page already holds the result (`Search.RawStepTiles`, at a limit of 101 in `Search.RawStepMisses`).
- The audit query and the in-memory filter agree only for an empty or canonically written object identifier: any other
  spelling of a UUID finds events the filter does not, and any other text is refused (`Queries.FiltersAgreeExactly`).
- A response that cannot be encoded is created again by the next call with its key (`Idempotency.CalledExactly`,
  `Idempotency.RepeatsExactly`). Two interleaved calls both create if and only if both look before the first save of
  the key, and only the first answer is stored (`Idempotency.BothCreateExactly`, at a run in `Idempotency.BothCreate`).
- A retry delay that doubles to one below an odd maximum is rounded up to it (`Retry.DelayNearIdeal`). The total sleep
  can exceed the maximum between any two calls in a cancelled run. A policy keeps the bound in every environment if and
  only if it allows fewer than two attempts or its first delay is zero (`Retry.BoundedExactly`; a run that breaks it is
  `Retry.CancelledWhileSleeping`).
- Closing or starting a movable alert fails with an error that is no conflict if and only if another alert of its task and
  kind already has the status (`SafetyAlerts.CloseAlertExact`, `SafetyAlerts.StartAlertExact`). So a task's alerts of
  one kind can be closed once, ever (`AlertLife.ClosedOnce`, `AlertLife.NeverClosesAgain`).
- A migration file added below an applied version is applied after it. The applied list is a prefix of the discovered
  versions if and only if it was one at the start (`Migrations.PrefixExactly`, at a run in
  `Migrations.AppliedOutOfOrder`).

## Model

| member | source | states |
|---|---|---|
| Invariants.NoStrandedTask | internal/repository/round.go:29-75 | after any run of service operations and workers, a task in progress is attached to a queued or running batch that has no reviewed telemetry of it |
| Invariants.QuotaConserved | internal/repository/postgres.go:205-220 | after any run, a drone's completed counter equals the number of its tasks that carry a completion time and is at most what it requires |
| Invariants.ProgressExact | internal/domain/progress.go:15-24 | after any run, a mission's completed count is at most the sum of its drones' counters, that is at most required, and Remaining is the plain difference |
| Invariants.LogAgrees | internal/service/service.go:114-128 | after any run, replaying an object's audit actions in order gives its status, and counting them gives its version, for missions, batches, telemetry and alerts; objects that do not exist have no rows |
| Invariants.TelemetryConsistent | internal/repository/business_checks.go:38-51 | after any run, telemetry exists only on attached pairs of running or completed batches, a completed batch has exactly one reviewed row for each task it holds, and a batch holds between one and capacity many tasks |
| Invariants.RejectionsBacked | internal/service/service.go:269-284 | after any run, a task's rejected telemetry rows are at most its reassess alerts, of which there are at most three; alerts are closed exactly when they have a close time |
| TimeLog.TimesLogged | internal/repository/postgres.go:205-229 | after any run, accept, completion and start times are present exactly when the log has the action that stamps them, and end and review times exactly when the status says so |
| AlertLife.ClosedOnce | migrations/001_initial.sql:100-109 | once an alert is closed, no other alert of its task and kind is closed after any further run |
| AlertLife.NeverClosesAgain | internal/repository/intervention.go:32-41 | every later attempt to close another alert of that task and kind fails on the constraint and changes nothing |
| Invariants.TransfersRecorded | internal/service/service.go:163-185 | after any run, a task has exactly one transfer record for each device transfer and accept in its log, and its accept time is that of one of them |
| Invariants.CompletedForever | internal/repository/round.go:61-67 | a completed batch keeps its row, its links and its reviewed telemetry through every further run |
| Invariants.StepKeeps | internal/repository/postgres.go:23-36 | every operation, with any arguments, identifiers, clock and outcome, keeps all invariants together |
| Invariants.RunKeeps | internal/repository/postgres.go:23-36 | so does every run |
| Invariants.Reached | migrations/001_initial.sql:1-121 | every run from the empty schema ends in a state with all invariants |
| Invariants.EffectFreezes | internal/repository/round.go:30-67 | no operation touches a frozen batch, its links or its telemetry |
| Growth.RunGrows | internal/repository/postgres.go:170-229 | over any further run rows are never lost, equal versions mean equal rows, closed missions, ended batches, reviewed telemetry and closed alerts and transfers never change, operators are never removed, completion times stay, and links and log only grow |
| Growth.EffectGrows | internal/repository/round.go:29-75 | the same for every single operation |
| Quota.Kept | internal/repository/postgres.go:205-220 | every operation keeps the counters equal to the completions and within the requirement |
| Quota.CompletionKeeps | internal/repository/postgres.go:207-212 | completing takes one unit of the right drone's quota and of no other's |
| Quota.CountersAddUp | internal/repository/progress.go:16-25 | over any set of drones the counters sum to the completed tasks and to at most the requirement |
| Quota.ProgressBounded | internal/repository/progress.go:14-31 | the progress report of a state that keeps the quota is bounded, never clamped, and complete only with nothing remaining |
| Quota.ProgressCounts | internal/repository/progress.go:14-31 | the report counts the mission's drones and its tasks in each of the six statuses |
| Quota.RequiredGrows | internal/repository/progress.go:16-18 | its required total is zero without drones and grows by each further drone's own requirement, once, whatever its tasks |
| Custody.Kept | internal/repository/postgres.go:242-256 | every operation keeps tasks in progress held, telemetry placed, completed batches reviewed and capacity respected |
| Custody.CreateBatchKeeps | internal/service/service.go:187-213 | taking up tasks again in a second batch strands none and stays within capacity |
| Custody.CancelHeld | internal/repository/round.go:30-45 | cancelling releases exactly what nobody else holds: what is still in progress afterwards is held by another batch |
| Custody.StartOrCompleteHeld | internal/repository/round.go:61-67 | completing a batch strands none of its tasks, because all of them are reviewed |
| Custody.ReviewKeeps | internal/service/service.go:250-286 | a review strands no task and completes no batch wrongly |
| Custody.OthersStartNothing | internal/service/service.go:163-185 | all other operations, unguarded transfers and expiry among them, put no task in progress and touch no batch, link or telemetry |
| Custody.TelemetryMatchesBatch | migrations/001_initial.sql:85-98 | queued and cancelled batches have no telemetry, completed ones exactly one reviewed row for each task |
| AuditLog.Kept | internal/service/service.go:332-334 | every operation keeps the log and the tables in agreement |
| AuditLog.ReviewHistories | internal/service/service.go:275-284 | a review appends its own action to the telemetry's history, and for a rejection the opening to the new alert's, and nothing to any other |
| AuditLog.UnwrittenSame | internal/service/service.go:82-95 | an operation leaves the histories of the object types it does not write about alone |
| SafetyAlerts.Kept | internal/repository/intervention.go:32-60 | every operation keeps one alert for each task, kind and status, close times right, and rejections backed |
| SafetyAlerts.RejectionsBounded | migrations/001_initial.sql:100-109 | the uniqueness of task, kind and status bounds reassess alerts, and so rejections, by three for each task |
| SafetyAlerts.RejectionNeedsItsAlert | internal/service/service.go:275-283 | a rejecting review of a task that has an open reassess alert changes nothing at all |
| SafetyAlerts.RejectionExact | internal/service/service.go:250-286 | a rejecting review goes through if and only if its row is pending at its version, the task is at its version, no reassess alert of the task is open, and alert and both audit rows are accepted |
| SafetyAlerts.StartAlertExact | internal/repository/intervention.go:51-60 | starting succeeds, or fails on the constraint, exactly when the alert is open and no other, or another, alert of its task and kind is started; anything else is a conflict |
| SafetyAlerts.CloseAlertExact | internal/repository/intervention.go:32-41 | the same for closing an open or started alert |
| Transfers.Kept | internal/repository/postgres.go:231-234 | every operation keeps transfer records and log in agreement and accept times backed |
| Stamps.Kept | internal/repository/round.go:30-67 | every operation keeps the time columns in agreement with the statuses |
| Effects.HasEffect | internal/repository/postgres.go:23-36 | an operation that succeeds has its closed-form effect on the tables and no other |
| Effects.AttachTasksExact | internal/repository/postgres.go:242-256 | the attach loop succeeds if and only if the tasks are distinct, accepted, unexpired and not yet linked, and then takes up all of them |
| Effects.ExpireRowsEffect | internal/repository/reconcile.go:43-57 | the expiry loop rejects the live tasks among its rows and appends worker rows only |
| TaskRules.CreateTaskExact | internal/service/service.go:130-157 | a task is created if and only if its code is well formed and free, its expiry not past, its drone one of its existing mission, its identifier new, the audit row acceptable and COMMIT not refused; it leaves one queued row at version 1 |
| TaskRules.CompleteTaskExact | internal/service/service.go:306-330 | a task is completed if and only if it is queued, at its version and unexpired, its mission is active with its window open, its drone has quota left, the audit row is acceptable and COMMIT is not refused; row, counter and log afterwards |
| TaskRules.CompleteTaskErrors | internal/domain/plan.go:41-43 | exactly when completing is not found, not allowed by mission or status, or expired; everything else is a conflict |
| TaskRules.ArchiveTaskExact | internal/service/service.go:288-290 | a task is archived if and only if it is verified or rejected and at its version, whatever its expiry |
| TaskRules.ArchiveTaskErrors | internal/service/service.go:306-330 | exactly when archiving is not found or an invalid transition; everything else is a conflict |
| TaskRules.TransferExact | internal/service/service.go:163-185 | a transfer goes through if and only if the task is at its version, the record new and the operators registered; a device transfer leaves the task transfer pending with its accept time, an accept leaves it accepted at the recorded time |
| BatchRules.CreateBatchExact | internal/service/service.go:187-213 | a batch is created if and only if the request is complete, its code free and its distinct tasks accepted, unexpired and within capacity; batch, links, tasks and log afterwards |
| BatchRules.CreateBatchErrors | internal/service/service.go:187-191 | it fails on capacity exactly when the list is empty or longer than the capacity |
| BatchRules.StartExact | internal/repository/round.go:52-62 | a batch is started if and only if it is queued at its version, and is then running since the database's now |
| BatchRules.OutstandingExactly | internal/repository/round.go:61-67 | the guard of completing holds exactly when every link has a telemetry row and no row of a linked pair is pending |
| BatchRules.CompleteExact | internal/repository/round.go:61-67 | a batch is completed if and only if it is running at its version with nothing missing or pending; rejected rows do not stand in the way |
| BatchRules.CancelExact | internal/repository/round.go:30-50 | a batch is cancelled if and only if it is queued or running at its version without telemetry, and exactly its tasks in progress go back to accepted |
| TelemetryRules.SubmitExact | internal/service/service.go:215-248 | a submission goes through if and only if it is well formed, scores in range, the pair attached, in progress, running and without a row, and the recorder may record; the stored row field by field |
| TelemetryRules.SubmitErrors | internal/repository/business_checks.go:38-51 | exactly when it is an invalid transition or not found; everything else is a conflict |
| TelemetryRules.AcceptExact | internal/service/service.go:250-286 | an accepting review goes through if and only if the row is pending at its version and about the task, which is at its own; scores and other statuses do not matter; it leaves both verified |
| TelemetryRules.RejectExact | internal/service/service.go:269-284 | a rejecting review also needs a free place for its alert and two acceptable audit rows, and leaves row, task, alert and both audit rows as written out |
| OtherRules.RegisterExact | internal/service/staffs.go:12-33 | an operator is registered if and only if its name is not blank, its identifier new and the audit row acceptable, which may already name it |
| OtherRules.RenameExact | internal/service/staffs_query.go:25-41 | an operator is renamed if and only if it exists and the name is neither blank nor over 80 bytes once trimmed; the name is stored as given |
| OtherRules.ChangeRoleExact | internal/repository/staff_roles.go:10-22 | a role is changed if and only if the operator exists, without an audit row |
| OtherRules.AdvanceMissionExact | internal/service/service.go:114-128 | a mission advances if and only if it is at its version and in a status from which the step is allowed, all of them named |
| OtherRules.AdvanceMissionErrors | internal/service/service.go:114-128 | exactly when advancing is not found or an invalid transition; everything else is a conflict |
| OtherRules.OpenAlertExact | internal/service/intervention.go:12-30 | an alert is opened if and only if its reason, kind, task and due date are acceptable and no alert of its task and kind is open; without a due date it is due in three days |
| OtherRules.AlertMovesLeave | internal/service/intervention.go:32-60 | starting an alert leaves its close time alone, closing stamps it, and nothing else changes but the log |
| Creation.CreateMissionExact | internal/service/service.go:51-100 | in every state that keeps the invariants, a mission is created if and only if the request is complete and unexpired, its code free, its creator registered and its quotas and identifiers acceptable; no clash of drone codes is possible; it leaves the mission, field by field a draft at version 1, each drone and the audit row |
| Creation.MissionChecksExact | internal/service/service.go:51-81 | the checks pass exactly on a complete request that does not end in the past, and fail as expired exactly on a complete one that does |
| Creation.CreateMissionOpExact | internal/service/service.go:51-100 | and the operation takes effect exactly when, besides, COMMIT is not refused |
| Creation.InsertDronesExact | internal/service/service.go:86-93 | the insert loop goes through if and only if every drone fits and no two of the request clash |
| Creation.InsertDronesLeaves | internal/repository/postgres.go:181-185 | and then leaves one new drone for each input and the old ones untouched |
| Creation.BulkCheckExact | internal/domain/bulk.go:33-45 | the scan passes if and only if every request is complete and unexpired and no code repeats |
| Creation.CreateTasksExact | internal/service/bulk.go:11-51 | a bulk request creates all of its tasks if and only if each one fits, and otherwise none |
| Creation.InsertTasksExact | internal/repository/business_checks.go:19-28 | the insert loop goes through if and only if every task is on a drone of its mission and no code is taken or repeated |
| RoundTrip.CreateAllOrNothing | internal/service/service.go:187-213 | creating a batch succeeds if and only if the request, the code and every task are eligible, taking up all of them, and otherwise changes nothing |
| RoundTrip.CancelExact | internal/repository/round.go:30-50 | a cancel succeeds if and only if the batch is open, at the named version and without telemetry |
| RoundTrip.CreateThenCancel | internal/repository/round.go:30-50 | cancelling directly after creating returns exactly those tasks to accepted, two versions on, and leaves every other task row as it was |
| Expiry.RowsExact | internal/repository/reconcile.go:43-57 | on distinct live rows the loop marks every one, fails none and appends one audit row each in order; it fails as a whole exactly when an audit id is taken |
| Expiry.SameAsQuery | internal/repository/reconcile.go:18-26 | the query selects among exactly the tasks in one of the five named statuses whose expiry lies strictly before now, with the limit if it is between 1 and 500 and 100 otherwise |
| Expiry.OtherRowsSkipped | internal/repository/reconcile.go:43-57 | a selected row is skipped and counted exactly when it is missing or in none of the five statuses |
| Expiry.PassDrains | internal/repository/reconcile.go:17-62 | one pass rejects exactly min(limit, n) of the n tasks in the five statuses that expire before now, none of them expiring later than one left behind, each with its audit row, and touches no other row |
| Expiry.PassFinishes | internal/repository/reconcile.go:17-62 | an unexpired task is left alone, and a pass that selects fewer rows than its bound leaves no task past due |
| Expiry.PassesCount | internal/repository/reconcile.go:17-62 | after k passes at one time and limit exactly max(0, n - k * limit) tasks are overdue |
| Expiry.BacklogGone | internal/repository/reconcile.go:17-62 | the backlog is empty if and only if at least ceil(n / limit) passes were made |
| Expiry.IdlePass | internal/repository/reconcile.go:17-62 | a pass with nothing overdue changes nothing |
| Selection.SelectionSize | internal/repository/reconcile.go:26-26 | an ordered, limited selection has min(limit, n) rows and leaves the rest |
| Selection.DrainedExactly | internal/repository/reconcile.go:18-20 | nothing is left exactly from the ceiling of n / limit on |
| Selection.SelectEarliest | internal/repository/reconcile.go:26-41 | the query returns earliest rows in order, as many as the limit allows |
| Assignments.AssignmentTable.ActivateDue | internal/repository/assignment_worker.go:9-18 | activates exactly the earliest min(limit, n) queued assignments whose window is open, counts them, leaves every other row, and leaves none of them if that is below the limit |
| Assignments.ActivationDrains | internal/repository/assignment_worker.go:13-13 | what stays due is exactly the rest, and none of it starts earlier |
| Assignments.AllActivated | internal/repository/assignment_worker.go:9-18 | everything due is active if and only if at least ceil(n / limit) activations were made |
| Postgres.Store.Finish | internal/repository/postgres.go:23-36 | an error of the callback or a refused COMMIT restores every table; a COMMIT whose answer is lost keeps every write and still returns an error |
| Postgres.Store.CreateFleetOperator | internal/repository/staffs.go:26-32 | inserts the operator under a new identifier, or fails as specified |
| Postgres.Store.RenameFleetOperator | internal/repository/staffs_query.go:59-68 | rewrites the name of a registered operator and nothing else |
| Postgres.Store.ChangeFleetOperatorRole | internal/repository/staff_roles.go:10-22 | rewrites the role of a registered operator as a transaction of its own, without an audit row |
| Postgres.Store.CreateMission | internal/repository/postgres.go:153-156 | inserts the mission unless its code, creator or window is refused |
| Postgres.Store.AdvanceMission | internal/repository/postgres.go:170-179 | moves the status at the named version only |
| Postgres.Store.CreateDroneUnit | internal/repository/postgres.go:181-185 | inserts the drone unless its mission, code or quota is refused; a quota the driver cannot send is its own error |
| Postgres.Store.CreateDroneTask | internal/repository/postgres.go:187-191 | inserts the task unless its code, mission or drone is refused |
| Postgres.Store.MoveDroneTask | internal/repository/postgres.go:205-229 | moves the task at the named version; completing also takes a unit of the quota or fails |
| Postgres.Store.RecordHandoff | internal/repository/postgres.go:231-234 | inserts the transfer unless an operator or the task is missing |
| Postgres.Store.CreateDroneMissionBatch | internal/repository/postgres.go:236-240 | inserts a queued batch unless its code or capacity is refused; a capacity the driver cannot send is its own error |
| Postgres.Store.AttachDroneTasks | internal/repository/postgres.go:242-256 | the loop equals the recursive specification, failing at the first task that is linked, missing or not eligible |
| Postgres.Store.ChangeDroneMissionBatch | internal/repository/round.go:29-75 | start, complete and cancel with their guards and the restoring of tasks |
| Postgres.Store.CreateObservation | internal/repository/postgres.go:258-262 | inserts pending telemetry, once for each task and batch, with scores in range |
| Postgres.Store.ReviewObservationRecord | internal/repository/postgres.go:264-277 | reviews a pending row at the named version only |
| Postgres.Store.CreateIntervention | internal/repository/postgres.go:279-283 | opens an alert unless one of the task and kind is open |
| Postgres.Store.MarkInterventionInProgress | internal/repository/intervention.go:51-60 | starts an open alert, with the uniqueness failure as its own error |
| Postgres.Store.CloseIntervention | internal/repository/intervention.go:32-41 | closes an open or started alert, with the uniqueness failure as its own error |
| Postgres.Store.WriteAudit | internal/repository/postgres.go:347-357 | appends the audit row unless its id is taken or its operator missing |
| Postgres.Store.MarkExpiredDroneTasks | internal/repository/reconcile.go:17-62 | a pass that reports success marked exactly min(limit, n) of the tasks in the five statuses that expire before now and failed none, and leaves none of them if that is below the limit; no unexpired task changes; whatever it reports, the store is that of the specified pass if its COMMIT took effect and untouched otherwise |
| Service.CheckDroneInputs | internal/service/service.go:64-76 | the scan accepts exactly well-formed drones without a repeated code |
| Service.CheckDistinct | internal/service/validation.go:21-33 | the scan accepts exactly lists without a repeated identifier |
| Service.CheckBulk | internal/domain/bulk.go:33-45 | the scan stops at the first defect with its error |
| Service.Service.RegisterFleetOperator | internal/service/staffs.go:12-33 | registers the operator and audits, or nothing |
| Service.Service.RenameFleetOperator | internal/service/staffs_query.go:25-41 | checks the name, renames and audits, or nothing |
| Service.Service.CreateMission | internal/service/service.go:51-100 | takes effect completely or not at all with the specified error, and returns the identifiers of its drones in order |
| Service.Service.AdvanceMission | internal/service/service.go:114-128 | reads, checks the edge, updates at the version and audits, or nothing |
| Service.Service.CreateDroneTask | internal/service/service.go:130-157 | checks the request and placement, inserts and audits, or nothing |
| Service.Service.CreateDroneTasksBulk | internal/service/bulk.go:11-51 | inserts all tasks with one audit row, or nothing |
| Service.Service.CompleteDroneTask | internal/service/service.go:306-330 | completes under an executing mission, an unexpired task and a free quota, or nothing |
| Service.Service.ArchiveDroneTask | internal/service/service.go:288-290 | archives along a life cycle edge, or nothing |
| Service.Service.TransferDroneTask | internal/service/service.go:163-185 | device transfer and accept: a version check, the transfer record and the audit row, or nothing |
| Service.Service.CreateDroneMissionBatch | internal/service/service.go:187-213 | creates the batch, takes up all tasks and audits, or nothing |
| Service.Service.ChangeDroneMissionBatch | internal/service/round.go:23-47 | changes the batch and audits, or nothing |
| Service.Service.SubmitObservation | internal/service/service.go:215-248 | checks scores, target and recorder, inserts and audits, or nothing |
| Service.Service.ReviewObservation | internal/service/service.go:250-286 | reviews the row, moves the task, opens the alert of a rejection and audits, or nothing |
| Service.Service.OpenIntervention | internal/service/intervention.go:12-30 | opens an alert with a default due date three days ahead, or nothing |
| Service.Service.MarkInterventionInProgress | internal/service/intervention.go:47-60 | starts the alert and audits, or nothing |
| Service.Service.CloseIntervention | internal/service/intervention.go:32-45 | closes the alert and audits, or nothing |
| RowRace.VersionCounts | internal/repository/postgres.go:170-179 | under any interleaving the version is the first one plus the number of successful writes |
| RowRace.OneWinner | internal/repository/postgres.go:221-229 | of any number of guarded updates carrying one version at most one succeeds |
| RowRace.WriteFollowsEdge | internal/service/service.go:114-128 | a caller not ahead of what the transaction read writes along an edge from the status the row has at that moment |
| RowRace.SafeExactly | internal/service/service.go:306-330 | reading, checking and later writing is safe in every run if and only if the caller's version is at most the version read |
| RowRace.MissionAdvanceSafe | internal/service/service.go:114-128 | the same for scheduling, activating and closing a mission |
| RowRace.TaskMoveSafe | internal/service/service.go:306-330 | the same for completing and archiving a task, with transfers, reviews, batches and expiry in between |
| Migrations.DiscoverMigrations | internal/db/migrate.go:34-74 | returns all migration files in strictly ascending order, or an error exactly when one is badly named, a version repeats or there is none |
| Migrations.FileExactly | internal/db/migrate.go:52-62 | an entry is the file of a version exactly when it is no directory and its name is the numeral, padded or signed, an underscore and anything that ends in .sql; it is ignored exactly when it is a directory or ends otherwise |
| Migrations.SchemaMigrations.ApplyMigration | internal/db/migrate.go:76-105 | one transaction: applied once if it was missing and COMMIT took effect, untouched otherwise |
| Migrations.SchemaMigrations.Migrate | internal/db/migrate.go:13-27 | applies the files in order up to the first failure and keeps what was committed |
| Migrations.AppliedAllExact | internal/db/migrate.go:21-25 | starting from a prefix, k files leave the longer of the two prefixes |
| Migrations.AddedAscending | internal/db/migrate.go:69-73 | whatever the table held, the versions added to it are discovered ones in ascending order |
| Migrations.StepKeeps | internal/db/migrate.go:76-105 | every step of every process, aborts and lost commits included, keeps the list in turn and what each process knows true |
| Migrations.CommitsInTurn | internal/db/migrate.go:86-103 | from any table and under any interleaving each commit, lost or not, acts on the list as a process alone would |
| Migrations.ExactlyOnceInOrder | internal/db/migrate.go:76-105 | from any table, at every moment of every run, the list is what one process alone makes of the first so many files, no version is in it twice unless it was at the start, and a process that succeeded has seen every file applied |
| Migrations.PrefixExactly | internal/db/migrate.go:13-27 | the list is a strictly ascending prefix of the discovered versions at any moment if and only if it was a prefix at the start |
| Migrations.AscendingExactly | internal/db/migrate.go:69-73 | the list is ascending if and only if it was at the start and everything added is above everything that was there |
| Migrations.DoneAscendingExactly | internal/db/migrate.go:21-26 | once a process has succeeded, the list is ascending if and only if the start was and no file missing from it was below one of its versions |
| Migrations.AppliedOutOfOrder | internal/db/migrate.go:90-103 | the run of files 1 and 2 over a table that holds 2 leaves 2 before 1 |
| Migrations.AppliedGrows | internal/db/migrate.go:97-99 | what is applied stays applied |
| Migrations.OneInside | internal/db/migrate.go:86-88 | from any table, at most one process is between lock and commit |
| StateMachines.NewStateMachine | internal/domain/state_machine.go:12-21 | builds exactly the listed edges |
| StateMachines.ValidatePath | internal/domain/state_machine.go:32-42 | accepts exactly the paths of at least two states along edges |
| StateMachines.Reachable | internal/domain/state_machine.go:44-63 | terminates with the start and exactly the states that end some accepted path from it, strictly sorted |
| StateMachines.ReachableUnique | internal/domain/state_machine.go:50-61 | the listing does not depend on the order maps are visited in |
| StateMachines.MissionMachineExact | internal/domain/state_machine.go:65-67 | for all strings, the edges are the mission moves |
| StateMachines.TaskMachineExact | internal/domain/state_machine.go:69-71 | for all strings, the edges are the task moves |
| StateMachines.BatchMachineExact | internal/domain/state_machine.go:73-75 | for all strings, the edges are the batch moves |
| HashChain.Chain.Append | internal/audit/chain.go:12-33 | if and only if the five required texts have a character that is not white space and the event can be encoded, extends the history by its body and returns the digest of previous head and body in hexadecimal; otherwise refuses and leaves head and history alone |
| HashChain.FindCollision | internal/audit/chain.go:23-32 | from two different histories with one head, of any lengths, it computes two different payloads with the same digest |
| HashChain.HeadCommits | internal/audit/chain.go:31-35 | unless payloads of the two histories themselves collide, equal heads mean equal histories |
| HashChain.PayloadInjective | internal/audit/chain.go:23-26 | the hashed payload determines the previous head and the body |
| HashChain.HexInjective | internal/audit/chain.go:31-31 | the hexadecimal form loses nothing |
| HashChain.HexAt | internal/audit/chain.go:31-31 | two digits for each byte, the high half first |
| HashChain.HexAlphabet | internal/audit/chain.go:31-31 | all of them lower-case |
| Sorting.StableSort | internal/domain/search.go:46-59 | ordered, a permutation, and every group of ties in input order |
| Sorting.StableSortUnique | internal/domain/search.go:46-59 | that promise leaves only one possible result |
| Search.OrderIsPreorder | internal/domain/search.go:46-59 | every sort key in either direction orders all tasks |
| Search.ContainsExactly | internal/domain/filter.go:25-27 | the substring test holds exactly when the part occurs at some place |
| Search.MatchesExactly | internal/domain/filter.go:11-29 | a task matches exactly when it equals the trimmed mission and the status, where given, and its lowered code has the search text in it |
| Search.MatchingConcat | internal/domain/search.go:40-45 | the candidates keep their order |
| Search.ResultExact | internal/domain/search.go:38-59 | the result lists every wanted task as often as it was given and no other, by expiry, lowered code or identifier, ascending or descending as asked |
| Strings.LessExactly | internal/domain/search.go:46-59 | the string order is that of a proper prefix or of the first place where two strings differ |
| Search.SearchDroneTasks | internal/domain/search.go:38-69 | returns the requested page of the one stable sort of exactly the matching tasks |
| Search.OneResult | internal/domain/search.go:60-68 | requests that differ in offset and limit page through the same result |
| Search.PagesTile | internal/domain/search.go:60-68 | m pages one limit apart are exactly the first m * limit items |
| Search.AllPagesShowAll | internal/domain/search.go:60-68 | enough pages show every matching task exactly once, in order |
| Search.RawStepTiles | internal/domain/search.go:32-34 | stepping by the limit as asked for shows everything if and only if it is at most 100 or the result fits the first 50 |
| Search.RawStepMisses | internal/domain/search.go:32-34 | with a limit of 101 and 51 matching tasks the one page leaves a task out |
| Queries.BuildAudit | internal/repository/audit_query.go:11-45 | page and count, each with its own placeholders and arguments, are refused alike and select exactly the rows the filter means |
| Queries.SameAnswers | internal/repository/audit_query.go:46-66 | over any table the page's rows are cut from exactly the rows the count answers about, or both are refused |
| Queries.BuildMissions | internal/repository/plan_queries.go:17-61 | the same for missions, where the count recomputes its numbers by hand |
| Queries.BuildTaskSearch | internal/repository/search.go:10-33 | the same for the task search |
| Queries.Appended | internal/repository/audit_query.go:22-27 | appending an argument and its clause adds one condition and disturbs none |
| Queries.FiltersAgreeExactly | internal/audit/filter.go:12-26 | SQL is not refused and accepts the same events of a window as the in-memory filter if and only if the object filter is empty or the canonical text of a UUID, or the window is empty and the text a UUID |
| Queries.FilterEvents | internal/audit/filter.go:28-36 | keeps the accepted events in order |
| Queries.AcceptedOne | internal/audit/filter.go:12-26 | an event is kept exactly when it equals every criterion that is given and its request identifier is not white space |
| Queries.AcceptedConcat | internal/audit/filter.go:28-36 | each event is kept by itself, in order |
| Idempotency.Store.Put | internal/repository/idempotency.go:24-27 | stores the first record of a key and ignores later ones |
| Idempotency.ReplayOr | internal/service/idempotency.go:16-45 | answers, calls create and changes the store exactly as the specification of one call says |
| Idempotency.LaterCallsReplay | internal/service/idempotency.go:21-32 | after a create succeeded every later call with its key returns the same code and value, or an error for another request, without calling create or changing the store |
| Idempotency.CreatesOnce | internal/service/idempotency.go:33-44 | at most one call for each key creates a value that is stored |
| Idempotency.CalledExactly | internal/service/idempotency.go:16-45 | a call runs create if and only if its key is not empty and no earlier call has created a stored value for it |
| Idempotency.RepeatsExactly | internal/service/idempotency.go:37-40 | the next call creates again if and only if the first value could not be encoded |
| Idempotency.NeverReplaced | internal/repository/idempotency.go:24-27 | under any interleaving a stored record is never replaced |
| Idempotency.CreatedExactly | internal/service/idempotency.go:21-36 | in every interleaving, a caller has run create if and only if its own look found its nonempty key absent and it went on since |
| Idempotency.StoredExactly | internal/repository/idempotency.go:24-27 | a key is in the table if and only if some caller saved it |
| Idempotency.BothCreateExactly | internal/service/idempotency.go:21-44 | two callers of one key that went on both create if and only if both looked before every save of the key |
| Idempotency.FirstSaveStays | internal/repository/idempotency.go:24-27 | after the first save of a key its record is the one in the table |
| Idempotency.LateLookReplays | internal/service/idempotency.go:21-32 | a caller that looks after the first save is answered with the code and value of the caller that saved it, or an error for another request, and never creates |
| Idempotency.BothCreate | internal/service/idempotency.go:21-44 | a run in which two callers both create and get their own answers, and only the first is stored |
| Retry.Delay | internal/worker/retry.go:15-30 | for any policy the loop computes the specified delay in 64-bit arithmetic with wrap-around |
| Retry.DelayExact | internal/worker/retry.go:15-30 | for nonnegative delays no doubling overflows, and the delay is the closed form over unbounded integers |
| Retry.NeverAboveMax | internal/worker/retry.go:20-29 | for any policy the delay is at most the maximum |
| Retry.DelayMonotone | internal/worker/retry.go:15-30 | delays never shrink and never exceed the maximum |
| Retry.DelayNearIdeal | internal/worker/retry.go:20-25 | the delay is the capped exponential, except one more when that is one below the maximum, which needs an odd maximum |
| Retry.RunWithRetry | internal/worker/retry.go:32-58 | for any policy calls until success, cancellation or the limit, numbers every call, and sleeps exactly the delays between the calls, plus the last and possibly cut one of a cancelled run |
| Retry.SleepBounded | internal/worker/retry.go:46-55 | the total sleep is at most the maximum between any two calls, and once more for a cancelled run |
| Retry.EndsUnique | internal/worker/retry.go:32-58 | policy and environment leave one outcome and one number of calls |
| Retry.BoundedExactly | internal/worker/retry.go:46-55 | no environment makes a run sleep longer than the maximum between any two calls if and only if the policy allows fewer than two attempts or its first delay is zero |
| Retry.CancelledWhileSleeping | internal/worker/retry.go:49-55 | a run of one failed call and a cancelled sleep breaks that bound |
| Retry.Process | internal/worker/round_processor.go:36-57 | a job with an identifier and an executor ends exactly as a run of its policy would, its attempts cut to a positive cap of the job, with consecutive attempt numbers |
| Leases.Lease.Acquire | internal/worker/lease.go:14-25 | grants and extends exactly when free, expired or the caller's own |
| Leases.Lease.Release | internal/worker/lease.go:27-35 | frees exactly the caller's own lease |
| Leases.Lease.HeldBy | internal/worker/lease.go:37-41 | says whether the owner holds now |
| Leases.TakenOnlyAfterExpiry | internal/worker/lease.go:14-25 | in any run with ordered times, another owner acquires only once the lease has expired, unless its owner gave it up or renewed it |
| Leases.Exclusive | internal/worker/lease.go:14-41 | holding intervals of different owners never overlap |
| Leases.HeldByExact | internal/worker/lease.go:37-41 | HeldBy says yes exactly for the owner of the acquisition in force |
| Leases.AcquiredExactly | internal/worker/lease.go:14-25 | in any run with ordered times, a named owner acquires for a positive time if and only if no other owner's acquisition stands, so an owner may always renew |
| Leases.ReleasedExactly | internal/worker/lease.go:27-35 | a named owner releases if and only if the last call that succeeded was its own acquisition, expired or not |
| Text.TrimExactly | internal/domain/validation.go:14-14 | trimming takes away the white space at both ends and nothing else |
| Text.BlankExactly | internal/service/validation.go:10-18 | a required text is missing exactly when it is white space throughout |
| Text.BusinessCodeExactly | internal/domain/validation.go:11-19 | a business code is 3 to 32 upper-case letters, digits, underscores and hyphens, the first no underscore or hyphen, with nothing but white space around |

## Left out

- HTTP handlers, JSON decoding, middleware, configuration, logging, metrics, health flags and tickers: plumbing.
- The console and its tables (`migrations/003_console.sql`, `migrations/004_sessions.sql`), reports, summaries, redaction, labels and role tables: easy one-branch facts.
- PostgreSQL itself. The guarantees over runs treat a transaction as one atomic step, which is serializable isolation; weaker isolation is modelled only for one row guarded by its version (`RowRace`). Row locks and SKIP LOCKED are not modelled: a pass sees every overdue row.
- Creating, changing and listing assignments: they touch only their own table and write their own audit rows.
- Free-form audit events, the transfer wrappers that compare with the wall clock before the transaction, and repository functions that no service operation calls.
- Bodies of SHA-256, JSON encoding, `strings.ToLower`, ILIKE, UUID parsing and time zones: parameters, used only through stated properties. A malformed identifier, which PostgreSQL refuses, is not a value of the identifier type, except in the query filters, where it is text.
- Idempotency.LateLookReplays: as `Idempotency.LaterCallsReplay`, stated for encodings that decode to the same value, and for a store whose reads and writes do not fail.
- Overflow of the 64-bit version column after 2^63 writes, and the rounding of stored scores to six decimals.
- The columns `created_at`, `outcome` and `detail` of audit rows, and the ORDER BY of the list queries.
- Library sorts are replaced by insertion sorts proved to the same promise; `Sorting.StableSortUnique` shows that the promise leaves one result.
