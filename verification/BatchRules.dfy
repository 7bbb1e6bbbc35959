/** When creating, starting, completing and cancelling a batch take effect, and exactly what they leave. */
module BatchRules {
  import opened Basics
  import opened Status
  import opened Tables
  import opened Text
  import opened Transactions
  import opened Runs
  import opened Effects
  import TaskRules
  import R = Repository

  // ---------- creating ----------

  /** Distinct, accepted and unexpired tasks that the batch does not hold yet. */
  ghost predicate TasksReady(tasks: Tasks, links: set<Link>, batch: Uuid, ids: seq<Uuid>, now: Time) {
    && (forall i, j :: 0 <= i < j < |ids| ==> ids[i] != ids[j])
    && (forall i :: 0 <= i < |ids| ==>
          && ids[i] in tasks && tasks[ids[i]].status == TaskStatus.Accepted && now <= tasks[ids[i]].expiresAt
          && Link(batch, ids[i]) !in links)
  }

  ghost predicate BatchCreatable(db: Database, req: Request, input: BatchInput, ids: seq<Uuid>) {
    && 0 < |ids| && |ids| <= input.capacity && input.capacity <= 0x7fff_ffff
    && !Blank(input.flightMethod) && !Blank(input.code) && BusinessCode(input.code)
    && req.uuid(0) !in db.batches && (forall b :: b in db.batches ==> db.batches[b].code != input.code)
    && TasksReady(db.tasks, db.links, req.uuid(0), ids, req.databaseNow) && AuditAccepted(db, req, req.uuid(1))
  }

  ghost function NewBatch(input: BatchInput): Batch {
    Batch(input.code, BatchStatus.Queued, input.flightMethod, input.capacity, None, None, 1)
  }

  ghost function InProgress(tasks: Tasks, ids: seq<Uuid>): Tasks {
    map t | t in tasks ::
      if t in ids then tasks[t].(status := TaskStatus.InProgress, version := tasks[t].version + 1) else tasks[t]
  }

  ghost function BatchCreated(db: Database, req: Request, input: BatchInput, ids: seq<Uuid>): Database {
    db.(batches := db.batches[req.uuid(0) := NewBatch(input)],
        links := db.links + set t | t in ids :: Link(req.uuid(0), t),
        tasks := InProgress(db.tasks, ids),
        log := TaskRules.WithRow(db, req, req.uuid(1), MissionBatch, req.uuid(0), Create))
  }

  lemma BatchInserts(db: Database, id: Uuid, input: BatchInput)
    ensures var inserted := R.InsertBatch(db, id, input.code, input.flightMethod, input.capacity);
            && (inserted.Ok? <==>
                  && 0 < input.capacity <= 0x7fff_ffff && id !in db.batches
                  && (forall b :: b in db.batches ==> db.batches[b].code != input.code))
            && (inserted.Ok? ==> inserted.value == db.(batches := db.batches[id := NewBatch(input)]))
  {
  }

  lemma TasksAttach(db: Database, batch: Uuid, ids: seq<Uuid>, now: Time)
    requires batch in db.batches
    ensures var attached := R.AttachTasks(db, batch, ids, now);
            && (attached.Ok? <==> TasksReady(db.tasks, db.links, batch, ids, now))
            && (attached.Ok? ==> attached.value == db.(
                  links := db.links + set t | t in ids :: Link(batch, t), tasks := InProgress(db.tasks, ids)))
  {
    AttachTasksExact(db, batch, ids, now);
  }

  lemma CreateBatchDecides(db: Database, req: Request, input: BatchInput, ids: seq<Uuid>)
    ensures CreateBatch(db, req, input, ids).Ok? <==> BatchCreatable(db, req, input, ids)
    ensures CreateBatch(db, req, input, ids).Ok? ==>
              CreateBatch(db, req, input, ids).value == BatchCreated(db, req, input, ids)
  {
    BatchInserts(db, req.uuid(0), input);
    var inserted := R.InsertBatch(db, req.uuid(0), input.code, input.flightMethod, input.capacity);
    if inserted.Ok? {
      TasksAttach(inserted.value, req.uuid(0), ids, req.databaseNow);
      var attached := R.AttachTasks(inserted.value, req.uuid(0), ids, req.databaseNow);
      if attached.Ok? {
        TaskRules.AuditDecides(attached.value, req, req.uuid(1), MissionBatch, req.uuid(0), Create);
      }
    }
  }

  lemma {:induction false} AttachErrors(db: Database, batch: Uuid, ids: seq<Uuid>, now: Time)
    ensures R.AttachTasks(db, batch, ids, now).Err? ==>
              R.AttachTasks(db, batch, ids, now).error in {Conflict, InvalidTransition}
    decreases |ids|
  {
    if ids != [] && R.AttachTask(db, batch, ids[0], now).Ok? {
      AttachErrors(R.AttachTask(db, batch, ids[0], now).value, batch, ids[1..], now);
    }
  }

  lemma CreateBatchErrors(db: Database, req: Request, input: BatchInput, ids: seq<Uuid>)
    ensures CreateBatch(db, req, input, ids) == Err(CapacityExceeded) <==> |ids| == 0 || input.capacity < |ids|
  {
    var inserted := R.InsertBatch(db, req.uuid(0), input.code, input.flightMethod, input.capacity);
    if inserted.Ok? {
      AttachErrors(inserted.value, req.uuid(0), ids, req.databaseNow);
    }
  }

  /** A batch is created exactly over distinct, accepted, unexpired tasks within its capacity. */
  lemma CreateBatchExact(db: Database, op: Op)
    requires op.CreateBatchOp?
    ensures Succeeds(db, op) <==> !op.req.commit.Refused? && BatchCreatable(db, op.req, op.batch, op.ids)
    ensures Succeeds(db, op) ==> Exec(db, op) == BatchCreated(db, op.req, op.batch, op.ids)
  {
    CreateBatchDecides(db, op.req, op.batch, op.ids);
  }

  // ---------- starting and completing ----------

  ghost predicate BatchAt(db: Database, req: Request, id: Uuid, status: BatchStatus, version: int) {
    && id in db.batches && db.batches[id].status == status && db.batches[id].version == version
    && AuditAccepted(db, req, req.uuid(0))
  }

  lemma StartDecides(db: Database, req: Request, id: Uuid, version: int)
    ensures var result := ChangeBatch(db, req, id, StartStep, version);
            && (result.Ok? <==> BatchAt(db, req, id, BatchStatus.Queued, version))
            && (result.Ok? ==> result.value == db.(
                  batches := db.batches[id := db.batches[id].(
                    status := BatchStatus.Running, version := version + 1, startedAt := Some(req.databaseNow))],
                  log := TaskRules.WithRow(db, req, req.uuid(0), MissionBatch, id, Start)))
            && (result.Err? ==> result.error == Conflict)
  {
  }

  /** A batch starts exactly when queued at the version. */
  lemma StartExact(db: Database, op: Op)
    requires op.ChangeBatchOp? && op.batchStep.StartStep?
    ensures Succeeds(db, op) <==> !op.req.commit.Refused? && BatchAt(db, op.req, op.id, BatchStatus.Queued, op.version)
    ensures Succeeds(db, op) ==>
              Exec(db, op) == db.(
                batches := db.batches[op.id := db.batches[op.id].(
                  status := BatchStatus.Running, version := op.version + 1, startedAt := Some(op.req.databaseNow))],
                log := TaskRules.WithRow(db, op.req, op.req.uuid(0), MissionBatch, op.id, Start))
  {
    StartDecides(db, op.req, op.id, op.version);
  }

  /** Every link of the batch has a telemetry row of its pair, and none of them is pending; rejections will do. */
  ghost predicate NothingOutstanding(db: Database, batch: Uuid) {
    && (forall l :: l in db.links && l.batch == batch ==>
          exists e :: e in db.telemetry && db.telemetry[e].batchId == batch && db.telemetry[e].taskId == l.task)
    && (forall e | e in db.telemetry && db.telemetry[e].batchId == batch
                   && Link(batch, db.telemetry[e].taskId) in db.links ::
          db.telemetry[e].status != TelemetryStatus.Pending)
  }

  lemma OutstandingExactly(db: Database, batch: Uuid)
    ensures R.AllReviewed(db.links, db.telemetry, batch) <==> NothingOutstanding(db, batch)
  {
    if R.AllReviewed(db.links, db.telemetry, batch) {
      forall e | e in db.telemetry && db.telemetry[e].batchId == batch
                 && Link(batch, db.telemetry[e].taskId) in db.links
        ensures db.telemetry[e].status != TelemetryStatus.Pending
      {
        var l := Link(batch, db.telemetry[e].taskId);
        assert l in db.links && l.batch == batch;
      }
    }
    if NothingOutstanding(db, batch) {
      forall l | l in db.links && l.batch == batch
        ensures exists e :: e in db.telemetry && db.telemetry[e].batchId == batch && db.telemetry[e].taskId == l.task
        ensures forall e ::
                  e in db.telemetry && db.telemetry[e].batchId == batch && db.telemetry[e].taskId == l.task ==>
                  !db.telemetry[e].status.Pending?
      {
        assert l == Link(batch, l.task);
      }
    }
  }

  lemma CompleteDecides(db: Database, req: Request, id: Uuid, version: int)
    ensures var result := ChangeBatch(db, req, id, CompleteStep, version);
            && (result.Ok? <==> BatchAt(db, req, id, BatchStatus.Running, version) && NothingOutstanding(db, id))
            && (result.Ok? ==> result.value == db.(
                  batches := db.batches[id := db.batches[id].(
                    status := BatchStatus.Completed, version := version + 1, completedAt := Some(req.databaseNow))],
                  log := TaskRules.WithRow(db, req, req.uuid(0), MissionBatch, id, Complete)))
            && (result.Err? ==> result.error == Conflict)
  {
    OutstandingExactly(db, id);
  }

  /** A batch completes exactly when running at the version with nothing outstanding. */
  lemma CompleteExact(db: Database, op: Op)
    requires op.ChangeBatchOp? && op.batchStep.CompleteStep?
    ensures Succeeds(db, op) <==>
              && !op.req.commit.Refused?
              && BatchAt(db, op.req, op.id, BatchStatus.Running, op.version) && NothingOutstanding(db, op.id)
    ensures Succeeds(db, op) ==>
              Exec(db, op) == db.(
                batches := db.batches[op.id := db.batches[op.id].(
                  status := BatchStatus.Completed, version := op.version + 1, completedAt := Some(op.req.databaseNow))],
                log := TaskRules.WithRow(db, op.req, op.req.uuid(0), MissionBatch, op.id, Complete))
  {
    CompleteDecides(db, op.req, op.id, op.version);
  }

  // ---------- cancelling ----------

  ghost predicate CancelFits(db: Database, req: Request, id: Uuid, version: int) {
    && (BatchAt(db, req, id, BatchStatus.Queued, version) || BatchAt(db, req, id, BatchStatus.Running, version))
    && forall e :: e in db.telemetry ==> db.telemetry[e].batchId != id
  }

  ghost function BatchCancelled(db: Database, req: Request, id: Uuid): Database
    requires id in db.batches
  {
    db.(batches := db.batches[id := db.batches[id].(
          status := BatchStatus.Cancelled, version := db.batches[id].version + 1,
          completedAt := Some(req.databaseNow))],
        tasks := map t | t in db.tasks ::
          if Link(id, t) in db.links && db.tasks[t].status == TaskStatus.InProgress
          then db.tasks[t].(status := TaskStatus.Accepted, version := db.tasks[t].version + 1)
          else db.tasks[t],
        log := TaskRules.WithRow(db, req, req.uuid(0), MissionBatch, id, Cancel))
  }

  lemma CancelDecides(db: Database, req: Request, id: Uuid, version: int)
    ensures var result := ChangeBatch(db, req, id, CancelStep, version);
            && (result.Ok? <==> CancelFits(db, req, id, version))
            && (result.Ok? ==> result.value == BatchCancelled(db, req, id))
            && (result.Err? ==> result.error == Conflict)
  {
  }

  /** A batch is cancelled exactly when queued or running at the version without telemetry, and gives its tasks back. */
  lemma CancelExact(db: Database, op: Op)
    requires op.ChangeBatchOp? && op.batchStep.CancelStep?
    ensures Succeeds(db, op) <==> !op.req.commit.Refused? && CancelFits(db, op.req, op.id, op.version)
    ensures Succeeds(db, op) ==> Exec(db, op) == BatchCancelled(db, op.req, op.id)
  {
    CancelDecides(db, op.req, op.id, op.version);
  }
}
