/** Creating a batch is all or nothing, and cancelling it straight away gives every task back. */
module RoundTrip {
  import opened Basics
  import opened Status
  import opened Tables
  import opened Text
  import opened Transactions
  import opened Runs
  import opened Effects
  import R = Repository
  import Custody

  /** What a caller can check beforehand: the request, the codes in use and the state of each task. */
  ghost predicate Creatable(db: Database, req: Request, input: BatchInput, ids: seq<Uuid>) {
    && 0 < |ids| <= input.capacity <= MAX_INT32
    && !Blank(input.flightMethod) && !Blank(input.code) && BusinessCode(input.code)
    && Distinct(ids)
    && req.uuid(0) !in db.batches && R.BatchCodeFree(db.batches, input.code)
    && (forall i :: 0 <= i < |ids| ==> Ready(db.tasks, ids[i], req.databaseNow))
    && AuditAccepted(db, req, req.uuid(1))
  }

  lemma CreateExact(db: Database, req: Request, input: BatchInput, ids: seq<Uuid>)
    requires Custody.Linked(db.tasks, db.batches, db.links)
    ensures CreateBatch(db, req, input, ids).Ok? <==> Creatable(db, req, input, ids)
    ensures CreateBatch(db, req, input, ids).Ok? ==>
              CreateBatch(db, req, input, ids).value.tasks == TakenUp(db.tasks, ids)
  {
    if R.InsertBatch(db, req.uuid(0), input.code, input.flightMethod, input.capacity).Ok? {
      TakeUpExact(db, req.uuid(0), input, ids, req.databaseNow);
    }
  }

  /** Nothing is linked to a batch that was just inserted, so only the tasks themselves decide. */
  lemma TakeUpExact(db: Database, id: Uuid, input: BatchInput, ids: seq<Uuid>, now: Time)
    requires Custody.Linked(db.tasks, db.batches, db.links)
    requires R.InsertBatch(db, id, input.code, input.flightMethod, input.capacity).Ok?
    ensures var db1 := R.InsertBatch(db, id, input.code, input.flightMethod, input.capacity).value;
            var taken := R.AttachTasks(db1, id, ids, now);
            && (taken.Ok? <==> Distinct(ids) && forall i :: 0 <= i < |ids| ==> Ready(db.tasks, ids[i], now))
            && (taken.Ok? ==>
                  && taken.value.tasks == TakenUp(db.tasks, ids)
                  && taken.value.log == db.log && taken.value.operators == db.operators)
  {
    AttachTasksExact(R.InsertBatch(db, id, input.code, input.flightMethod, input.capacity).value, id, ids, now);
    forall i | 0 <= i < |ids| ensures Link(id, ids[i]) !in db.links {}
  }

  /** Creation takes up all k tasks exactly when every one of them is eligible; otherwise the database is as before. */
  lemma CreateAllOrNothing(db: Database, op: Op)
    requires Custody.Inv(db) && op.CreateBatchOp?
    ensures Succeeds(db, op) <==> !op.req.commit.Refused? && Creatable(db, op.req, op.batch, op.ids)
    ensures Succeeds(db, op) ==> Exec(db, op).tasks == TakenUp(db.tasks, op.ids)
    ensures !Succeeds(db, op) ==> Exec(db, op) == db
  {
    CreateExact(db, op.req, op.batch, op.ids);
  }

  /** A batch that was just created has no telemetry. */
  lemma NewBatchSilent(db: Database, d: Database, id: Uuid, ids: seq<Uuid>)
    requires Custody.Inv(db) && CreateBatchEffect(db, d, id, ids)
    ensures !R.HasTelemetry(d.telemetry, id)
  {
  }

  ghost function Returned(tasks: Tasks, ids: seq<Uuid>): Tasks {
    map t | t in tasks :: if t in ids then tasks[t].(version := tasks[t].version + 2) else tasks[t]
  }

  lemma RestoreUndoesTakeUp(tasks: Tasks, links: set<Link>, id: Uuid, ids: seq<Uuid>)
    requires forall l :: l in links ==> l.batch != id
    requires forall i :: 0 <= i < |ids| ==> ids[i] in tasks && tasks[ids[i]].status.Accepted?
    ensures R.Restored(TakenUp(tasks, ids), links + LinksOf(id, ids), id) == Returned(tasks, ids)
  {
    forall t | t in tasks ensures Link(id, t) in links + LinksOf(id, ids) <==> t in ids {
      if t in ids { assert Link(id, t) in LinksOf(id, ids); }
    }
  }

  ghost predicate Cancellable(db: Database, req: Request, id: Uuid, version: int) {
    && AuditAccepted(db, req, req.uuid(0))
    && id in db.batches && db.batches[id].version == version && db.batches[id].status.Open()
    && !R.HasTelemetry(db.telemetry, id)
  }

  lemma CancelStepExact(db: Database, req: Request, id: Uuid, version: int)
    ensures ChangeBatch(db, req, id, CancelStep, version).Ok? <==> Cancellable(db, req, id, version)
    ensures ChangeBatch(db, req, id, CancelStep, version).Ok? ==>
              ChangeBatch(db, req, id, CancelStep, version).value.tasks == R.Restored(db.tasks, db.links, id)
  {
  }

  /** A cancel succeeds exactly on an open batch at the named version that has no telemetry. */
  lemma CancelExact(db: Database, op: Op)
    requires op.ChangeBatchOp? && op.batchStep.CancelStep?
    ensures Succeeds(db, op) <==> !op.req.commit.Refused? && Cancellable(db, op.req, op.id, op.version)
    ensures Succeeds(db, op) ==> Exec(db, op).tasks == R.Restored(db.tasks, db.links, op.id)
  {
    CancelStepExact(db, op.req, op.id, op.version);
  }

  /**
   Cancelling the batch directly afterwards succeeds whenever the caller names version 1 and the audit row
   is accepted; it leaves those tasks accepted as they were, two versions on, and every other task untouched.
   */
  lemma CreateThenCancel(db: Database, create: Op, cancel: Op)
    requires Custody.Inv(db) && create.CreateBatchOp? && Succeeds(db, create)
    requires cancel.ChangeBatchOp? && cancel.batchStep.CancelStep? && cancel.id == create.req.uuid(0)
    ensures var created := Exec(db, create);
            && (Succeeds(created, cancel) <==>
                  && cancel.version == 1 && !cancel.req.commit.Refused?
                  && AuditAccepted(created, cancel.req, cancel.req.uuid(0)))
            && (Succeeds(created, cancel) ==> Exec(created, cancel).tasks == Returned(db.tasks, create.ids))
    ensures forall i :: 0 <= i < |create.ids| ==> create.ids[i] in db.tasks && db.tasks[create.ids[i]].status.Accepted?
  {
    HasEffect(db, create);
    var created := Exec(db, create);
    CancelOfNew(db, created, create.req.uuid(0), create.ids, cancel);
  }

  lemma CancelOfNew(db: Database, created: Database, id: Uuid, ids: seq<Uuid>, cancel: Op)
    requires Custody.Inv(db) && CreateBatchEffect(db, created, id, ids)
    requires cancel.ChangeBatchOp? && cancel.batchStep.CancelStep? && cancel.id == id
    ensures Succeeds(created, cancel) <==>
              && cancel.version == 1 && !cancel.req.commit.Refused?
              && AuditAccepted(created, cancel.req, cancel.req.uuid(0))
    ensures Succeeds(created, cancel) ==> Exec(created, cancel).tasks == Returned(db.tasks, ids)
  {
    CancelExact(created, cancel);
    NewBatchSilent(db, created, id, ids);
    RestoreUndoesTakeUp(db.tasks, db.links, id, ids);
  }
}
