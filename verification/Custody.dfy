/**
 Who holds a task: every task in progress is held by an open batch that has not reviewed it, and telemetry
 exists only where a batch can have produced it.
 */
module Custody {
  import opened Basics
  import opened Status
  import opened Tables
  import opened Transactions
  import opened Runs
  import opened Effects
  import R = Repository

  /** The batch is open, the task is attached to it, and it has no reviewed telemetry of the task. */
  ghost predicate Holds(batches: Batches, links: set<Link>, telemetry: Events, batch: Uuid, task: Uuid) {
    && Link(batch, task) in links
    && batch in batches && batches[batch].status.Open()
    && !R.Reviewed(telemetry, batch, task)
  }

  ghost predicate Held(batches: Batches, links: set<Link>, telemetry: Events, task: Uuid) {
    exists b :: Holds(batches, links, telemetry, b, task)
  }

  /** No stranded task. */
  ghost predicate NoneStranded(tasks: Tasks, batches: Batches, links: set<Link>, telemetry: Events) {
    forall t :: t in tasks && tasks[t].status.InProgress? ==> Held(batches, links, telemetry, t)
  }

  /** Links refer to rows that exist. */
  ghost predicate Linked(tasks: Tasks, batches: Batches, links: set<Link>) {
    forall l :: l in links ==> l.batch in batches && l.task in tasks
  }

  predicate SamePair(a: Telemetry, b: Telemetry) {
    a.batchId == b.batchId && a.taskId == b.taskId
  }

  /** Telemetry belongs to an attached pair of a batch that is running or completed, at most once per pair. */
  ghost predicate TelemetryPlaced(batches: Batches, links: set<Link>, telemetry: Events) {
    && (forall e :: e in telemetry ==>
          && Link(telemetry[e].batchId, telemetry[e].taskId) in links
          && telemetry[e].batchId in batches
          && (batches[telemetry[e].batchId].status.Running? || batches[telemetry[e].batchId].status.Completed?))
    && (forall e, f :: e in telemetry && f in telemetry && SamePair(telemetry[e], telemetry[f]) ==> e == f)
  }

  /** A completed batch has reviewed every task it holds. */
  ghost predicate CompletedReviewed(batches: Batches, links: set<Link>, telemetry: Events) {
    forall b, t {:trigger Link(b, t)} ::
      Link(b, t) in links && b in batches && batches[b].status.Completed? ==> R.Reviewed(telemetry, b, t)
  }

  ghost function TasksOf(links: set<Link>, batch: Uuid): set<Uuid> {
    set l | l in links && l.batch == batch :: l.task
  }

  ghost predicate WithinCapacity(batches: Batches, links: set<Link>) {
    forall b :: b in batches ==> 0 < |TasksOf(links, b)| <= batches[b].capacity
  }

  ghost predicate Inv(db: Database) {
    && NoneStranded(db.tasks, db.batches, db.links, db.telemetry)
    && Linked(db.tasks, db.batches, db.links)
    && TelemetryPlaced(db.batches, db.links, db.telemetry)
    && CompletedReviewed(db.batches, db.links, db.telemetry)
    && WithinCapacity(db.batches, db.links)
  }

  // ---------- the task table alone ----------

  /** A rewrite of the task table after which no further task is in progress. */
  ghost predicate NoNewProgress(before: Tasks, after: Tasks) {
    && before.Keys <= after.Keys
    && forall t :: t in after && after[t].status.InProgress? ==> t in before && before[t].status.InProgress?
  }

  lemma TasksAloneKeep(db: Database, d: Database)
    requires Inv(db) && NoNewProgress(db.tasks, d.tasks)
    requires d.batches == db.batches && d.links == db.links && d.telemetry == db.telemetry
    ensures Inv(d)
  {
  }

  // ---------- batches ----------

  lemma TakenUpHeld(db: Database, d: Database, id: Uuid, ids: seq<Uuid>)
    requires Inv(db) && CreateBatchEffect(db, d, id, ids)
    ensures NoneStranded(d.tasks, d.batches, d.links, d.telemetry)
  {
    forall t | t in d.tasks && d.tasks[t].status.InProgress? ensures Held(d.batches, d.links, d.telemetry, t) {
      if t in ids {
        assert Link(id, t) in LinksOf(id, ids);
        assert Holds(d.batches, d.links, d.telemetry, id, t);
      } else {
        var b :| Holds(db.batches, db.links, db.telemetry, b, t);
        assert Holds(d.batches, d.links, d.telemetry, b, t);
      }
    }
  }

  lemma DistinctSize(ids: seq<Uuid>)
    requires Distinct(ids)
    ensures |set t | t in ids| == |ids|
  {
    if ids != [] {
      DistinctSize(ids[1..]);
      assert (set t | t in ids) == (set t | t in ids[1..]) + {ids[0]};
    }
  }

  /** The new batch holds exactly the given tasks; the others keep theirs. */
  lemma TasksOfNew(links: set<Link>, id: Uuid, ids: seq<Uuid>, b: Uuid)
    requires forall l :: l in links ==> l.batch != id
    ensures TasksOf(links + LinksOf(id, ids), b) == if b == id then set t | t in ids else TasksOf(links, b)
  {
    if b == id {
      forall t | t in ids ensures t in TasksOf(links + LinksOf(id, ids), b) {
        assert Link(id, t) in links + LinksOf(id, ids);
      }
    } else {
      forall t | t in TasksOf(links, b) ensures t in TasksOf(links + LinksOf(id, ids), b) {
        assert Link(b, t) in links + LinksOf(id, ids);
      }
    }
  }

  lemma NewBatchCapacity(db: Database, d: Database, id: Uuid, ids: seq<Uuid>)
    requires Linked(db.tasks, db.batches, db.links) && WithinCapacity(db.batches, db.links)
    requires CreateBatchEffect(db, d, id, ids)
    ensures WithinCapacity(d.batches, d.links)
  {
    DistinctSize(ids);
    forall b | b in d.batches ensures 0 < |TasksOf(d.links, b)| <= d.batches[b].capacity {
      TasksOfNew(db.links, id, ids, b);
    }
  }

  lemma NewBatchLinked(db: Database, d: Database, id: Uuid, ids: seq<Uuid>)
    requires Linked(db.tasks, db.batches, db.links) && TelemetryPlaced(db.batches, db.links, db.telemetry)
    requires CompletedReviewed(db.batches, db.links, db.telemetry) && CreateBatchEffect(db, d, id, ids)
    ensures Linked(d.tasks, d.batches, d.links) && TelemetryPlaced(d.batches, d.links, d.telemetry)
    ensures CompletedReviewed(d.batches, d.links, d.telemetry)
  {
  }

  lemma CreateBatchKeeps(db: Database, d: Database, id: Uuid, ids: seq<Uuid>)
    requires Inv(db) && CreateBatchEffect(db, d, id, ids)
    ensures Inv(d)
  {
    TakenUpHeld(db, d, id, ids);
    NewBatchLinked(db, d, id, ids);
    NewBatchCapacity(db, d, id, ids);
  }

  /** Cancelling releases every task the batch held; what stays in progress is held by another batch. */
  lemma CancelHeld(db: Database, d: Database, id: Uuid, version: int)
    requires Inv(db) && ChangeBatchEffect(db, d, id, CancelStep, version)
    ensures NoneStranded(d.tasks, d.batches, d.links, d.telemetry)
  {
    forall t | t in d.tasks && d.tasks[t].status.InProgress? ensures Held(d.batches, d.links, d.telemetry, t) {
      assert db.tasks[t].status.InProgress? && Link(id, t) !in db.links;
      var b :| Holds(db.batches, db.links, db.telemetry, b, t);
      assert Holds(d.batches, d.links, d.telemetry, b, t);
    }
  }

  /** A batch that starts still holds its tasks; one that completes held none that is in progress. */
  lemma StartOrCompleteHeld(db: Database, d: Database, id: Uuid, step: BatchStep, version: int)
    requires Inv(db) && ChangeBatchEffect(db, d, id, step, version) && !step.CancelStep?
    ensures NoneStranded(d.tasks, d.batches, d.links, d.telemetry)
  {
    forall t | t in d.tasks && d.tasks[t].status.InProgress? ensures Held(d.batches, d.links, d.telemetry, t) {
      var b :| Holds(db.batches, db.links, db.telemetry, b, t);
      assert b != id || step.StartStep?;
      assert Holds(d.batches, d.links, d.telemetry, b, t);
    }
  }

  lemma ChangeBatchPlaced(db: Database, d: Database, id: Uuid, step: BatchStep, version: int)
    requires TelemetryPlaced(db.batches, db.links, db.telemetry) && ChangeBatchEffect(db, d, id, step, version)
    ensures TelemetryPlaced(d.batches, d.links, d.telemetry)
  {
  }

  lemma ChangeBatchLinked(db: Database, d: Database, id: Uuid, step: BatchStep, version: int)
    requires Linked(db.tasks, db.batches, db.links) && WithinCapacity(db.batches, db.links)
    requires ChangeBatchEffect(db, d, id, step, version)
    ensures Linked(d.tasks, d.batches, d.links) && WithinCapacity(d.batches, d.links)
  {
  }

  lemma ChangeBatchReviewed(db: Database, d: Database, id: Uuid, step: BatchStep, version: int)
    requires CompletedReviewed(db.batches, db.links, db.telemetry) && ChangeBatchEffect(db, d, id, step, version)
    ensures CompletedReviewed(d.batches, d.links, d.telemetry)
  {
    forall b, t {:trigger Link(b, t)} | Link(b, t) in d.links && b in d.batches && d.batches[b].status.Completed?
      ensures R.Reviewed(d.telemetry, b, t)
    {
      assert Link(b, t) in db.links;
    }
  }

  lemma ChangeBatchKeeps(db: Database, d: Database, id: Uuid, step: BatchStep, version: int)
    requires Inv(db) && ChangeBatchEffect(db, d, id, step, version)
    ensures Inv(d)
  {
    ChangeBatchPlaced(db, d, id, step, version);
    ChangeBatchLinked(db, d, id, step, version);
    ChangeBatchReviewed(db, d, id, step, version);
    if step.CancelStep? {
      CancelHeld(db, d, id, version);
    } else {
      StartOrCompleteHeld(db, d, id, step, version);
    }
  }

  // ---------- telemetry ----------

  /** A pending row reviews nothing. */
  lemma PendingReviewsNothing(db: Database, d: Database, id: Uuid, task: Uuid, batch: Uuid, b: Uuid, t: Uuid)
    requires SubmitEffect(db, d, id, task, batch)
    ensures R.Reviewed(d.telemetry, b, t) <==> R.Reviewed(db.telemetry, b, t)
  {
    if R.Reviewed(db.telemetry, b, t) {
      var e :| e in db.telemetry && db.telemetry[e].batchId == b && db.telemetry[e].taskId == t
        && !db.telemetry[e].status.Pending?;
      assert d.telemetry[e] == db.telemetry[e];
    }
  }

  lemma SubmitHeld(db: Database, d: Database, id: Uuid, task: Uuid, batch: Uuid)
    requires NoneStranded(db.tasks, db.batches, db.links, db.telemetry) && SubmitEffect(db, d, id, task, batch)
    ensures NoneStranded(d.tasks, d.batches, d.links, d.telemetry)
  {
    forall t | t in d.tasks && d.tasks[t].status.InProgress? ensures Held(d.batches, d.links, d.telemetry, t) {
      var b :| Holds(db.batches, db.links, db.telemetry, b, t);
      PendingReviewsNothing(db, d, id, task, batch, b, t);
      assert Holds(d.batches, d.links, d.telemetry, b, t);
    }
  }

  lemma SubmitReviewed(db: Database, d: Database, id: Uuid, task: Uuid, batch: Uuid)
    requires CompletedReviewed(db.batches, db.links, db.telemetry) && SubmitEffect(db, d, id, task, batch)
    ensures CompletedReviewed(d.batches, d.links, d.telemetry)
  {
    forall b, t {:trigger Link(b, t)} | Link(b, t) in d.links && b in d.batches && d.batches[b].status.Completed?
      ensures R.Reviewed(d.telemetry, b, t)
    {
      PendingReviewsNothing(db, d, id, task, batch, b, t);
    }
  }

  lemma SubmitPlaced(db: Database, d: Database, id: Uuid, task: Uuid, batch: Uuid)
    requires TelemetryPlaced(db.batches, db.links, db.telemetry) && SubmitEffect(db, d, id, task, batch)
    ensures TelemetryPlaced(d.batches, d.links, d.telemetry)
  {
  }

  lemma SubmitKeeps(db: Database, d: Database, id: Uuid, task: Uuid, batch: Uuid)
    requires Inv(db) && SubmitEffect(db, d, id, task, batch)
    ensures Inv(d)
  {
    SubmitHeld(db, d, id, task, batch);
    SubmitReviewed(db, d, id, task, batch);
    SubmitPlaced(db, d, id, task, batch);
  }

  /** A review changes what is reviewed for its own task only, and only adds to it. */
  lemma ReviewAdds(before: Events, after: Events, id: Uuid, task: Uuid, accepted: bool, version: int, b: Uuid, t: Uuid)
    requires id in before && id in after && after == before[id := after[id]]
    requires ReviewedRow(before[id], after[id], task, accepted, version)
    ensures R.Reviewed(before, b, t) ==> R.Reviewed(after, b, t)
    ensures t != task ==> (R.Reviewed(after, b, t) <==> R.Reviewed(before, b, t))
  {
    if R.Reviewed(before, b, t) {
      var e :| e in before && before[e].batchId == b && before[e].taskId == t && !before[e].status.Pending?;
      assert after[e] == before[e];
    }
  }

  lemma ReviewHeld(
    db: Database, tasks: Tasks, telemetry: Events, id: Uuid, task: Uuid, accepted: bool, version: int, taskVersion: int)
    requires NoneStranded(db.tasks, db.batches, db.links, db.telemetry)
    requires id in db.telemetry && id in telemetry && telemetry == db.telemetry[id := telemetry[id]]
    requires ReviewedRow(db.telemetry[id], telemetry[id], task, accepted, version)
    requires TaskMoved(
               db.tasks, tasks, task, if accepted then TaskStatus.Verified else TaskStatus.Rejected, taskVersion)
    ensures NoneStranded(tasks, db.batches, db.links, telemetry)
  {
    forall t | t in tasks && tasks[t].status.InProgress? ensures Held(db.batches, db.links, telemetry, t) {
      assert t != task && db.tasks[t] == tasks[t];
      var b :| Holds(db.batches, db.links, db.telemetry, b, t);
      ReviewAdds(db.telemetry, telemetry, id, task, accepted, version, b, t);
      assert Holds(db.batches, db.links, telemetry, b, t);
    }
  }

  lemma ReviewPlaced(db: Database, telemetry: Events, id: Uuid, task: Uuid, accepted: bool, version: int)
    requires TelemetryPlaced(db.batches, db.links, db.telemetry)
    requires CompletedReviewed(db.batches, db.links, db.telemetry)
    requires id in db.telemetry && id in telemetry && telemetry == db.telemetry[id := telemetry[id]]
    requires ReviewedRow(db.telemetry[id], telemetry[id], task, accepted, version)
    ensures TelemetryPlaced(db.batches, db.links, telemetry) && CompletedReviewed(db.batches, db.links, telemetry)
  {
    forall b, t {:trigger Link(b, t)} | Link(b, t) in db.links && b in db.batches && db.batches[b].status.Completed?
      ensures R.Reviewed(telemetry, b, t)
    {
      ReviewAdds(db.telemetry, telemetry, id, task, accepted, version, b, t);
    }
  }

  lemma ReviewKeeps(
    db: Database, d: Database, req: Request, id: Uuid, task: Uuid, accepted: bool, version: int, taskVersion: int)
    requires Inv(db) && ReviewEffect(db, d, req, id, task, accepted, version, taskVersion)
    ensures Inv(d)
  {
    ReviewHeld(db, d.tasks, d.telemetry, id, task, accepted, version, taskVersion);
    ReviewPlaced(db, d.telemetry, id, task, accepted, version);
    assert Linked(d.tasks, d.batches, d.links);
  }

  // ---------- every operation ----------

  ghost predicate MovesCustody(op: Op) {
    op.CreateBatchOp? || op.ChangeBatchOp? || op.SubmitOp? || op.ReviewOp?
  }

  /** The other operations, unguarded transfers and the expiry worker among them, put no task in progress. */
  lemma OthersStartNothing(db: Database, d: Database, op: Op)
    requires Effect(db, d, op) && !MovesCustody(op)
    ensures NoNewProgress(db.tasks, d.tasks)
    ensures d.batches == db.batches && d.links == db.links && d.telemetry == db.telemetry
  {
  }

  lemma BatchOpsKeep(db: Database, d: Database, op: Op)
    requires Inv(db) && Effect(db, d, op) && (op.CreateBatchOp? || op.ChangeBatchOp?)
    ensures Inv(d)
  {
    match op
    case CreateBatchOp(req, _, ids) => CreateBatchKeeps(db, d, req.uuid(0), ids);
    case ChangeBatchOp(_, id, step, version) => ChangeBatchKeeps(db, d, id, step, version);
  }

  lemma TelemetryOpsKeep(db: Database, d: Database, op: Op)
    requires Inv(db) && Effect(db, d, op) && (op.SubmitOp? || op.ReviewOp?)
    ensures Inv(d)
  {
    match op
    case SubmitOp(req, input) => SubmitKeeps(db, d, req.uuid(0), input.taskId, input.batchId);
    case ReviewOp(req, id, task, accepted, version, taskVersion) =>
      ReviewKeeps(db, d, req, id, task, accepted, version, taskVersion);
  }

  lemma Kept(db: Database, d: Database, op: Op)
    requires Inv(db) && Effect(db, d, op)
    ensures Inv(d)
  {
    if op.CreateBatchOp? || op.ChangeBatchOp? {
      BatchOpsKeep(db, d, op);
    } else if op.SubmitOp? || op.ReviewOp? {
      TelemetryOpsKeep(db, d, op);
    } else {
      OthersStartNothing(db, d, op);
      TasksAloneKeep(db, d);
    }
  }

  // ---------- what it means for readers ----------

  /** No telemetry for a batch that has not started or was cancelled; all reviewed, one row per task, once completed. */
  lemma TelemetryMatchesBatch(db: Database, batch: Uuid)
    requires Inv(db) && batch in db.batches
    ensures db.batches[batch].status.Queued? || db.batches[batch].status.Cancelled? ==>
              !R.HasTelemetry(db.telemetry, batch)
    ensures db.batches[batch].status.Completed? ==>
              forall t {:trigger t in TasksOf(db.links, batch)} :: t in TasksOf(db.links, batch) ==>
                exists e :: && e in db.telemetry && db.telemetry[e].batchId == batch && db.telemetry[e].taskId == t
                            && !db.telemetry[e].status.Pending?
                            && forall f :: f in db.telemetry && SamePair(db.telemetry[f], db.telemetry[e]) ==> f == e
  {
    if db.batches[batch].status.Completed? {
      forall t {:trigger t in TasksOf(db.links, batch)} | t in TasksOf(db.links, batch)
        ensures exists e :: && e in db.telemetry && db.telemetry[e].batchId == batch && db.telemetry[e].taskId == t
                            && !db.telemetry[e].status.Pending?
                            && forall f :: f in db.telemetry && SamePair(db.telemetry[f], db.telemetry[e]) ==> f == e
      {
        assert Link(batch, t) in db.links;
        assert R.Reviewed(db.telemetry, batch, t);
      }
    }
  }
}
