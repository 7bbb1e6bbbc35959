/** The expiry worker's pass: one query, then one guarded update and one audit row per selected task. */
module ExpirySpec {
  import opened Basics
  import opened Status
  import opened Tables
  import R = Repository
  import opened Transactions

  const WORKER_REQUEST := "worker:task-expiration"

  /** The live tasks past their expiry, with the time they are ordered by. */
  function Overdue(tasks: Tasks, now: Time): map<Uuid, Time> {
    map t | t in tasks && tasks[t].status.Live() && tasks[t].expiresAt < now :: tasks[t].expiresAt
  }

  /** The state of a pass: the database so far and the two counters of ReconcileResult. */
  datatype Sweep = Sweep(db: Database, marked: nat, failed: nat)

  function ExpireRow(s: Sweep, req: Request, id: Uuid): (r: Result<Sweep>) {
    if id in s.db.tasks && s.db.tasks[id].status.Live() then
      var task := s.db.tasks[id];
      var db1 := s.db.(tasks := s.db.tasks[id := task.(status := TaskStatus.Rejected, version := task.version + 1)]);
      var db2 :- R.WriteAudit(db1, AuditRow(req.uuid(s.marked), WORKER_REQUEST, None, WorkerTask, id, Expire));
      Ok(Sweep(db2, s.marked + 1, s.failed))
    else
      Ok(s.(failed := s.failed + 1))
  }

  function ExpireRows(s: Sweep, req: Request, ids: seq<Uuid>): (r: Result<Sweep>)
    decreases |ids|
  {
    if ids == [] then Ok(s)
    else
      var next :- ExpireRow(s, req, ids[0]);
      ExpireRows(next, req, ids[1..])
  }

  /** The committed result of a pass over the rows its query returned. */
  function ExpiryPass(db: Database, req: Request, ids: seq<Uuid>): (r: Result<Database>) {
    var s :- ExpireRows(Sweep(db, 0, 0), req, ids);
    Ok(s.db)
  }
}
