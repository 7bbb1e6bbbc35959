/** The expiry pass drains: bounded, earliest first, audited row by row, and finished after enough passes. */
module Expiry {
  import opened Basics
  import opened Status
  import opened Tables
  import opened Transactions
  import opened Effects
  import opened Selection
  import opened ExpirySpec
  import R = Repository

  /** The identifiers generated for the next n audit rows are new and different. */
  ghost predicate FreshEvents(log: seq<AuditRow>, uuid: nat -> Uuid, k: nat, n: nat) {
    && (forall i {:trigger uuid(i)} :: k <= i < k + n ==> R.EventIdFree(log, uuid(i)))
    && (forall i, j {:trigger uuid(i), uuid(j)} :: k <= i < j < k + n ==> uuid(i) != uuid(j))
  }

  lemma FreshStep(log: seq<AuditRow>, row: AuditRow, uuid: nat -> Uuid, k: nat, n: nat)
    requires n > 0 && row.id == uuid(k)
    ensures FreshEvents(log, uuid, k, n) <==>
              R.EventIdFree(log, uuid(k)) && FreshEvents(log + [row], uuid, k + 1, n - 1)
  {
    var longer := log + [row];
    if R.EventIdFree(log, uuid(k)) && FreshEvents(longer, uuid, k + 1, n - 1) {
      forall i {:trigger uuid(i)} | k <= i < k + n ensures R.EventIdFree(log, uuid(i)) {
        if i > k {
          forall x | 0 <= x < |log| ensures log[x].id != uuid(i) { assert longer[x] == log[x]; }
        }
      }
      forall i, j {:trigger uuid(i), uuid(j)} | k <= i < j < k + n ensures uuid(i) != uuid(j) {
        if i == k { assert longer[|log|] == row; }
      }
    }
  }

  ghost predicate ExpiryRow(row: AuditRow, id: Uuid) {
    && row.objectType.WorkerTask? && row.objectId == id && row.action.Expire?
    && row.requestId == "worker:task-expiration" && row.operator.None?
  }

  /** The audit rows a pass appended: one per id, in order. */
  ghost predicate OneRowEach(before: seq<AuditRow>, after: seq<AuditRow>, ids: seq<Uuid>) {
    && |after| == |before| + |ids|
    && after[..|before|] == before
    && forall i :: 0 <= i < |ids| ==> ExpiryRow(after[|before| + i], ids[i])
  }

  lemma OneRowMore(before: seq<AuditRow>, row: AuditRow, after: seq<AuditRow>, ids: seq<Uuid>)
    requires ids != [] && OneRowEach(before + [row], after, ids[1..]) && ExpiryRow(row, ids[0])
    ensures OneRowEach(before, after, ids)
  {
    var middle := before + [row];
    assert after[..|before|] == after[..|middle|][..|before|] == middle[..|before|] == before;
    forall i | 0 <= i < |ids| ensures ExpiryRow(after[|before| + i], ids[i]) {
      if i == 0 {
        assert after[|before|] == after[..|middle|][|before|];
      } else {
        assert after[|before| + i] == after[|middle| + (i - 1)] && ids[i] == ids[1..][i - 1];
      }
    }
  }

  ghost predicate AllLive(tasks: Tasks, ids: seq<Uuid>) {
    forall i :: 0 <= i < |ids| ==> ids[i] in tasks && tasks[ids[i]].status.Live()
  }

  lemma RestLive(before: Tasks, after: Tasks, ids: seq<Uuid>)
    requires ids != [] && Distinct(ids) && AllLive(before, ids)
    requires after == RejectedLive(before, [ids[0]])
    ensures Distinct(ids[1..]) && AllLive(after, ids[1..])
  {
    forall i | 0 <= i < |ids[1..]| ensures ids[1..][i] in after && after[ids[1..][i]].status.Live() {
      assert ids[1..][i] == ids[i + 1] != ids[0];
    }
  }

  function WorkerRow(req: Request, k: nat, id: Uuid): AuditRow {
    AuditRow(req.uuid(k), WORKER_REQUEST, None, WorkerTask, id, Expire)
  }

  lemma LiveRowExact(s: Sweep, req: Request, id: Uuid)
    requires id in s.db.tasks && s.db.tasks[id].status.Live()
    ensures ExpireRow(s, req, id).Ok? <==> R.EventIdFree(s.db.log, req.uuid(s.marked))
    ensures ExpireRow(s, req, id).Ok? ==>
              ExpireRow(s, req, id).value == Sweep(
                s.db.(tasks := RejectedLive(s.db.tasks, [id]), log := s.db.log + [WorkerRow(req, s.marked, id)]),
                s.marked + 1, s.failed)
  {
    var task := s.db.tasks[id];
    assert s.db.tasks[id := task.(status := TaskStatus.Rejected, version := task.version + 1)]
      == RejectedLive(s.db.tasks, [id]);
  }

  /**
   On distinct live tasks the loop marks every one, fails none and writes one audit row each; it fails as a
   whole exactly when a generated audit id is already taken.
   */
  lemma {:induction false} RowsExact(s: Sweep, req: Request, ids: seq<Uuid>)
    requires Distinct(ids) && AllLive(s.db.tasks, ids)
    ensures ExpireRows(s, req, ids).Ok? <==> FreshEvents(s.db.log, req.uuid, s.marked, |ids|)
    ensures ExpireRows(s, req, ids).Ok? ==>
              var e := ExpireRows(s, req, ids).value;
              && e.marked == s.marked + |ids| && e.failed == s.failed
              && OneRowEach(s.db.log, e.db.log, ids)
              && e.db == s.db.(tasks := RejectedLive(s.db.tasks, ids), log := e.db.log)
    decreases |ids|
  {
    if ids == [] {
      assert RejectedLive(s.db.tasks, ids) == s.db.tasks;
    } else {
      var row := WorkerRow(req, s.marked, ids[0]);
      LiveRowExact(s, req, ids[0]);
      FreshStep(s.db.log, row, req.uuid, s.marked, |ids|);
      if ExpireRow(s, req, ids[0]).Ok? {
        var next := ExpireRow(s, req, ids[0]).value;
        RestLive(s.db.tasks, next.db.tasks, ids);
        RowsExact(next, req, ids[1..]);
        RejectedStep(s.db.tasks, next.db.tasks, ids);
        if ExpireRows(s, req, ids).Ok? {
          OneRowMore(s.db.log, row, ExpireRows(s, req, ids).value.db.log, ids);
        }
      }
    }
  }

  /** In one of the five statuses the worker rejects from. */
  ghost predicate Unfinished(status: TaskStatus) {
    || status == TaskStatus.Queued || status == TaskStatus.Completed || status == TaskStatus.TransferPending
    || status == TaskStatus.Accepted || status == TaskStatus.InProgress
  }

  /** Unfinished, and its expiry lies strictly before now. */
  ghost predicate PastDue(task: Task, now: Time) {
    Unfinished(task.status) && task.expiresAt < now
  }

  /** The tasks a pass is about, with the time they are ordered by. */
  ghost function Expiring(tasks: Tasks, now: Time): map<Uuid, Time> {
    map t | t in tasks && PastDue(tasks[t], now) :: tasks[t].expiresAt
  }

  ghost function Bound(limit: int): nat {
    if 1 <= limit <= 500 then limit else 100
  }

  lemma SameAsQuery(tasks: Tasks, now: Time, limit: int)
    ensures Overdue(tasks, now) == Expiring(tasks, now) && EffectiveLimit(limit) == Bound(limit)
  {
    forall t | t in tasks ensures tasks[t].status.Live() <==> Unfinished(tasks[t].status) {}
  }

  /** A selected row that is no longer unfinished is only counted. */
  lemma OtherRowsSkipped(s: Sweep, req: Request, id: Uuid)
    ensures ExpireRow(s, req, id) == Ok(s.(failed := s.failed + 1)) <==>
              !(id in s.db.tasks && Unfinished(s.db.tasks[id].status))
  {
  }

  ghost predicate MayReturn(db: Database, now: Time, limit: int, ids: seq<Uuid>) {
    Earliest(Expiring(db.tasks, now), Bound(limit), ids)
  }

  lemma OthersStayOverdue(tasks: Tasks, now: Time, ids: seq<Uuid>)
    requires forall i :: 0 <= i < |ids| ==> ids[i] in Expiring(tasks, now)
    ensures Expiring(RejectedLive(tasks, ids), now) == Expiring(tasks, now) - Members(ids)
  {
  }

  /** What is overdue once the selected tasks are rejected: exactly the others, none of which expires earlier. */
  lemma OverdueAfter(tasks: Tasks, now: Time, limit: nat, ids: seq<Uuid>)
    requires Earliest(Expiring(tasks, now), limit, ids)
    ensures Expiring(RejectedLive(tasks, ids), now) == Expiring(tasks, now) - Members(ids)
    ensures |Expiring(RejectedLive(tasks, ids), now)| == |Expiring(tasks, now)| - Min(limit, |Expiring(tasks, now)|)
    ensures forall i, t :: 0 <= i < |ids| && t in Expiring(RejectedLive(tasks, ids), now) ==>
              tasks[ids[i]].expiresAt <= tasks[t].expiresAt
  {
    var due := Expiring(tasks, now);
    SelectionSize(due, limit, ids);
    OthersStayOverdue(tasks, now, ids);
    forall i, t | 0 <= i < |ids| && t in due - Members(ids) ensures tasks[ids[i]].expiresAt <= tasks[t].expiresAt {
      assert due[ids[i]] <= due[t];
    }
  }

  ghost function Rejected(tasks: Tasks, ids: seq<Uuid>): Tasks {
    map t | t in tasks ::
      if t in ids then tasks[t].(status := TaskStatus.Rejected, version := tasks[t].version + 1) else tasks[t]
  }

  lemma SelectedAreLive(tasks: Tasks, now: Time, limit: nat, ids: seq<Uuid>)
    requires Earliest(Expiring(tasks, now), limit, ids)
    ensures AllLive(tasks, ids) && RejectedLive(tasks, ids) == Rejected(tasks, ids)
  {
  }

  /** One pass: min(limit, n) tasks rejected, the earliest ones, each with its audit row, and no other row touched. */
  lemma PassDrains(db: Database, req: Request, now: Time, limit: int, ids: seq<Uuid>)
    requires MayReturn(db, now, limit, ids)
    ensures |ids| == Min(Bound(limit), |Expiring(db.tasks, now)|)
    ensures ExpireRows(Sweep(db, 0, 0), req, ids).Ok? <==> FreshEvents(db.log, req.uuid, 0, |ids|)
    ensures ExpireRows(Sweep(db, 0, 0), req, ids).Ok? ==>
              var e := ExpireRows(Sweep(db, 0, 0), req, ids).value;
              && e.marked == |ids| && e.failed == 0
              && OneRowEach(db.log, e.db.log, ids)
              && e.db == db.(tasks := Rejected(db.tasks, ids), log := e.db.log)
    ensures Expiring(Rejected(db.tasks, ids), now) == Expiring(db.tasks, now) - Members(ids)
    ensures forall i, t :: 0 <= i < |ids| && t in Expiring(Rejected(db.tasks, ids), now) ==>
              db.tasks[ids[i]].expiresAt <= db.tasks[t].expiresAt
  {
    SelectionSize(Expiring(db.tasks, now), Bound(limit), ids);
    SelectedAreLive(db.tasks, now, Bound(limit), ids);
    OverdueAfter(db.tasks, now, Bound(limit), ids);
    RowsExact(Sweep(db, 0, 0), req, ids);
  }

  lemma PassShrinks(db: Database, req: Request, now: Time, limit: int, ids: seq<Uuid>, d: Database)
    requires MayReturn(db, now, limit, ids) && ExpiryPass(db, req, ids) == Ok(d)
    ensures |Expiring(d.tasks, now)| == |Expiring(db.tasks, now)| - Min(Bound(limit), |Expiring(db.tasks, now)|)
  {
    SelectedAreLive(db.tasks, now, Bound(limit), ids);
    RowsExact(Sweep(db, 0, 0), req, ids);
    OverdueAfter(db.tasks, now, Bound(limit), ids);
  }

  /** An unexpired task is left alone, and fewer rows than the bound means that nothing past due remains. */
  lemma PassFinishes(tasks: Tasks, now: Time, limit: int, ids: seq<Uuid>)
    requires Earliest(Expiring(tasks, now), Bound(limit), ids)
    ensures |ids| == Min(Bound(limit), |set t | t in tasks && PastDue(tasks[t], now)|)
    ensures forall i :: 0 <= i < |ids| ==> ids[i] in tasks && PastDue(tasks[ids[i]], now)
    ensures forall t :: t in tasks && now <= tasks[t].expiresAt ==> Rejected(tasks, ids)[t] == tasks[t]
    ensures |ids| < Bound(limit) ==> forall t :: t in tasks ==> !PastDue(Rejected(tasks, ids)[t], now)
  {
    SelectionSize(Expiring(tasks, now), Bound(limit), ids);
    assert Expiring(tasks, now).Keys == set t | t in tasks && PastDue(tasks[t], now);
    forall t | t in tasks && t !in ids && PastDue(tasks[t], now) ensures |ids| == Bound(limit) {
      assert t in Expiring(tasks, now);
    }
  }

  // ---------- many passes ----------

  datatype PassRun = PassRun(req: Request, ids: seq<Uuid>)

  /** `dbs` are the states of successive committed passes at one time and limit. */
  ghost predicate Passes(dbs: seq<Database>, passes: seq<PassRun>, now: Time, limit: int) {
    && |dbs| == |passes| + 1
    && forall i :: 0 <= i < |passes| ==>
         && MayReturn(dbs[i], now, limit, passes[i].ids)
         && ExpiryPass(dbs[i], passes[i].req, passes[i].ids) == Ok(dbs[i + 1])
  }

  lemma {:induction false} PassesCount(dbs: seq<Database>, passes: seq<PassRun>, now: Time, limit: int, k: nat)
    requires Passes(dbs, passes, now, limit) && k <= |passes|
    ensures |Expiring(dbs[k].tasks, now)| == Left(|Expiring(dbs[0].tasks, now)|, Bound(limit), k)
  {
    if k > 0 {
      PassesCount(dbs, passes, now, limit, k - 1);
      PassShrinks(dbs[k - 1], passes[k - 1].req, now, limit, passes[k - 1].ids, dbs[k]);
      LeftStep(|Expiring(dbs[0].tasks, now)|, Bound(limit), k - 1);
    }
  }

  /** The backlog is gone after exactly ceil(n / limit) passes, not sooner. */
  lemma BacklogGone(dbs: seq<Database>, passes: seq<PassRun>, now: Time, limit: int)
    requires Passes(dbs, passes, now, limit)
    ensures |Expiring(dbs[|passes|].tasks, now)| == 0 <==>
              Ceiling(|Expiring(dbs[0].tasks, now)|, Bound(limit)) <= |passes|
  {
    PassesCount(dbs, passes, now, limit, |passes|);
    DrainedExactly(|Expiring(dbs[0].tasks, now)|, Bound(limit), |passes|);
  }

  /** With nothing overdue a pass changes nothing. */
  lemma IdlePass(db: Database, req: Request, now: Time, limit: int, ids: seq<Uuid>)
    requires MayReturn(db, now, limit, ids) && |Expiring(db.tasks, now)| == 0
    ensures ExpiryPass(db, req, ids) == Ok(db)
  {
    SelectionSize(Expiring(db.tasks, now), Bound(limit), ids);
  }
}
