/** Due assignments: the worker's one bounded, earliest-first update. */
module Assignments {
  import opened Basics
  import opened Selection

  datatype AssignmentStatus = Queued | Active | Completed | Cancelled

  datatype Assignment = Assignment(status: AssignmentStatus, startsAt: Time, endsAt: Time, version: int)

  type Rows = map<Uuid, Assignment>

  /** The queued assignments whose window is open, with the time they are ordered by. */
  function Due(rows: Rows, now: Time): map<Uuid, Time> {
    map a | a in rows && rows[a].status.Queued? && rows[a].startsAt <= now < rows[a].endsAt :: rows[a].startsAt
  }

  function Activated(rows: Rows, ids: seq<Uuid>): Rows {
    map a | a in rows ::
      if a in ids then rows[a].(status := AssignmentStatus.Active, version := rows[a].version + 1) else rows[a]
  }

  /** Queued, and its window is open. */
  ghost predicate Waiting(row: Assignment, now: Time) {
    row.status == AssignmentStatus.Queued && row.startsAt <= now && now < row.endsAt
  }

  /** A waiting row became active, one version on, with the same window. */
  ghost predicate Turned(before: Assignment, after: Assignment, now: Time) {
    Waiting(before, now) && after == before.(status := AssignmentStatus.Active, version := before.version + 1)
  }

  class AssignmentTable {
    var rows: Rows

    constructor (rows: Rows)
      ensures this.rows == rows
    {
      this.rows := rows;
    }

    /** Activates the earliest due assignments, min(limit, n) of them, and returns how many. */
    method ActivateDue(now: Time, limit: int) returns (count: nat, ghost ids: seq<Uuid>)
      modifies this
      ensures Earliest(Due(old(rows), now), EffectiveLimit(limit), ids)
      ensures rows == Activated(old(rows), ids)
      ensures count == |ids| == Min(EffectiveLimit(limit), |Due(old(rows), now)|)
      ensures |Due(rows, now)| == |Due(old(rows), now)| - count
      ensures rows.Keys == old(rows).Keys
      ensures forall a :: a in rows ==>
                if a in ids then Turned(old(rows)[a], rows[a], now) else rows[a] == old(rows)[a]
      ensures count < (if 1 <= limit <= 500 then limit else 100) ==>
                forall a :: a in rows ==> !Waiting(rows[a], now)
    {
      var due := Due(rows, now);
      var chosen := SelectEarliest(due, EffectiveLimit(limit));
      ActivationDrains(rows, now, limit, chosen);
      rows := Activated(rows, chosen);
      count, ids := |chosen|, chosen;
      assert forall a :: a in rows && Waiting(rows[a], now) ==> a in Due(rows, now);
    }
  }

  /** One activation: the count, what is still due, and that nothing left behind starts earlier. */
  lemma ActivationDrains(rows: Rows, now: Time, limit: int, ids: seq<Uuid>)
    requires Earliest(Due(rows, now), EffectiveLimit(limit), ids)
    ensures |ids| == Min(EffectiveLimit(limit), |Due(rows, now)|)
    ensures Due(Activated(rows, ids), now) == Due(rows, now) - Members(ids)
    ensures |Due(Activated(rows, ids), now)| == |Due(rows, now)| - |ids|
    ensures forall i, a :: 0 <= i < |ids| && a in Due(Activated(rows, ids), now) ==>
              rows[ids[i]].startsAt <= rows[a].startsAt
  {
    SelectionSize(Due(rows, now), EffectiveLimit(limit), ids);
    assert Due(Activated(rows, ids), now) == Due(rows, now) - Members(ids);
  }

  /** `tables` are successive states of the table under activations at one time and limit. */
  ghost predicate Activations(tables: seq<Rows>, picks: seq<seq<Uuid>>, now: Time, limit: int) {
    && |tables| == |picks| + 1
    && forall i :: 0 <= i < |picks| ==>
         && Earliest(Due(tables[i], now), EffectiveLimit(limit), picks[i])
         && tables[i + 1] == Activated(tables[i], picks[i])
  }

  lemma {:induction false} ActivationsCount(tables: seq<Rows>, picks: seq<seq<Uuid>>, now: Time, limit: int, k: nat)
    requires Activations(tables, picks, now, limit) && k <= |picks|
    ensures |Due(tables[k], now)| == Left(|Due(tables[0], now)|, EffectiveLimit(limit), k)
  {
    if k > 0 {
      ActivationsCount(tables, picks, now, limit, k - 1);
      ActivationDrains(tables[k - 1], now, limit, picks[k - 1]);
      LeftStep(|Due(tables[0], now)|, EffectiveLimit(limit), k - 1);
    }
  }

  /** Every due assignment is active after exactly ceil(n / limit) activations. */
  lemma AllActivated(tables: seq<Rows>, picks: seq<seq<Uuid>>, now: Time, limit: int)
    requires Activations(tables, picks, now, limit)
    ensures |Due(tables[|picks|], now)| == 0 <==> Ceiling(|Due(tables[0], now)|, EffectiveLimit(limit)) <= |picks|
  {
    ActivationsCount(tables, picks, now, limit, |picks|);
    DrainedExactly(|Due(tables[0], now)|, EffectiveLimit(limit), |picks|);
  }
}
