/**
 One versioned row under interleaving: a transaction reads the row and checks the status move, any other
 writers run, and later its version-guarded update is applied. A step is atomic, as an UPDATE of one row is.
 */
module RowRace {
  import opened Status

  datatype Row<S> = Row(status: S, version: int)

  /** A transaction between its read and its write: the row it read, the status and version it will write with. */
  datatype Session<S> = Session(seen: Row<S>, next: S, version: int)

  datatype State<S> = State(row: Row<S>, sessions: map<nat, Session<S>>)

  datatype Event<S> =
    /** GetMission or GetDroneTask with its CanMoveTo check. */
    | Read(p: nat, next: S, version: int)
    /** The update of a session; `allowed` is any further guard of it, such as the quota. */
    | Write(p: nat, allowed: bool)
    /** A version-guarded update without a read: device transfer, accept, review. */
    | Blind(next: S, version: int, allowed: bool)
    /** An update that looks at the status but at no version: attach, cancel, expiry. */
    | Bulk(next: S, allowed: bool)

  predicate Succeeds<S>(s: State<S>, e: Event<S>) {
    match e
    case Read(_, _, _) => false
    case Write(p, allowed) => p in s.sessions && s.sessions[p].version == s.row.version && allowed
    case Blind(_, version, allowed) => version == s.row.version && allowed
    case Bulk(_, allowed) => allowed
  }

  function Written<S>(s: State<S>, e: Event<S>): S
    requires Succeeds(s, e)
  {
    if e.Write? then s.sessions[e.p].next else e.next
  }

  function Step<S>(edge: (S, S) -> bool, s: State<S>, e: Event<S>): State<S> {
    var row := if Succeeds(s, e) then Row(Written(s, e), s.row.version + 1) else s.row;
    match e
    case Read(p, next, version) =>
      if p in s.sessions || !edge(s.row.status, next) then s
      else s.(sessions := s.sessions[p := Session(s.row, next, version)])
    case Write(p, _) => State(row, s.sessions - {p})
    case _ => s.(row := row)
  }

  function StateAt<S>(edge: (S, S) -> bool, row: Row<S>, run: seq<Event<S>>, k: nat): State<S>
    requires k <= |run|
  {
    if k == 0 then State(row, map[]) else Step(edge, StateAt(edge, row, run, k - 1), run[k - 1])
  }

  // ---------- what versions say ----------

  function Successes<S>(edge: (S, S) -> bool, row: Row<S>, run: seq<Event<S>>, k: nat): nat
    requires k <= |run|
  {
    if k == 0 then 0
    else Successes(edge, row, run, k - 1) + (if Succeeds(StateAt(edge, row, run, k - 1), run[k - 1]) then 1 else 0)
  }

  /** The version counts the successful writes. */
  lemma {:induction false} VersionCounts<S(!new)>(edge: (S, S) -> bool, row: Row<S>, run: seq<Event<S>>, k: nat)
    requires k <= |run|
    ensures StateAt(edge, row, run, k).row.version == row.version + Successes(edge, row, run, k)
  {
    if k > 0 { VersionCounts(edge, row, run, k - 1); }
  }

  lemma {:induction false} VersionsGrow<S(!new)>(edge: (S, S) -> bool, row: Row<S>, run: seq<Event<S>>, j: nat, k: nat)
    requires j <= k <= |run|
    ensures StateAt(edge, row, run, j).row.version <= StateAt(edge, row, run, k).row.version
    decreases k
  {
    if j < k { VersionsGrow(edge, row, run, j, k - 1); }
  }

  /** The version a guarded update carries. */
  ghost predicate Carries<S>(s: State<S>, e: Event<S>, version: int) {
    Succeeds(s, e) && ((e.Write? && s.sessions[e.p].version == version) || (e.Blind? && e.version == version))
  }

  lemma CarriedWriteAdvances<S>(edge: (S, S) -> bool, s: State<S>, e: Event<S>, version: int)
    requires Carries(s, e, version)
    ensures Step(edge, s, e).row.version == version + 1
  {
  }

  lemma {:induction false} WinnerMovesOn<S(!new)>(
    edge: (S, S) -> bool, row: Row<S>, run: seq<Event<S>>, j: nat, k: nat, version: int)
    requires j < k <= |run| && Carries(StateAt(edge, row, run, j), run[j], version)
    ensures StateAt(edge, row, run, k).row.version > version
  {
    assert StateAt(edge, row, run, j + 1).row.version == version + 1 by {
      CarriedWriteAdvances(edge, StateAt(edge, row, run, j), run[j], version);
    }
    VersionsGrow(edge, row, run, j + 1, k);
  }

  /** Of the updates that carry one version, at most one succeeds. */
  lemma {:induction false} OneWinner<S(!new)>(
    edge: (S, S) -> bool, row: Row<S>, run: seq<Event<S>>, j: nat, k: nat, version: int)
    requires j < |run| && k < |run|
    requires Carries(StateAt(edge, row, run, j), run[j], version)
    requires Carries(StateAt(edge, row, run, k), run[k], version)
    ensures j == k
  {
    if j < k { WinnerMovesOn(edge, row, run, j, k, version); }
    if k < j { WinnerMovesOn(edge, row, run, k, j, version); }
  }

  // ---------- the status check survives ----------

  /** A session's row is in the past, and while the version has not moved the status has not either. */
  ghost predicate SessionsTrue<S(!new)>(edge: (S, S) -> bool, s: State<S>) {
    forall p :: p in s.sessions ==>
      var session := s.sessions[p];
      && edge(session.seen.status, session.next)
      && session.seen.version <= s.row.version
      && (session.seen.version == s.row.version ==> session.seen == s.row)
  }

  lemma {:induction false} SessionsStayTrue<S(!new)>(edge: (S, S) -> bool, row: Row<S>, run: seq<Event<S>>, k: nat)
    requires k <= |run|
    ensures SessionsTrue(edge, StateAt(edge, row, run, k))
  {
    if k > 0 { SessionsStayTrue(edge, row, run, k - 1); }
  }

  /**
   A session whose version is not ahead of what it read writes along an edge from the status the row has at
   that very moment, whatever happened in between.
   */
  lemma {:induction false} WriteFollowsEdge<S(!new)>(edge: (S, S) -> bool, row: Row<S>, run: seq<Event<S>>, k: nat)
    requires k < |run| && run[k].Write? && Succeeds(StateAt(edge, row, run, k), run[k])
    requires var session := StateAt(edge, row, run, k).sessions[run[k].p]; session.version <= session.seen.version
    ensures edge(StateAt(edge, row, run, k).row.status, StateAt(edge, row, run, k + 1).row.status)
  {
    SessionsStayTrue(edge, row, run, k);
  }

  // ---------- and exactly when ----------

  /** In every run, this session, having read this row, writes along an edge if it writes at all. */
  ghost predicate Safe<S(!new)>(edge: (S, S) -> bool, row: Row<S>, next: S, version: int) {
    forall run: seq<Event<S>>, k: nat {:trigger StateAt(edge, row, run, k)} ::
      && k < |run| && run[k] == Write(0, true)
      && 0 in StateAt(edge, row, run, k).sessions
      && StateAt(edge, row, run, k).sessions[0] == Session(row, next, version)
      && Succeeds(StateAt(edge, row, run, k), run[k])
      ==> edge(StateAt(edge, row, run, k).row.status, next)
  }

  /** The schedule that defeats a version from the future: enough others read first, then write in turn. */
  function Overtaking<S>(row: Row<S>, next: S, version: int): seq<Event<S>>
    requires row.version < version
  {
    var d := version - row.version;
    [Read(0, next, version)]
    + seq(d, i requires 0 <= i < d => Read(i + 1, next, row.version + i))
    + seq(d, i requires 0 <= i < d => Write(i + 1, true))
    + [Write(0, true)]
  }

  lemma {:induction false} OvertakingReads<S(!new)>(edge: (S, S) -> bool, row: Row<S>, next: S, version: int, k: nat)
    requires row.version < version && edge(row.status, next) && k <= version - row.version
    ensures var s := StateAt(edge, row, Overtaking(row, next, version), 1 + k);
            && s.row == row && (forall i: nat :: i in s.sessions <==> i <= k)
            && s.sessions[0] == Session(row, next, version)
            && forall i: nat :: 1 <= i <= k ==> s.sessions[i] == Session(row, next, row.version + i - 1)
  {
    var run := Overtaking(row, next, version);
    if k == 0 {
      assert StateAt(edge, row, run, 0) == State(row, map[]);
      assert run[0] == Read(0, next, version);
    } else {
      OvertakingReads(edge, row, next, version, k - 1);
      assert run[k] == Read(k, next, row.version + k - 1);
    }
  }

  lemma {:induction false} OvertakingWrites<S(!new)>(edge: (S, S) -> bool, row: Row<S>, next: S, version: int, k: nat)
    requires row.version < version && edge(row.status, next) && k <= version - row.version
    ensures var d := version - row.version;
            var s := StateAt(edge, row, Overtaking(row, next, version), 1 + d + k);
            && s.row == (if k == 0 then row else Row(next, row.version + k))
            && 0 in s.sessions && s.sessions[0] == Session(row, next, version)
            && forall i: nat :: k < i <= d ==>
                 i in s.sessions && s.sessions[i] == Session(row, next, row.version + i - 1)
  {
    var d := version - row.version;
    var run := Overtaking(row, next, version);
    if k == 0 {
      OvertakingReads(edge, row, next, version, d);
    } else {
      OvertakingWrites(edge, row, next, version, k - 1);
      assert run[d + k] == Write(k, true);
    }
  }

  /**
   The check-then-write pattern is safe exactly when the caller's version is not ahead of the version the
   transaction reads: a caller who guesses a later version can be raced off the life cycle.
   */
  lemma {:induction false} SafeExactly<S(!new)>(edge: (S, S) -> bool, row: Row<S>, next: S, version: int)
    requires edge(row.status, next) && !edge(next, next)
    ensures Safe(edge, row, next, version) <==> version <= row.version
  {
    if version <= row.version {
      forall run: seq<Event<S>>, k: nat |
        && k < |run| && run[k] == Write(0, true)
        && 0 in StateAt(edge, row, run, k).sessions
        && StateAt(edge, row, run, k).sessions[0] == Session(row, next, version)
        && Succeeds(StateAt(edge, row, run, k), run[k])
        ensures edge(StateAt(edge, row, run, k).row.status, next)
      {
        WriteFollowsEdge(edge, row, run, k);
      }
    } else {
      var d := version - row.version;
      var run := Overtaking(row, next, version);
      OvertakingWrites(edge, row, next, version, d);
      assert run[1 + 2 * d] == Write(0, true);
      assert StateAt(edge, row, run, 1 + 2 * d).row == Row(next, version);
    }
  }

  // ---------- missions and tasks ----------

  const MISSION_EDGE := (a: MissionStatus, b: MissionStatus) => a.CanMoveTo(b)

  const TASK_EDGE := (a: TaskStatus, b: TaskStatus) => a.CanMoveTo(b)

  /** Schedule, activate and close of one mission. */
  lemma MissionAdvanceSafe(row: Row<MissionStatus>, next: MissionStatus, version: int)
    requires row.status.CanMoveTo(next)
    ensures Safe(MISSION_EDGE, row, next, version) <==> version <= row.version
  {
    SafeExactly(MISSION_EDGE, row, next, version);
  }

  /** Complete and archive of one task, with transfers, reviews, batches and the expiry worker in between. */
  lemma TaskMoveSafe(row: Row<TaskStatus>, next: TaskStatus, version: int)
    requires row.status.CanMoveTo(next)
    ensures Safe(TASK_EDGE, row, next, version) <==> version <= row.version
  {
    SafeExactly(TASK_EDGE, row, next, version);
  }
}
