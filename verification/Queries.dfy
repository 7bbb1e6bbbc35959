/**
 SQL predicates built clause by clause with numbered placeholders: the page query and the count query number
 their placeholders differently and must still mean the same.
 */
module Queries {
  import opened Basics
  import opened Text
  import HashChain
  import Search

  datatype Value = Instant(time: Time) | Count(number: int) | Words(text: string)

  datatype Column = ObjectType | ObjectId | ActionName | Outcome | MissionStatus | MissionId | TaskStatus

  /** A condition; `$n` refers to the n-th argument, counted from one. */
  datatype Clause =
    | CreatedFrom(n: nat)
    | CreatedBefore(n: nat)
    | Equals(column: Column, n: nat)
    | CodeOrNameLike(n: nat, m: nat)
    | TaskCodeLike(n: nat)

  datatype Query = Query(where: seq<Clause>, args: seq<Value>)

  datatype Row = Row(createdAt: Time, text: Column -> string, code: string, name: string)

  /** What PostgreSQL decides: pattern matching without regard to case, and which text denotes which UUID. */
  datatype Server = Server(
    ilike: (string, string) -> bool, likeLower: (string, string) -> bool, canon: string -> Option<string>)

  predicate IsWords(args: seq<Value>, n: nat) {
    1 <= n <= |args| && args[n - 1].Words?
  }

  /** The placeholder has an argument of the right type. */
  predicate Bound(clause: Clause, args: seq<Value>) {
    match clause
    case CreatedFrom(n) => 1 <= n <= |args| && args[n - 1].Instant?
    case CreatedBefore(n) => 1 <= n <= |args| && args[n - 1].Instant?
    case Equals(_, n) => IsWords(args, n)
    case CodeOrNameLike(n, m) => IsWords(args, n) && IsWords(args, m)
    case TaskCodeLike(n) => IsWords(args, n)
  }

  predicate AllBound(q: Query) {
    forall i :: 0 <= i < |q.where| ==> Bound(q.where[i], q.args)
  }

  /** UUID columns compare identifiers, not texts. */
  predicate IsUuid(column: Column) {
    column.ObjectId? || column.MissionId?
  }

  predicate EqualIn(db: Server, column: Column, row: Row, text: string) {
    if IsUuid(column) then db.canon(text) == Some(row.text(column)) else text == row.text(column)
  }

  predicate Holds(db: Server, clause: Clause, args: seq<Value>, row: Row)
    requires Bound(clause, args)
  {
    match clause
    case CreatedFrom(n) => args[n - 1].time <= row.createdAt
    case CreatedBefore(n) => row.createdAt < args[n - 1].time
    case Equals(column, n) => EqualIn(db, column, row, args[n - 1].text)
    case CodeOrNameLike(n, m) => db.ilike(row.code, args[n - 1].text) || db.ilike(row.name, args[m - 1].text)
    case TaskCodeLike(n) => db.likeLower(row.code, args[n - 1].text)
  }

  predicate Selects(db: Server, q: Query, row: Row)
    requires AllBound(q)
  {
    forall i :: 0 <= i < |q.where| ==> Holds(db, q.where[i], q.args, row)
  }

  /** The server does not take the argument of this clause: a text that is no UUID for a UUID column. */
  predicate Unfit(db: Server, clause: Clause, args: seq<Value>)
    requires Bound(clause, args)
  {
    clause.Equals? && IsUuid(clause.column) && db.canon(args[clause.n - 1].text).None?
  }

  /** The query is refused with an error, whatever rows there are. */
  predicate Refused(db: Server, q: Query)
    requires AllBound(q)
  {
    exists i :: 0 <= i < |q.where| && Unfit(db, q.where[i], q.args)
  }

  /** The rows a query answers with, or its error. */
  function Answer(db: Server, q: Query, rows: seq<Row>): Result<seq<Row>>
    requires AllBound(q)
  {
    if Refused(db, q) then Err(Failed) else Ok(Selected(db, q, rows))
  }

  function Selected(db: Server, q: Query, rows: seq<Row>): seq<Row>
    requires AllBound(q)
  {
    if rows == [] then []
    else
      var last := rows[|rows| - 1];
      Selected(db, q, rows[..|rows| - 1]) + (if Selects(db, q, last) then [last] else [])
  }

  /** Appending an argument and a clause that refers to it adds one condition and disturbs none. */
  lemma Appended(db: Server, q: Query, clause: Clause, value: Value, row: Row)
    requires AllBound(q) && Bound(clause, q.args + [value])
    ensures var r := Query(q.where + [clause], q.args + [value]);
            && AllBound(r)
            && (Selects(db, r, row) <==> Selects(db, q, row) && Holds(db, clause, q.args + [value], row))
            && (Refused(db, r) <==> Refused(db, q) || Unfit(db, clause, q.args + [value]))
  {
    AppendedUnfit(db, q, clause, value);
    var r := Query(q.where + [clause], q.args + [value]);
    forall i | 0 <= i < |q.where|
      ensures Bound(q.where[i], r.args) && Holds(db, q.where[i], r.args, row) == Holds(db, q.where[i], q.args, row)
    {
      assert Bound(q.where[i], q.args);
    }
    assert forall i :: 0 <= i < |q.where| ==> r.where[i] == q.where[i];
    assert r.where[|q.where|] == clause;
    if Selects(db, r, row) {
      assert Holds(db, r.where[|q.where|], r.args, row);
      forall i | 0 <= i < |q.where|
        ensures Holds(db, q.where[i], q.args, row)
      {
        assert Holds(db, r.where[i], r.args, row);
      }
    }
  }

  lemma AppendedUnfit(db: Server, q: Query, clause: Clause, value: Value)
    requires AllBound(q) && Bound(clause, q.args + [value])
    ensures var r := Query(q.where + [clause], q.args + [value]);
            AllBound(r) && (Refused(db, r) <==> Refused(db, q) || Unfit(db, clause, q.args + [value]))
  {
    var r := Query(q.where + [clause], q.args + [value]);
    assert r.where[|q.where|] == clause;
    forall i | 0 <= i < |q.where|
      ensures Bound(r.where[i], r.args) && (Unfit(db, r.where[i], r.args) <==> Unfit(db, q.where[i], q.args))
    {
      assert r.where[i] == q.where[i] && Bound(q.where[i], q.args);
    }
    if Refused(db, q) {
      var i :| 0 <= i < |q.where| && Unfit(db, q.where[i], q.args);
      assert Unfit(db, r.where[i], r.args);
    }
  }

  /** What a filter means: whether it is refused, and the rows it accepts. */
  datatype Meaning = Meaning(refused: bool, accepts: Row -> bool)

  /** Both queries are refused or select the very rows, as the filter means. */
  ghost predicate Agree(db: Server, page: Query, count: Query, m: Meaning) {
    && AllBound(page) && AllBound(count)
    && Refused(db, page) == m.refused == Refused(db, count)
    && forall row {:trigger m.accepts(row)} ::
         (Selects(db, page, row) <==> m.accepts(row)) && (Selects(db, count, row) <==> m.accepts(row))
  }

  /** Hence over any table the count answers about the rows the page is cut from. */
  lemma {:induction false} SameAnswers(db: Server, page: Query, count: Query, m: Meaning, rows: seq<Row>)
    requires Agree(db, page, count, m)
    ensures Answer(db, page, rows) == Answer(db, count, rows)
    ensures Answer(db, page, rows).Err? <==> m.refused
  {
    SameSelected(db, page, count, m, rows);
  }

  lemma {:induction false} SameSelected(db: Server, page: Query, count: Query, m: Meaning, rows: seq<Row>)
    requires Agree(db, page, count, m)
    ensures Selected(db, page, rows) == Selected(db, count, rows)
    decreases |rows|
  {
    if rows != [] {
      SameSelected(db, page, count, m, rows[..|rows| - 1]);
      assert m.accepts(rows[|rows| - 1]) == Selects(db, page, rows[|rows| - 1]) == Selects(db, count, rows[|rows| - 1]);
    }
  }

  /** An optional equality filter, where the empty text means no filter. */
  function WithEqual(db: Server, m: Meaning, column: Column, text: string): Meaning {
    Meaning(m.refused || (text != "" && IsUuid(column) && db.canon(text).None?),
            (row: Row) => m.accepts(row) && (text != "" ==> EqualIn(db, column, row, text)))
  }

  /** One `if filter.X != ""` block: the page and the count each get the argument and their own number for it. */
  method AddEqual(ghost db: Server, page: Query, count: Query, ghost m: Meaning, column: Column, text: string)
    returns (page': Query, count': Query)
    requires Agree(db, page, count, m)
    ensures Agree(db, page', count', WithEqual(db, m, column, text))
    ensures page.args <= page'.args
    ensures |page'.args| - |page.args| == |count'.args| - |count.args| == |page'.where| - |page.where|
              == |count'.where| - |count.where|
  {
    page', count' := page, count;
    if text != "" {
      var args := page.args + [Words(text)];
      page' := Query(page.where + [Equals(column, |args|)], args);
      var countArgs := count.args + [Words(text)];
      count' := Query(count.where + [Equals(column, |countArgs|)], countArgs);
      AppendedEqual(db, page, column, text);
      AppendedEqual(db, count, column, text);
    }
  }

  lemma AppendedEqual(db: Server, q: Query, column: Column, text: string)
    requires AllBound(q)
    ensures var r := Query(q.where + [Equals(column, |q.args| + 1)], q.args + [Words(text)]);
            && AllBound(r)
            && (forall row :: Selects(db, r, row) <==> Selects(db, q, row) && EqualIn(db, column, row, text))
            && (Refused(db, r) <==> Refused(db, q) || (IsUuid(column) && db.canon(text).None?))
  {
    var clause := Equals(column, |q.args| + 1);
    var r := Query(q.where + [clause], q.args + [Words(text)]);
    forall row ensures AllBound(r) && (Selects(db, r, row) <==> Selects(db, q, row) && EqualIn(db, column, row, text)) {
      Appended(db, q, clause, Words(text), row);
    }
    Appended(db, q, clause, Words(text), Row(0, c => "", "", ""));
  }

  // ---------- QueryAudit ----------

  datatype AuditFilter = AuditFilter(objectType: string, objectId: string, action: string, outcome: string)

  function InWindow(from: Time, to: Time): Meaning {
    Meaning(false, (row: Row) => from <= row.createdAt < to)
  }

  function AuditMeaning(db: Server, f: AuditFilter, from: Time, to: Time): Meaning {
    WithEqual(db, WithEqual(db, WithEqual(db, WithEqual(db, InWindow(from, to),
      ObjectType, f.objectType), ObjectId, f.objectId), ActionName, f.action), Outcome, f.outcome)
  }

  lemma WindowSelects(db: Server, q: Query, from: Time, to: Time)
    requires q.where == [CreatedFrom(1), CreatedBefore(2)] && |q.args| >= 2 && q.args[0] == Instant(from)
    requires q.args[1] == Instant(to)
    ensures AllBound(q) && !Refused(db, q) && forall row :: Selects(db, q, row) <==> from <= row.createdAt < to
  {
    forall row ensures Selects(db, q, row) <==> from <= row.createdAt < to {
      assert Selects(db, q, row) <==> Holds(db, q.where[0], q.args, row) && Holds(db, q.where[1], q.args, row);
    }
  }

  /** The audit page reserves $3 and $4 for LIMIT and OFFSET; the count does not, and still counts the same rows. */
  method BuildAudit(ghost db: Server, f: AuditFilter, from: Time, to: Time, limit: int, offset: int)
    returns (page: Query, count: Query)
    ensures Agree(db, page, count, AuditMeaning(db, f, from, to))
    ensures |page.args| >= 4 && page.args[2] == Count(if limit < 1 || limit > 200 then 50 else limit)
    ensures page.args[3] == Count(if offset < 0 then 0 else offset)
    ensures |page.args| == |page.where| + 2 && |count.args| == |count.where|
  {
    var l := if limit < 1 || limit > 200 then 50 else limit;
    var o := if offset < 0 then 0 else offset;
    page := Query([CreatedFrom(1), CreatedBefore(2)], [Instant(from), Instant(to), Count(l), Count(o)]);
    count := Query([CreatedFrom(1), CreatedBefore(2)], [Instant(from), Instant(to)]);
    ghost var m := InWindow(from, to);
    WindowSelects(db, page, from, to);
    WindowSelects(db, count, from, to);
    page, count := AddEqual(db, page, count, m, ObjectType, f.objectType);
    m := WithEqual(db, m, ObjectType, f.objectType);
    page, count := AddEqual(db, page, count, m, ObjectId, f.objectId);
    m := WithEqual(db, m, ObjectId, f.objectId);
    page, count := AddEqual(db, page, count, m, ActionName, f.action);
    m := WithEqual(db, m, ActionName, f.action);
    page, count := AddEqual(db, page, count, m, Outcome, f.outcome);
  }

  /** audit.Filter.Match. */
  predicate Match(f: AuditFilter, e: HashChain.Event) {
    && (f.objectType != "" ==> e.objectType == f.objectType)
    && (f.objectId != "" ==> e.objectId == f.objectId)
    && (f.action != "" ==> e.action == f.action)
    && (f.outcome != "" ==> e.outcome == f.outcome)
    && !Blank(e.requestId)
  }

  /** FilterEvents: the accepted events, in order. */
  function Accepted(f: AuditFilter, events: seq<HashChain.Event>): seq<HashChain.Event> {
    if events == [] then []
    else
      var last := events[|events| - 1];
      Accepted(f, events[..|events| - 1]) + (if Match(f, last) then [last] else [])
  }

  method FilterEvents(f: AuditFilter, events: seq<HashChain.Event>) returns (kept: seq<HashChain.Event>)
    ensures kept == Accepted(f, events)
  {
    kept := [];
    for i := 0 to |events|
      invariant kept == Accepted(f, events[..i])
    {
      assert events[..i + 1][..i] == events[..i];
      if Match(f, events[i]) {
        kept := kept + [events[i]];
      }
    }
    assert events[..|events|] == events;
  }

  /** One event is kept exactly when it equals every criterion that is given and names its request. */
  lemma AcceptedOne(f: AuditFilter, e: HashChain.Event)
    ensures Accepted(f, [e]) == [e] || Accepted(f, [e]) == []
    ensures Accepted(f, [e]) == [e] <==>
              && f.objectType in {"", e.objectType} && f.objectId in {"", e.objectId}
              && f.action in {"", e.action} && f.outcome in {"", e.outcome} && HashChain.NonBlank(e.requestId)
  {
    BlankExactly(e.requestId);
    assert [e][..0] == [];
  }

  /** And of a sequence each event is kept by itself, in order. */
  lemma {:induction false} AcceptedConcat(f: AuditFilter, a: seq<HashChain.Event>, b: seq<HashChain.Event>)
    ensures Accepted(f, a + b) == Accepted(f, a) + Accepted(f, b)
    decreases |b|
  {
    if b == [] {
      assert a + b == a;
    } else {
      var shorter := b[..|b| - 1];
      assert (a + b)[..|a + b| - 1] == a + shorter;
      AcceptedConcat(f, a, shorter);
    }
  }

  function EventText(e: HashChain.Event, column: Column): string {
    match column
    case ObjectType => e.objectType
    case ObjectId => e.objectId
    case ActionName => e.action
    case Outcome => e.outcome
    case _ => ""
  }

  /** The stored row of an event. */
  function EventRow(e: HashChain.Event): Row {
    Row(e.createdAt, column => EventText(e, column), "", "")
  }

  /** Stored events carry the canonical text of their object's UUID. */
  predicate Stored(db: Server, e: HashChain.Event) {
    db.canon(e.objectId) == Some(e.objectId)
  }

  /** The SQL query is not refused, and it and the in-memory filter accept the same stored events of the window. */
  ghost predicate FiltersAgree(db: Server, f: AuditFilter, from: Time, to: Time) {
    && !AuditMeaning(db, f, from, to).refused
    && forall e {:trigger EventRow(e)} :: Stored(db, e) && !Blank(e.requestId) ==>
         (AuditMeaning(db, f, from, to).accepts(EventRow(e)) <==> from <= e.createdAt < to && Match(f, e))
  }

  lemma ConditionMeans(db: Server, f: AuditFilter, from: Time, to: Time, e: HashChain.Event)
    ensures AuditMeaning(db, f, from, to).accepts(EventRow(e)) <==>
              && from <= e.createdAt < to
              && (f.objectType != "" ==> f.objectType == e.objectType)
              && (f.objectId != "" ==> db.canon(f.objectId) == Some(e.objectId))
              && (f.action != "" ==> f.action == e.action)
              && (f.outcome != "" ==> f.outcome == e.outcome)
  {
    var row := EventRow(e);
    assert row.text(ObjectType) == e.objectType && row.text(ObjectId) == e.objectId;
    assert row.text(ActionName) == e.action && row.text(Outcome) == e.outcome;
  }

  /**
   They agree exactly when the filter names no object or names it by the canonical text of its UUID: the query is
   refused for any other text, or finds the object under a spelling that the string comparison does not. In an
   empty window there is nothing to find.
   */
  lemma FiltersAgreeExactly(db: Server, f: AuditFilter, from: Time, to: Time)
    requires forall s :: db.canon(s).Some? ==> db.canon(db.canon(s).value) == db.canon(s)
    ensures FiltersAgree(db, f, from, to) <==>
              f.objectId == "" || db.canon(f.objectId) == Some(f.objectId) || (db.canon(f.objectId).Some? && to <= from)
  {
    forall e ensures AuditMeaning(db, f, from, to).accepts(EventRow(e)) <==>
              && from <= e.createdAt < to
              && (f.objectType != "" ==> f.objectType == e.objectType)
              && (f.objectId != "" ==> db.canon(f.objectId) == Some(e.objectId))
              && (f.action != "" ==> f.action == e.action)
              && (f.outcome != "" ==> f.outcome == e.outcome)
    {
      ConditionMeans(db, f, from, to, e);
    }
    if f.objectId != "" && db.canon(f.objectId).Some? && db.canon(f.objectId) != Some(f.objectId) && from < to {
      var e := HashChain.Event("r", None, f.objectType, db.canon(f.objectId).value, f.action, f.outcome, None, from);
      assert Stored(db, e);
      assert !Blank("r");
      assert !Match(f, e) && AuditMeaning(db, f, from, to).accepts(EventRow(e));
    }
  }

  // ---------- ListMissions ----------

  datatype MissionFilter = MissionFilter(status: string, search: string, limit: int, offset: int)

  function MissionMeaning(db: Server, f: MissionFilter): Meaning {
    Meaning(false, (row: Row) =>
      && (f.status != "" ==> row.text(MissionStatus) == f.status)
      && (f.search != "" ==> NameLike(db, row, "%" + f.search + "%")))
  }

  /** The predicate and arguments of the filter, numbered after the leading arguments. */
  function MissionQuery(f: MissionFilter, lead: seq<Value>): Query {
    var q := if f.status == "" then Query([], lead)
             else Query([Equals(MissionStatus, |lead| + 1)], lead + [Words(f.status)]);
    var n := |q.args| + 1;
    if f.search == "" then q else Query(q.where + [CodeOrNameLike(n, n)], q.args + [Words("%" + f.search + "%")])
  }

  lemma MissionQueryMeans(db: Server, f: MissionFilter, lead: seq<Value>)
    ensures AllBound(MissionQuery(f, lead))
    ensures !Refused(db, MissionQuery(f, lead))
    ensures forall row :: Selects(db, MissionQuery(f, lead), row) <==> MissionMeaning(db, f).accepts(row)
  {
    var start := Query([], lead);
    AppendedEqual(db, start, MissionStatus, f.status);
    assert start.where + [Equals(MissionStatus, |lead| + 1)] == [Equals(MissionStatus, |lead| + 1)];
    var q := if f.status == "" then start else Query([Equals(MissionStatus, |lead| + 1)], lead + [Words(f.status)]);
    assert AllBound(q);
    AppendedName(db, q, "%" + f.search + "%");
  }

  /** The count reuses the page's arguments without the first two, and recomputes the numbers by hand. */
  method BuildMissions(ghost db: Server, f: MissionFilter) returns (page: Query, count: Query)
    ensures Agree(db, page, count, MissionMeaning(db, f))
    ensures |page.args| >= 2 && page.args[0] == Count(Search.EffectiveLimit(f.limit))
    ensures page.args[1] == Count(if f.offset < 0 then 0 else f.offset)
    ensures count.args == page.args[2..] && |count.where| == |count.args|
  {
    var args := [Count(if f.limit < 1 || f.limit > 100 then 50 else f.limit),
      Count(if f.offset < 0 then 0 else f.offset)];
    ghost var lead := args;
    var where: seq<Clause> := [];
    if f.status != "" {
      args := args + [Words(f.status)];
      where := where + [Equals(MissionStatus, |args|)];
    }
    if f.search != "" {
      args := args + [Words("%" + f.search + "%")];
      where := where + [CodeOrNameLike(|args|, |args|)];
    }
    page := Query(where, args);
    var countWhere: seq<Clause> := [];
    if f.status != "" {
      countWhere := countWhere + [Equals(MissionStatus, 1)];
    }
    if f.search != "" {
      var index := 1;
      if f.status != "" {
        index := 2;
      }
      countWhere := countWhere + [CodeOrNameLike(index, index)];
    }
    count := Query(countWhere, args[2..]);
    assert page == MissionQuery(f, lead) && count == MissionQuery(f, []);
    MissionQueryMeans(db, f, lead);
    MissionQueryMeans(db, f, []);
  }

  predicate NameLike(db: Server, row: Row, pattern: string) {
    db.ilike(row.code, pattern) || db.ilike(row.name, pattern)
  }

  lemma AppendedName(db: Server, q: Query, pattern: string)
    requires AllBound(q)
    ensures var r := Query(q.where + [CodeOrNameLike(|q.args| + 1, |q.args| + 1)], q.args + [Words(pattern)]);
            && AllBound(r) && (Refused(db, r) <==> Refused(db, q))
            && forall row :: Selects(db, r, row) <==> Selects(db, q, row) && NameLike(db, row, pattern)
  {
    var clause := CodeOrNameLike(|q.args| + 1, |q.args| + 1);
    var r := Query(q.where + [clause], q.args + [Words(pattern)]);
    forall row
      ensures AllBound(r) && (Selects(db, r, row) <==> Selects(db, q, row) && NameLike(db, row, pattern))
    {
      Appended(db, q, clause, Words(pattern), row);
    }
    Appended(db, q, clause, Words(pattern), Row(0, c => "", "", ""));
  }

  // ---------- SearchDroneTasks ----------

  function TaskMeaning(db: Server, f: Search.Filter): Meaning {
    var m := WithEqual(db, WithEqual(db, Meaning(false, row => true), MissionId, f.missionId), TaskStatus, f.status);
    Meaning(m.refused, (row: Row) => m.accepts(row)
      && (f.search != "" ==> db.likeLower(row.code, "%" + f.search + "%")))
  }

  method BuildTaskSearch(ghost db: Server, lower: string -> string, request: Search.SearchRequest)
    returns (page: Query, count: Query)
    ensures Agree(db, page, count, TaskMeaning(db, Search.Normalize(lower, request).filter))
    ensures |page.args| >= 2 && page.args[0] == Count(Search.EffectiveLimit(request.limit))
    ensures |page.args| == |page.where| + 2 && |count.args| == |count.where|
  {
    var r := Search.Normalize(lower, request);
    page := Query([], [Count(r.limit), Count(r.offset)]);
    count := Query([], []);
    ghost var m := Meaning(false, row => true);
    page, count := AddEqual(db, page, count, m, MissionId, r.filter.missionId);
    m := WithEqual(db, m, MissionId, r.filter.missionId);
    page, count := AddEqual(db, page, count, m, TaskStatus, r.filter.status);
    m := WithEqual(db, m, TaskStatus, r.filter.status);
    if r.filter.search != "" {
      var pattern := "%" + r.filter.search + "%";
      AppendedLike(db, page, pattern);
      AppendedLike(db, count, pattern);
      page := Query(page.where + [TaskCodeLike(|page.args| + 1)], page.args + [Words(pattern)]);
      count := Query(count.where + [TaskCodeLike(|count.args| + 1)], count.args + [Words(pattern)]);
    }
  }

  lemma AppendedLike(db: Server, q: Query, pattern: string)
    requires AllBound(q)
    ensures var r := Query(q.where + [TaskCodeLike(|q.args| + 1)], q.args + [Words(pattern)]);
            && AllBound(r) && (Refused(db, r) <==> Refused(db, q))
            && forall row :: Selects(db, r, row) <==> Selects(db, q, row) && db.likeLower(row.code, pattern)
  {
    var clause := TaskCodeLike(|q.args| + 1);
    var r := Query(q.where + [clause], q.args + [Words(pattern)]);
    forall row
      ensures AllBound(r) && (Selects(db, r, row) <==> Selects(db, q, row) && db.likeLower(row.code, pattern))
    {
      Appended(db, q, clause, Words(pattern), row);
    }
    Appended(db, q, clause, Words(pattern), Row(0, c => "", "", ""));
  }
}
