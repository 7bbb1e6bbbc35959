/** ORDER BY a due time, LIMIT: which rows a bounded earliest-first query may return. */
module Selection {
  import opened Basics

  /** The bound a worker really uses. */
  function EffectiveLimit(limit: int): nat {
    if limit < 1 || limit > 500 then 100 else limit
  }

  function Members(ids: seq<Uuid>): set<Uuid> {
    set x | x in ids
  }

  /** `ids` lists earliest rows of `due` in order, as many as the limit allows; ties may come in any order. */
  ghost predicate Earliest(due: map<Uuid, Time>, limit: nat, ids: seq<Uuid>) {
    && Distinct(ids)
    && |ids| <= limit
    && (forall i :: 0 <= i < |ids| ==> ids[i] in due)
    && (forall i, j :: 0 <= i < j < |ids| ==> due[ids[i]] <= due[ids[j]])
    && (forall x, i :: x in due && x !in ids && 0 <= i < |ids| ==> due[ids[i]] <= due[x])
    && ((exists x :: x in due && x !in ids) ==> |ids| == limit)
  }

  lemma MembersCount(ids: seq<Uuid>)
    requires Distinct(ids)
    ensures |Members(ids)| == |ids|
  {
    if ids != [] {
      MembersCount(ids[1..]);
      assert Members(ids) == Members(ids[1..]) + {ids[0]};
    }
  }

  function Min(a: nat, b: nat): nat {
    if a < b then a else b
  }

  /** A selection has exactly min(limit, number of candidates) rows, and removing them removes that many. */
  lemma SelectionSize(due: map<Uuid, Time>, limit: nat, ids: seq<Uuid>)
    requires Earliest(due, limit, ids)
    ensures |ids| == Min(limit, |due|)
    ensures |due - Members(ids)| == |due| - |ids|
  {
    MembersCount(ids);
    assert due.Keys == Members(ids) + (due - Members(ids)).Keys;
    assert Members(ids) !! (due - Members(ids)).Keys;
    if |ids| < |due| {
      var x :| x in (due - Members(ids)).Keys;
    }
  }

  /** Due rows left after a number of passes over n of them. */
  function Left(n: nat, limit: nat, passes: nat): nat {
    if n <= limit * passes then 0 else n - limit * passes
  }

  /** Passes needed for n rows. */
  function Ceiling(n: nat, limit: nat): nat
    requires limit > 0
  {
    (n + limit - 1) / limit
  }

  /** Another pass leaves exactly what the count says. */
  lemma LeftStep(n: nat, limit: nat, passes: nat)
    ensures Left(n, limit, passes) - Min(limit, Left(n, limit, passes)) == Left(n, limit, passes + 1)
  {
    assert limit * (passes + 1) == limit * passes + limit;
  }

  /** Nothing is left exactly when the number of passes reaches the ceiling. */
  lemma DrainedExactly(n: nat, limit: nat, passes: nat)
    requires limit > 0
    ensures Left(n, limit, passes) == 0 <==> Ceiling(n, limit) <= passes
  {
    var c := Ceiling(n, limit);
    assert n <= limit * c < n + limit;
    if c <= passes {
      assert limit * c <= limit * passes;
    } else {
      assert limit * (passes + 1) <= limit * c;
      assert limit * (passes + 1) == limit * passes + limit;
    }
  }

  /** The query itself: repeatedly take an earliest candidate. */
  method SelectEarliest(due: map<Uuid, Time>, limit: nat) returns (ids: seq<Uuid>)
    ensures Earliest(due, limit, ids)
  {
    ids := [];
    var rest := due;
    while |ids| < limit && rest != map[]
      invariant Distinct(ids) && |ids| <= limit
      invariant rest == due - Members(ids)
      invariant forall i :: 0 <= i < |ids| ==> ids[i] in due
      invariant forall i, j :: 0 <= i < j < |ids| ==> due[ids[i]] <= due[ids[j]]
      invariant forall x, i :: x in due && x !in ids && 0 <= i < |ids| ==> due[ids[i]] <= due[x]
      decreases limit - |ids|
    {
      var first := EarliestKey(rest);
      assert Members(ids + [first]) == Members(ids) + {first};
      assert forall x :: x in due && x !in ids ==> x in rest && due[first] <= due[x];
      ids := ids + [first];
      rest := rest - {first};
    }
    assert forall x :: x in due && x !in ids ==> x in rest;
  }

  method EarliestKey(due: map<Uuid, Time>) returns (first: Uuid)
    requires due != map[]
    ensures first in due && forall x :: x in due ==> due[first] <= due[x]
  {
    var todo := due.Keys;
    first :| first in todo;
    todo := todo - {first};
    while todo != {}
      invariant first in due && todo <= due.Keys
      invariant forall x :: x in due && x !in todo ==> due[first] <= due[x]
      decreases |todo|
    {
      var x :| x in todo;
      if due[x] < due[first] {
        first := x;
      }
      todo := todo - {x};
    }
  }
}
