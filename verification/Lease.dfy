/** The in-process lease, one call at a time, and what any run of calls guarantees. */
module Leases {
  import opened Basics

  /** The zero time. */
  const ZERO_TIME: Time := 0

  datatype LeaseState = LeaseState(owner: string, until: Time)

  const FREE: LeaseState := LeaseState("", ZERO_TIME)

  datatype Call = Acquire(owner: string, ttl: int) | Release(owner: string)

  /** Whether the call succeeds in a state at a time. */
  predicate Granted(s: LeaseState, call: Call, now: Time) {
    match call
    case Acquire(owner, ttl) => owner != "" && 0 < ttl && (s.owner == "" || s.until <= now || s.owner == owner)
    case Release(owner) => s.owner == owner
  }

  function After(s: LeaseState, call: Call, now: Time): LeaseState {
    if !Granted(s, call, now) then s
    else match call
      case Acquire(owner, ttl) => LeaseState(owner, now + ttl)
      case Release(owner) => FREE
  }

  class Lease {
    var owner: string
    var until: Time

    function State(): LeaseState
      reads this
    {
      LeaseState(owner, until)
    }

    constructor ()
      ensures State() == FREE
    {
      owner, until := "", ZERO_TIME;
    }

    method Acquire(owner: string, now: Time, ttl: int) returns (ok: bool)
      modifies this
      ensures ok == Granted(old(State()), Call.Acquire(owner, ttl), now)
      ensures State() == After(old(State()), Call.Acquire(owner, ttl), now)
    {
      if owner == "" || ttl <= 0 {
        return false;
      }
      if this.owner != "" && now < until && this.owner != owner {
        return false;
      }
      this.owner, until := owner, now + ttl;
      return true;
    }

    method Release(owner: string, ghost now: Time) returns (ok: bool)
      modifies this
      ensures ok == Granted(old(State()), Call.Release(owner), now)
      ensures State() == After(old(State()), Call.Release(owner), now)
    {
      if this.owner != owner {
        return false;
      }
      this.owner, until := "", ZERO_TIME;
      return true;
    }

    method HeldBy(owner: string, now: Time) returns (held: bool)
      ensures held == Holding(State(), owner, now)
    {
      return this.owner == owner && now < until;
    }
  }

  predicate Holding(s: LeaseState, owner: string, now: Time) {
    s.owner == owner && now < s.until
  }

  // ---------- runs ----------

  /** A call and the time it is made. */
  datatype Step = Step(at: Time, call: Call)

  ghost predicate Ordered(run: seq<Step>) {
    forall i, j :: 0 <= i < j < |run| ==> run[i].at <= run[j].at
  }

  /** The state before the k-th call. */
  ghost function StateAt(run: seq<Step>, k: nat): LeaseState
    requires k <= |run|
  {
    if k == 0 then FREE else After(StateAt(run, k - 1), run[k - 1].call, run[k - 1].at)
  }

  ghost predicate Succeeded(run: seq<Step>, k: nat)
    requires k < |run|
  {
    Granted(StateAt(run, k), run[k].call, run[k].at)
  }

  ghost predicate Acquired(run: seq<Step>, k: nat) {
    k < |run| && run[k].call.Acquire? && Succeeded(run, k)
  }

  /** The owner itself renewed or released between the two calls. */
  ghost predicate GaveUp(run: seq<Step>, owner: string, i: nat, j: nat)
    requires i <= j <= |run|
  {
    exists k :: i < k < j && run[k].call.owner == owner && Succeeded(run, k)
  }

  ghost function Expiry(run: seq<Step>, i: nat): Time
    requires Acquired(run, i)
  {
    run[i].at + run[i].call.ttl
  }

  /** Until its lease runs out, only the owner's own calls change the state. */
  lemma {:induction false} StateHeld(run: seq<Step>, i: nat, k: nat)
    requires Ordered(run) && Acquired(run, i) && i < k <= |run|
    requires !GaveUp(run, run[i].call.owner, i, k)
    requires forall j :: i < j < k ==> run[j].at < Expiry(run, i)
    ensures StateAt(run, k) == LeaseState(run[i].call.owner, Expiry(run, i))
    decreases k
  {
    if k > i + 1 {
      assert !GaveUp(run, run[i].call.owner, i, k - 1);
      StateHeld(run, i, k - 1);
    }
  }

  /**
   After an owner's acquisition that it has not since renewed or released, another owner acquires only once
   it has expired.
   */
  lemma TakenOnlyAfterExpiry(run: seq<Step>, i: nat, j: nat)
    requires Ordered(run) && Acquired(run, i) && Acquired(run, j) && i < j
    requires run[i].call.owner != run[j].call.owner && !GaveUp(run, run[i].call.owner, i, j)
    ensures Expiry(run, i) <= run[j].at
  {
    if run[j].at < Expiry(run, i) {
      StateHeld(run, i, j);
    }
  }

  /** Acquisition i is in force at time t: made, not expired, and neither renewed nor released by its owner. */
  ghost predicate InForce(run: seq<Step>, i: nat, t: Time) {
    && Acquired(run, i) && run[i].at <= t < Expiry(run, i)
    && forall k :: i < k < |run| && run[k].at <= t && run[k].call.owner == run[i].call.owner ==> !Succeeded(run, k)
  }

  /** Holding intervals of different owners never overlap; one owner has at most one acquisition in force. */
  lemma Exclusive(run: seq<Step>, i: nat, j: nat, t: Time)
    requires Ordered(run) && InForce(run, i, t) && InForce(run, j, t)
    ensures i == j
  {
    if i < j && run[i].call.owner != run[j].call.owner {
      TakenOnlyAfterExpiry(run, i, j);
    } else if j < i && run[i].call.owner != run[j].call.owner {
      TakenOnlyAfterExpiry(run, j, i);
    }
  }

  /** The number of calls made by time t. */
  ghost predicate Cut(run: seq<Step>, k: nat, t: Time) {
    && k <= |run|
    && (forall j :: 0 <= j < k ==> run[j].at <= t)
    && (forall j :: k <= j < |run| ==> t < run[j].at)
  }

  /** HeldBy says yes exactly for the owner of the acquisition in force. */
  lemma HeldByExact(run: seq<Step>, k: nat, owner: string, t: Time)
    requires Ordered(run) && Cut(run, k, t) && owner != ""
    ensures Holding(StateAt(run, k), owner, t) <==> exists i: nat :: InForce(run, i, t) && run[i].call.owner == owner
  {
    if Holding(StateAt(run, k), owner, t) {
      var i := LastAcquired(run, k);
      assert InForce(run, i, t);
    }
    if i: nat :| InForce(run, i, t) && run[i].call.owner == owner {
      StateHeld(run, i, k);
    }
  }

  /** A held state was made by an acquisition of its owner that the owner's later calls left alone. */
  lemma {:induction false} LastAcquired(run: seq<Step>, k: nat) returns (i: nat)
    requires k <= |run| && StateAt(run, k).owner != ""
    ensures i < k && Acquired(run, i) && StateAt(run, k) == LeaseState(run[i].call.owner, Expiry(run, i))
    ensures forall j :: i < j < k ==> !Succeeded(run, j)
    decreases k
  {
    if Succeeded(run, k - 1) {
      return k - 1;
    }
    i := LastAcquired(run, k - 1);
  }

  /** Acquisition i stands when call k is made: unexpired, and neither renewed nor released by its owner since. */
  ghost predicate Standing(run: seq<Step>, i: nat, k: nat)
    requires k < |run|
  {
    i < k && Acquired(run, i) && run[k].at < Expiry(run, i) && !GaveUp(run, run[i].call.owner, i, k)
  }

  /**
   A named owner acquires for a positive time exactly when no other owner's acquisition stands; so an owner may
   always renew.
   */
  lemma AcquiredExactly(run: seq<Step>, k: nat)
    requires Ordered(run) && k < |run| && run[k].call.Acquire?
    ensures Acquired(run, k) <==>
              && run[k].call.owner != "" && 0 < run[k].call.ttl
              && forall i: nat :: Standing(run, i, k) ==> run[i].call.owner == run[k].call.owner
  {
    if Acquired(run, k) {
      forall i: nat | Standing(run, i, k) ensures run[i].call.owner == run[k].call.owner {
        if run[i].call.owner != run[k].call.owner {
          TakenOnlyAfterExpiry(run, i, k);
        }
      }
    } else if StateAt(run, k).owner != "" {
      var i := LastAcquired(run, k);
      assert run[k].at < Expiry(run, i) ==> Standing(run, i, k);
    }
  }

  ghost predicate LastSuccess(run: seq<Step>, i: nat, k: nat)
    requires k <= |run|
  {
    i < k && Succeeded(run, i) && forall j :: i < j < k ==> !Succeeded(run, j)
  }

  lemma {:induction false} StateSinceLast(run: seq<Step>, i: nat, k: nat)
    requires k <= |run| && LastSuccess(run, i, k)
    ensures StateAt(run, k) == StateAt(run, i + 1)
    decreases k
  {
    if k > i + 1 {
      assert !Succeeded(run, k - 1);
      StateSinceLast(run, i, k - 1);
    }
  }

  /** A named owner can release exactly when the last call that succeeded was its own acquisition, expired or not. */
  lemma ReleasedExactly(run: seq<Step>, k: nat)
    requires k < |run| && run[k].call.Release? && run[k].call.owner != ""
    ensures Succeeded(run, k) <==>
              exists i: nat :: LastSuccess(run, i, k) && run[i].call.Acquire? && run[i].call.owner == run[k].call.owner
  {
    if Succeeded(run, k) {
      var i := LastAcquired(run, k);
      assert LastSuccess(run, i, k);
    }
    if i: nat :| LastSuccess(run, i, k) && run[i].call.Acquire? && run[i].call.owner == run[k].call.owner {
      StateSinceLast(run, i, k);
    }
  }
}
