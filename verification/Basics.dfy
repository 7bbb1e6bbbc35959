/** Value types shared by every module: optional values, failure values and identifiers. */
module Basics {

  datatype Option<+T> = None | Some(value: T)

  /** The sentinel errors of the domain package; `Failed` stands for an infrastructure failure. */
  datatype Error = NotFound | Conflict | InvalidTransition | CapacityExceeded | Expired | Failed

  /** A value or an error, usable with `:-`. */
  datatype Result<+T> = Ok(value: T) | Err(error: Error) {
    predicate IsFailure() {
      Err?
    }

    function PropagateFailure<U>(): Result<U>
      requires Err?
    {
      Err(error)
    }

    function Extract(): T
      requires Ok?
    {
      value
    }
  }

  /** The outcome of a write that returns nothing but an error. */
  datatype Outcome = Pass | Fail(error: Error) {
    predicate IsFailure() {
      Fail?
    }

    function PropagateFailure<U>(): Result<U>
      requires Fail?
    {
      Err(error)
    }
  }

  function Need(condition: bool, error: Error): Outcome {
    if condition then Pass else Fail(error)
  }

  /** A UUID; only its identity matters. */
  datatype Uuid = Uuid(bits: nat)

  predicate Distinct(ids: seq<Uuid>) {
    forall i, j :: 0 <= i < j < |ids| ==> ids[i] != ids[j]
  }

  /** An instant, in nanoseconds. */
  type Time = int

  const HOUR: int := 3_600_000_000_000

  const MAX_INT32: int := 0x7fff_ffff
}
