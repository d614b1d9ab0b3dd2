/** Results of operations that the original guards with `assert` or `fatal_assert`. */
module Outcomes {

  datatype Option<+T> = None | Some(value: T)

  /** `AssertFailed` stands for a process stopped by a failed assertion, or by the use of an
      iterator whose element is gone. It propagates through `:-`. */
  datatype Outcome<+T> = Ok(value: T) | AssertFailed {

    predicate IsFailure() {
      AssertFailed?
    }

    function PropagateFailure<U>(): Outcome<U>
      requires AssertFailed?
    {
      AssertFailed
    }

    function Extract(): T
      requires Ok?
    {
      value
    }
  }
}
