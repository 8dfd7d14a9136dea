/** The optional-value type used for every fallible decoding step. */
module Wrappers {

  /** `None` is a decoding failure; `Some` carries the decoded value. It can be used
      with `:-`, so a chain of decoding steps stops at the first failure. */
  datatype Option<+T> = None | Some(value: T) {

    predicate IsFailure() {
      None?
    }

    function PropagateFailure<U>(): Option<U>
      requires None?
    {
      None
    }

    function Extract(): T
      requires Some?
    {
      value
    }
  }
}
