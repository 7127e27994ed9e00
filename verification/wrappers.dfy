/** An optional value, usable with `:-`, for the colour readers of this model. */
module Wrappers {

  datatype Option<+T> = None | Some(value: T) {

    /** A missing value stops a `:-` chain. */
    predicate IsFailure() {
      None?
    }

    /** Passes a missing value on at another value type. */
    function PropagateFailure<U>(): Option<U>
      requires None?
    {
      None
    }

    /** The value that is present. */
    function Extract(): T
      requires Some?
    {
      value
    }
  }
}
