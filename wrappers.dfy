/** Optional values and pass/fail outcomes, used where the source returns
    `undefined`, resolves, or rejects. */
module Wrappers {

  datatype Option<+T> = None | Some(value: T)

  /** How a promise settles when nothing is carried on success. */
  datatype Outcome<+E> = Pass | Fail(error: E)
}
