/** Small result types shared by the notary modules. */
module Wrappers {

  /** A value that may be missing; `None` also stands for JavaScript's `undefined`. */
  datatype Option<T> = None | Some(value: T)

  /** The result of a computation that may throw a JavaScript exception (a TypeError
      on `undefined`, in every case the notary node reaches). */
  datatype Outcome<T> = Ok(value: T) | Threw
}
