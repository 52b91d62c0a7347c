/** Option and Result: JavaScript's `undefined`/`NaN` sentinels and thrown invariants, as values. */
module Wrappers {

  /** `None` stands for a JavaScript `undefined` (or a `NaN` where the source produces one). */
  datatype Option<+T> = None | Some(value: T)

  /** `Err` stands for an `invariant(...)` failure, which throws before any state changes. */
  datatype Result<+T, +E> = Ok(value: T) | Err(error: E)
}
