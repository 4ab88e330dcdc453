/** Failure-carrying datatypes shared by the feed extractors and the request handlers. */
module Wrappers {

  /** A value that may be absent: Python's `None` versus a present value. */
  datatype Option<+T> = None | Some(value: T)

  /** The outcome of an operation that either yields a value or raises. */
  datatype Result<+T, +E> = Ok(value: T) | Err(error: E)

  /** The outcome of a check that either passes or fails with an error value. */
  datatype Outcome<+E> = Pass | Fail(error: E)

  /** `m.get(k, None)` on a dictionary. */
  function Get<K, V>(m: map<K, V>, k: K): Option<V>
  {
    if k in m then Some(m[k]) else None
  }
}
