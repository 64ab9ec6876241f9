/** Optional values and success/failure results shared by the other modules. */
module Wrappers {

  /** A value that may be absent: PHP's `null`, an unset array key, a JavaScript `null` binding. */
  datatype Option<+T> = None | Some(value: T)

  /** The outcome of an operation that may raise: `Failure` carries the exception message. */
  datatype Result<+R, +E> = Success(value: R) | Failure(error: E)

  /** Looks a key up in a PHP-style associative array; `None` when the key is not set. */
  function Lookup<K, V>(m: map<K, V>, k: K): (r: Option<V>)
    ensures r.Some? <==> k in m
    ensures r.Some? ==> r.value == m[k]
  {
    if k in m then Some(m[k]) else None
  }
}
