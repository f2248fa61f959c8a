/** Option and Result, used for Java's null and for thrown exceptions. */
module Wrappers {

  /** `None` stands for a Java `null`. */
  datatype Option<+T> = None | Some(value: T)

  /** `Failure` stands for an exception the Java code throws. */
  datatype Result<+R, +E> = Success(value: R) | Failure(error: E)

  /** The value stored under `k`, or `None` when the key is absent (a Java `Map.get`). */
  function Lookup<K, V>(m: map<K, V>, k: K): (r: Option<V>)
    ensures r.Some? <==> k in m
    ensures r.Some? ==> r.value == m[k]
  {
    if k in m then Some(m[k]) else None
  }
}
