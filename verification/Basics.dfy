/** Vocabulary shared by the models of the alerting and configuration services. */
module Basics {
  datatype Option<+T> = None | Some(value: T)

  function Get<K, V>(m: map<K, V>, k: K): Option<V> {
    if k in m then Some(m[k]) else None
  }

  function OrElse<T>(a: Option<T>, b: Option<T>): Option<T> {
    if a.Some? then a else b
  }

  /** Row identifiers.  The source draws UUIDs; the model draws fresh numbers. */
  datatype Id = Id(n: nat)

  /** Microseconds, the resolution of the source's timestamps. */
  type Time = int

  /** A device's key; again a UUID in the source. */
  datatype Device = Device(key: nat)

  const SECOND: int := 1_000_000
  const DAY: int := 86_400 * SECOND
}
