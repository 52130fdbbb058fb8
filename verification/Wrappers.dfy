/** Optional values and error returns. */
module Wrappers {
  datatype Option<+T> = None | Some(value: T)

  datatype Result<+T, +E> = Ok(value: T) | Err(error: E)

  /** Reading a Go map with the two-result form: the value, or nothing when the key is absent. */
  function Lookup<V>(m: map<string, V>, k: string): Option<V> {
    if k in m then Some(m[k]) else None
  }

  /** Reading a Go map of slices: an absent key reads as the nil slice. */
  function Slice<V>(m: map<string, seq<V>>, k: string): seq<V> {
    if k in m then m[k] else []
  }
}
