/** Small shared vocabulary: optional values, results that carry an error, and set facts. */
module Prelude {

  datatype Option<+T> = None | Some(value: T)

  datatype Result<+T, +E> = Ok(value: T) | Err(error: E)

  function Max(a: int, b: int): int { if a < b then b else a }

  function Min(a: int, b: int): int { if b < a then b else a }

  function RMax(a: real, b: real): real { if a < b then b else a }

  function RMin(a: real, b: real): real { if b < a then b else a }

  /** The value under `key`, or `default` when the map has no such key. */
  function Get<K, V>(m: map<K, V>, key: K, default: V): V {
    if key in m then m[key] else default
  }
}
