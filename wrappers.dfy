/** Option and Result values, and the byte type used for file contents and bit arrays. */
module Wrappers {

  type byte = bv8

  datatype Option<+T> = None | Some(value: T) {
    function GetOr(default: T): T {
      match this
      case Some(v) => v
      case None => default
    }
  }

  datatype Result<+R, +E> = Ok(value: R) | Err(error: E)

  function Min(a: int, b: int): int { if a <= b then a else b }

  function Max(a: int, b: int): int { if a >= b then a else b }

  function MinReal(a: real, b: real): real { if a <= b then a else b }

  /** `d.get(key, default)` on a dictionary, and a `defaultdict` read. */
  function MapGet<K, V>(m: map<K, V>, key: K, default: V): V
  {
    if key in m then m[key] else default
  }
}
