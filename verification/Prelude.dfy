/** Small vocabulary shared by the models: optional values, and arithmetic on delays. */
module Prelude {

  datatype Option<+T> = None | Some(value: T)

  /** An orchestrator connection; transports are compared by identity. */
  datatype Transport = Transport(url: string)

  function Min(a: real, b: real): real {
    if a <= b then a else b
  }

  function Max(a: real, b: real): real {
    if a >= b then a else b
  }

  /** Two to the power k, as the float multiplication of the source computes it without rounding. */
  function Pow2(k: nat): (p: real)
    ensures p >= 1.0
  {
    if k == 0 then 1.0 else 2.0 * Pow2(k - 1)
  }

  function Get<K, V>(m: map<K, V>, k: K, default: V): V {
    if k in m then m[k] else default
  }
}
