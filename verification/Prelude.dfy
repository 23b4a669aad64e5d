/** Small types and sequence facts shared by the other modules. */
module Prelude {

  datatype Option<+T> = None | Some(value: T)

  /** The least integer that is not below `x` (JavaScript `Math.ceil`). */
  function Ceil(x: real): (n: int)
    ensures n as real - 1.0 < x <= n as real
  {
    -((-x).Floor)
  }

  function MaxInt(a: int, b: int): int { if a < b then b else a }

  function MinReal(a: real, b: real): real { if a <= b then a else b }

  function MaxReal(a: real, b: real): real { if a <= b then b else a }
}
