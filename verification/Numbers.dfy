// Shared vocabulary: optional values, error results and the number operators of JavaScript,
// over reals and unbounded integers.

module Wrappers {
  datatype Option<+T> = None | Some(value: T)

  datatype Result<+T> = Ok(value: T) | Err(message: string)
}

module Numbers {
  /** `2 ** n` for a non-negative integer exponent. */
  function Pow2(n: nat): (p: nat)
    ensures p >= 1
  {
    if n == 0 then 1 else 2 * Pow2(n - 1)
  }

  function Min(a: int, b: int): int {
    if a <= b then a else b
  }

  function Max(a: int, b: int): int {
    if a >= b then a else b
  }

  function MinReal(a: real, b: real): real {
    if a <= b then a else b
  }

  function MaxReal(a: real, b: real): real {
    if a >= b then a else b
  }

  function AbsReal(a: real): real {
    if a >= 0.0 then a else -a
  }

  /** `Math.min(hi, Math.max(lo, x))`. */
  function ClampReal(x: real, lo: real, hi: real): real {
    MinReal(hi, MaxReal(lo, x))
  }

  /** `Math.ceil`. */
  function Ceil(x: real): int {
    -((-x).Floor)
  }

  /** `Math.round`: halves go up. */
  function Round(x: real): int {
    (x + 0.5).Floor
  }

  /** The `%` operator of JavaScript on reals: the remainder takes the sign of the dividend. */
  function RemReal(x: real, m: real): real
    requires m > 0.0
  {
    var q := x / m;
    x - m * (if q >= 0.0 then q.Floor else Ceil(q)) as real
  }

  /** The `%` operator of JavaScript on integers: the remainder takes the sign of the dividend. */
  function RemInt(x: int, m: int): int
    requires m > 0
  {
    if x >= 0 then x % m else -((-x) % m)
  }

  /** `s.slice(0, end)`: a negative end counts back from the length. */
  function SliceTo<T>(s: seq<T>, end: int): seq<T> {
    var stop := if end >= 0 then Min(end, |s|) else Max(0, |s| + end);
    s[..stop]
  }
}
