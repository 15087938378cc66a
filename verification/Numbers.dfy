/** Arithmetic that several components share. */
module Numbers {
  function Min(a: real, b: real): real {
    if a <= b then a else b
  }

  function Max(a: real, b: real): real {
    if a >= b then a else b
  }

  /** Conversion of a real to an integer, which drops the fraction. */
  function Trunc(x: real): int {
    if x >= 0.0 then x.Floor else -((-x).Floor)
  }

  function Digit(d: nat): char
    requires d < 10
  {
    "0123456789"[d]
  }
}
