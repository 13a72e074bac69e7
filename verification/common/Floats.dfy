/**
 Floating-point numbers with nothing assumed about their arithmetic: a value is
 whatever its bit pattern says, and the operations are arbitrary functions. What is
 proved with them holds for any rounding, because it never reorders an operation.
 */
module Floats {

  datatype Float = Float(bits: nat)

  datatype Ops = Ops(
    zero: Float,
    one: Float,
    add: (Float, Float) -> Float,
    sub: (Float, Float) -> Float,
    mul: (Float, Float) -> Float,
    div: (Float, Float) -> Float,
    neg: Float -> Float,
    greater: (Float, Float) -> bool,
    ofInt: int -> Float,
    sqrt: Float -> Float,
    exp: Float -> Float,
    cos: Float -> Float,
    sin: Float -> Float,
    pow: (Float, Float) -> Float
  )
}
