/**
 * The few pieces of the Kotlin standard library that the joystick and the
 * motor mixer rely on, stated over Dafny's unbounded `int` and exact `real`.
 */
module Kotlin {

  /** A nullable value `T?`: a reference that may be absent. */
  datatype Option<T> = None | Some(value: T)

  /** The two bounds of Kotlin's 32-bit `Int`. */
  const IntMinValue: int := -0x8000_0000
  const IntMaxValue: int := 0x7fff_ffff
  const IntModulus: int := 0x1_0000_0000

  predicate IsInt(v: int) {
    IntMinValue <= v <= IntMaxValue
  }

  /**
   * The value a 32-bit `Int` holds after an addition or subtraction whose
   * exact result is `v`: two's-complement wrap-around.
   */
  function WrapInt(v: int): (r: int)
    ensures IsInt(r)
    ensures (r - v) % IntModulus == 0
    ensures IsInt(v) ==> r == v
  {
    var r := (v - IntMinValue) % IntModulus + IntMinValue;
    assert r - v == -IntModulus * ((v - IntMinValue) / IntModulus);
    r
  }

  /**
   * `Int.coerceIn(lo, hi)`: the value itself when it lies in [lo, hi],
   * otherwise the bound it overshoots. Kotlin throws when lo > hi; every
   * call in the model passes the constants -100 and 100.
   */
  function CoerceIn(v: int, lo: int, hi: int): (r: int)
    requires lo <= hi
    ensures lo <= r <= hi
    ensures lo <= v <= hi ==> r == v
    ensures v < lo ==> r == lo
    ensures hi < v ==> r == hi
  {
    if v < lo then lo else if hi < v then hi else v
  }

  /**
   * `Float.toInt()` on a finite value: truncation toward zero, so the
   * result is the integer next to `v` on the side of zero.
   */
  function FloatToInt(v: real): (i: int)
    ensures 0.0 <= v ==> 0 <= i && i as real <= v < i as real + 1.0
    ensures v < 0.0 ==> i <= 0 && i as real - 1.0 < v <= i as real
  {
    if 0.0 <= v then v.Floor else -((-v).Floor)
  }
}
