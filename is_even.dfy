/** src/is_even.rs: evenness of a 32-bit signed integer. */
module Parity {

  /** Rust's `i32`. */
  newtype i32 = x: int | -0x8000_0000 <= x < 0x8000_0000

  const I32Max: i32 := 0x7FFF_FFFF

  /** Rust's `%` on integers: the remainder truncates toward zero, so it takes
      the sign of the dividend (unlike Dafny's Euclidean `%`). */
  function TruncatingRem(a: int, b: int): (r: int)
    requires b != 0
    ensures Abs(r) < Abs(b)
    ensures a >= 0 ==> r >= 0
    ensures a < 0 ==> r <= 0
    ensures exists q: int :: a == b * q + r
  {
    var m := Abs(a) % Abs(b);
    var q := Abs(a) / Abs(b);
    assert Abs(a) == Abs(b) * q + m;
    var sign := if b > 0 then 1 else -1;
    assert Abs(b) == b * sign;
    if a >= 0 then
      assert a == b * (sign * q) + m;
      m
    else
      assert a == b * (-sign * q) - m;
      -m
  }

  function Abs(x: int): nat { if x < 0 then -x else x }

  /** `is_even(value)` is `value % 2 == 0` with Rust's remainder; it holds
      exactly for the multiples of two, negative values included. */
  function IsEven(value: i32): (even: bool)
    ensures even <==> (value as int) % 2 == 0
  {
    var r := TruncatingRem(value as int, 2);
    assert (value as int) % 2 == 0 <==> r == 0 by {
      var q :| value as int == 2 * q + r;
    }
    r == 0
  }

  /** Consecutive values alternate between even and odd, up to `i32::MAX`. */
  lemma IsEvenAlternates(value: i32)
    requires value < I32Max
    ensures IsEven(value) != IsEven(value + 1)
  {
  }

  /** The cases of the test in is_even.rs, and a negative odd value. */
  lemma IsEvenExamples()
    ensures !IsEven(1) && IsEven(2)
    ensures !IsEven(-3) && IsEven(-4)
  {
  }
}
