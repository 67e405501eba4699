/** Small shared vocabulary: an Option type, clamping, and the fixed-width
    integer behaviour of C# `int`, .NET `DateTime` and C++ `unsigned long`. */
module Prelude {

  datatype Option<T> = None | Some(value: T)

  /** `Math.Clamp(x, lo, hi)` on reals (the bounds are always ordered here). */
  function Clamp(x: real, lo: real, hi: real): (r: real)
    requires lo <= hi
    ensures lo <= r <= hi
    ensures lo <= x <= hi ==> r == x
    ensures x < lo ==> r == lo
    ensures hi < x ==> r == hi
  {
    if x < lo then lo else if hi < x then hi else x
  }

  function Max(a: int, b: int): (r: int)
    ensures r >= a && r >= b && (r == a || r == b)
  {
    if a < b then b else a
  }

  function Min(a: int, b: int): (r: int)
    ensures r <= a && r <= b && (r == a || r == b)
  {
    if a < b then a else b
  }

  // ---- 32-bit signed integers (C# `int`, ESP32 `int` and `long`) ----

  const Int32Min: int := -0x8000_0000
  const Int32Max: int := 0x7FFF_FFFF
  const TwoTo32: int := 0x1_0000_0000

  type Int32 = x: int | Int32Min <= x <= Int32Max

  /** Two's-complement wrap-around of an unbounded result into 32 bits. */
  function Wrap32(x: int): (r: Int32)
    ensures Int32Min <= x <= Int32Max ==> r == x
    ensures (r - x) % TwoTo32 == 0
  {
    var m := (x - Int32Min) % TwoTo32;
    assert (m + Int32Min - x) == ((x - Int32Min) % TwoTo32) - (x - Int32Min);
    m + Int32Min
  }

  /** C and C# integer division truncates toward zero; Dafny's `/` is Euclidean. */
  function TruncDiv(a: int, b: int): (q: int)
    requires b > 0
    ensures a >= 0 ==> q == a / b
    ensures a < 0 ==> q == -((-a) / b)
  {
    if a >= 0 then a / b else -((-a) / b)
  }

  // ---- 32-bit unsigned integers (ESP32 `unsigned long`, `millis()`) ----

  type UInt32 = x: int | 0 <= x < TwoTo32

  function AddU32(a: UInt32, b: UInt32): (r: UInt32)
    ensures a + b < TwoTo32 ==> r == a + b
    ensures a + b >= TwoTo32 ==> r == a + b - TwoTo32
  {
    (a + b) % TwoTo32
  }

  // ---- .NET strings ----

  /** `char.IsWhiteSpace`: the Unicode White_Space characters. */
  predicate IsWhiteSpace(c: char)
  {
    ('\U{0009}' <= c <= '\U{000D}') || c == '\U{0020}' || c == '\U{0085}' || c == '\U{00A0}'
    || c == '\U{1680}' || ('\U{2000}' <= c <= '\U{200A}') || c == '\U{2028}' || c == '\U{2029}'
    || c == '\U{202F}' || c == '\U{205F}' || c == '\U{3000}'
  }

  /** `string.IsNullOrWhiteSpace`; `None` stands for a null reference. */
  predicate IsNullOrWhiteSpace(s: Option<string>)
  {
    s.None? || forall i :: 0 <= i < |s.value| ==> IsWhiteSpace(s.value[i])
  }
}
