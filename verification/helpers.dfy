/** Generic helpers shared by the colour conversion and the LED driver
    (components/led_driver/include/helpers.hpp). */
module Helpers {

  /** `std::min(a, b)`: `b` if it is strictly smaller than `a`, otherwise `a`. */
  function Min(a: real, b: real): (r: real)
    ensures r <= a && r <= b
    ensures r == a || r == b
  {
    if b < a then b else a
  }

  /** `std::max(a, b)`: `b` if `a` is strictly smaller than it, otherwise `a`. */
  function Max(a: real, b: real): (r: real)
    ensures r >= a && r >= b
    ensures r == a || r == b
  {
    if a < b then b else a
  }

  /** `clamp<float>(val, mn, mx) = std::max(std::min(val, mx), mn)`.
      When the bounds are crossed (`mn > mx`) the outer `max` wins and the
      result is `mn` whatever `val` is. */
  function Clamp(val: real, mn: real, mx: real): (r: real)
    ensures mn <= mx ==> mn <= r <= mx
    ensures mn <= val <= mx ==> r == val
    ensures val < mn ==> r == mn
    ensures mn <= mx < val ==> r == mx
    ensures mn > mx ==> r == mn
  {
    Max(Min(val, mx), mn)
  }

  /** `clamp<uint32_t>(val, mn, mx)`: the same template instantiated on
      integers (Dafny has no ordering shared by `int` and `real`). */
  function ClampInt(val: int, mn: int, mx: int): (r: int)
    ensures mn <= mx ==> mn <= r <= mx
    ensures mn <= val <= mx ==> r == val
    ensures val < mn ==> r == mn
    ensures mn <= mx < val ==> r == mx
    ensures mn > mx ==> r == mn
  {
    var low := if mx < val then mx else val;
    if low < mn then mn else low
  }

  /** Clamping twice to the same bounds is clamping once. */
  lemma ClampIdempotent(val: real, mn: real, mx: real)
    ensures Clamp(Clamp(val, mn, mx), mn, mx) == Clamp(val, mn, mx)
  {
  }

  /** `set_all_values_in_array(arr, val)`: assigns `val` to every element of
      the fixed-size array in place; its length cannot change. */
  method SetAllValues<T>(arr: array<T>, val: T)
    modifies arr
    ensures forall i :: 0 <= i < arr.Length ==> arr[i] == val
  {
    for i := 0 to arr.Length
      invariant forall j :: 0 <= j < i ==> arr[j] == val
    {
      arr[i] := val;
    }
  }
}
