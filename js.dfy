/**
 * The JavaScript `||` defaults the front end applies to values that may be
 * absent: `undefined`, `null`, `''` and `0` are falsy and give way to the
 * fallback.
 */
module Js {
  import opened Wrappers

  /** `s || fallback` on a string that may be absent. */
  function OrElse(s: Option<string>, fallback: string): (r: string)
    ensures s.Some? && s.value != "" ==> r == s.value
    ensures s.None? || s.value == "" ==> r == fallback
    ensures fallback != "" ==> r != ""
  {
    if s.Some? && s.value != "" then s.value else fallback
  }

  /** `n || 0` on a number that may be absent. */
  function OrZero(n: Option<int>): (r: int)
    ensures n.Some? ==> r == n.value
    ensures n.None? ==> r == 0
  {
    if n.Some? && n.value != 0 then n.value else 0
  }
}
