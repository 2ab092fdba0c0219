/** The few Python built-ins the service relies on, with Python's semantics. */
module Py {
  import opened Wrappers

  /** `bool(v)` for an optional query string or header: absent and empty are both false. */
  predicate Truthy(v: Option<string>) {
    v.Some? && v.value != ""
  }

  /** The position that a slice bound `i` denotes in a sequence of length `n`:
      negative bounds count from the end, and out-of-range bounds are clamped. */
  function Bound(n: nat, i: int): (k: nat)
    ensures k <= n
    ensures 0 <= i <= n ==> k == i
    ensures i < 0 && 0 <= n + i ==> k == n + i
    ensures n + i < 0 ==> k == 0
  {
    if i < 0 then (if n + i < 0 then 0 else n + i)
    else if i > n then n
    else i
  }

  /** `s[:j]` */
  function Take<T>(s: seq<T>, j: int): seq<T> {
    s[..Bound(|s|, j)]
  }

  /** `s[i:]` */
  function Drop<T>(s: seq<T>, i: int): seq<T> {
    s[Bound(|s|, i)..]
  }

  /** `s[i]`, or None where Python raises IndexError. */
  function At<T>(s: seq<T>, i: int): (r: Option<T>)
    ensures r.Some? <==> -|s| <= i < |s|
    ensures r.Some? ==> r.value == s[if i < 0 then |s| + i else i]
  {
    if 0 <= i < |s| then Some(s[i])
    else if -|s| <= i < 0 then Some(s[|s| + i])
    else None
  }

  /** `s.endswith(c)` for a one-character suffix. */
  predicate EndsWith(s: string, c: char) {
    |s| > 0 && s[|s| - 1] == c
  }
}
