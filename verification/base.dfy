/** Small building blocks shared by the study pages: optional values,
    JavaScript's `||` defaults on optional fields, filtering, and the
    all-digit test that separates server ids from local ones. */
module Base {

  datatype Option<+T> = None | Some(value: T)

  function Max(a: int, b: int): (r: int)
    ensures r >= a && r >= b && (r == a || r == b)
  {
    if a >= b then a else b
  }

  function Min(a: int, b: int): (r: int)
    ensures r <= a && r <= b && (r == a || r == b)
  {
    if a <= b then a else b
  }

  /** `o || d` for an optional string: a missing or empty string gives `d`. */
  function OrString(o: Option<string>, d: string): (r: string)
    ensures o.Some? && o.value != "" ==> r == o.value
    ensures o.None? || o.value == "" ==> r == d
  {
    if o.Some? && o.value != "" then o.value else d
  }

  /** `Number(o || 0)` for an optional number: a missing number gives 0. */
  function OrZero(o: Option<int>): (r: int)
    ensures o.Some? ==> r == o.value
    ensures o.None? ==> r == 0
  {
    if o.Some? then o.value else 0
  }

  /** `!!o` for an optional boolean. */
  function Truthy(o: Option<bool>): (r: bool)
    ensures r <==> o == Some(true)
  {
    o.Some? && o.value
  }

  /** `Array.prototype.filter`: the elements satisfying `p`, in order. */
  function Filter<T(==,!new)>(s: seq<T>, p: T -> bool): (r: seq<T>)
    ensures |r| <= |s|
    ensures forall i :: 0 <= i < |r| ==> p(r[i])
    ensures forall x :: x in r <==> x in s && p(x)
    decreases |s|
  {
    if s == [] then []
    else (if p(s[0]) then [s[0]] else []) + Filter(s[1..], p)
  }

  predicate IsDigit(c: char)
  {
    '0' <= c <= '9'
  }

  function AllDigits(s: string): (r: bool)
    ensures r <==> forall i :: 0 <= i < |s| ==> IsDigit(s[i])
    decreases |s|
  {
    if s == [] then true else IsDigit(s[0]) && AllDigits(s[1..])
  }

  /** `/^\d+$/.test(String(id))`: ids issued by the server are non-empty runs
      of ASCII digits; anything else is a locally made id and is never sent. */
  function IsServerId(id: string): (r: bool)
    ensures r <==> |id| > 0 && forall i :: 0 <= i < |id| ==> IsDigit(id[i])
  {
    |id| > 0 && AllDigits(id)
  }
}
