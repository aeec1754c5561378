/** Optional values (a JavaScript property that is present, `Some`, or
    `undefined`, `None`), how a JavaScript call ended, reading a property of
    an object, and `findIndex`. */
module Wrappers {

  datatype Option<+T> = None | Some(value: T) {

    /** The value when present, otherwise `default` (JavaScript's `v ?? d`). */
    function GetOr(default: T): T {
      match this
      case Some(v) => v
      case None => default
    }
  }

  /** A call that returned normally, or one that threw. */
  datatype Completion = Returned | Threw

  /** Reading property `k` of an object: the value, or `None` for `undefined`. */
  function Lookup<V>(values: map<string, V>, k: string): (r: Option<V>)
    ensures r.Some? <==> k in values
    ensures r.Some? ==> r.value == values[k]
  {
    if k in values then Some(values[k]) else None
  }

  /** `xs.findIndex(p)`: the first index whose element satisfies `p`, or
      `None` for -1. */
  function FindFirst<T>(xs: seq<T>, p: T -> bool): (r: Option<nat>)
    ensures r.None? <==> forall j :: 0 <= j < |xs| ==> !p(xs[j])
    ensures r.Some? ==> r.value < |xs| && p(xs[r.value])
    ensures r.Some? ==> forall j :: 0 <= j < r.value ==> !p(xs[j])
  {
    if xs == [] then None
    else if p(xs[0]) then Some(0)
    else match FindFirst(xs[1..], p)
      case None => None
      case Some(i) => Some(i + 1)
  }
}
