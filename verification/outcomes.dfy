/** Optional values and error-carrying results shared by every module of the model. */
module Outcomes {

  /** A value that may be absent: JavaScript's `undefined` or `null`. */
  datatype Option<+T> = None | Some(value: T)

  /** The outcome of an operation that either returns a value or throws. */
  datatype Result<+T, +E> = Ok(value: T) | Err(error: E)
}

/** The few JavaScript value semantics the client code relies on. */
module Js {
  import opened Outcomes

  /** An optional string in a boolean context: `undefined`, `null` and `''` are falsy. */
  predicate Truthy(s: Option<string>) {
    s.Some? && |s.value| > 0
  }

  /** `a || fallback` for an optional string `a`. */
  function OrElse(a: Option<string>, fallback: string): string {
    if Truthy(a) then a.value else fallback
  }
}

/** Linear search over sequences. */
module Seqs {

  /** The index of the first element satisfying `p`, or `|s|` when there is none. */
  function FirstWhere<T>(s: seq<T>, p: T -> bool): (i: nat)
    ensures i <= |s|
    ensures i < |s| ==> p(s[i])
    ensures forall j | 0 <= j < i :: !p(s[j])
  {
    if |s| == 0 then 0
    else if p(s[0]) then 0
    else 1 + FirstWhere(s[1..], p)
  }
}
