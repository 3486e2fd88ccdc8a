/** The few JavaScript value rules the routes lean on: truthiness and `x || fallback`. */
module Js {
  import opened Wrappers

  /**
   * `!!v` for a request field that holds a string or is missing:
   * `undefined`, `null` and `""` are falsy, every other string is truthy.
   */
  predicate Truthy(v: Option<string>) {
    v.Some? && v.value != ""
  }

  /**
   * `!!n` for a request field that holds a number (an amount in cents) or is
   * missing: `undefined`, `null` and `0` are falsy.
   */
  predicate TruthyNum(v: Option<int>) {
    v.Some? && v.value != 0
  }

  /** `v || null`: a stored optional column is never the empty string. */
  function OrNull(v: Option<string>): (r: Option<string>)
    ensures r.Some? ==> r.value != ""
    ensures Truthy(v) ==> r == v
    ensures !Truthy(v) ==> r == None
  {
    if Truthy(v) then v else None
  }

  /** `v || fallback` for a string field. */
  function OrElse(v: Option<string>, fallback: string): (r: string)
    ensures Truthy(v) ==> r == v.value
    ensures !Truthy(v) ==> r == fallback
  {
    if Truthy(v) then v.value else fallback
  }
}
