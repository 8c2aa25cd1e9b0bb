/** Small value helpers shared by every module: an optional value and sums of money columns. */
module Wrappers {

  /** A value that may be absent: a nullable column, or a request field that was not sent. */
  datatype Option<+T> = None | Some(value: T) {
    /** The value, or `default` when absent (the source's `x || default` and `x ?? default`). */
    function GetOr(default: T): T {
      match this
      case Some(v) => v
      case None => default
    }
  }

  /** The outcome of a request handler: a value, or the HTTP status code of the error it answers with. */
  datatype Result<+T> = Ok(value: T) | Err(code: int)

  /** JavaScript truthiness of an optional request field: present, and not `0` or `""`. */
  predicate Given(v: Option<real>) { v.Some? && v.value != 0.0 }

  predicate GivenId(v: Option<int>) { v.Some? && v.value != 0 }

  predicate GivenText(v: Option<string>) { v.Some? && v.value != "" }

  /** Sum of a column of amounts, the source's `reduce((sum, x) => sum + x, 0)`. */
  function Sum(xs: seq<real>): real {
    if xs == [] then 0.0 else Sum(xs[..|xs| - 1]) + xs[|xs| - 1]
  }

  lemma {:induction false} SumAppend(xs: seq<real>, ys: seq<real>)
    ensures Sum(xs + ys) == Sum(xs) + Sum(ys)
    decreases |ys|
  {
    if ys == [] {
      assert xs + ys == xs;
    } else {
      var zs := ys[..|ys| - 1];
      assert (xs + ys)[..|xs + ys| - 1] == xs + zs;
      SumAppend(xs, zs);
    }
  }

  function Max(a: int, b: int): int { if a >= b then a else b }

  function Min(a: int, b: int): int { if a <= b then a else b }

  /** No element occurs twice. */
  predicate Distinct<T(==)>(xs: seq<T>) {
    forall i, j :: 0 <= i < j < |xs| ==> xs[i] != xs[j]
  }
}
