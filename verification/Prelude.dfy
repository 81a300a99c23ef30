/** Datatypes, functions and arithmetic shared by every part of the model. */
module Prelude {
  datatype Option<+T> = None | Some(value: T)

  datatype Result<+T, +E> = Ok(value: T) | Err(error: E)

  /** The first n elements, or all of them. */
  function Take<T>(xs: seq<T>, n: nat): (r: seq<T>)
    ensures |r| == (if n < |xs| then n else |xs|) && r <= xs
  {
    if n < |xs| then xs[..n] else xs
  }

  function CeilDiv(a: nat, b: nat): nat
    requires b > 0
  {
    (a + b - 1) / b
  }

  lemma MulMonotone(a: nat, b: nat, c: nat)
    requires a <= b
    ensures a * c <= b * c
  {
    assert b * c == a * c + (b - a) * c;
  }

  /** A set of places that gains at most the next one. */
  lemma GrowsByOne(a: set<nat>, b: set<nat>, n: nat, more: bool)
    requires forall i :: i in a ==> i < n
    requires forall i :: i in b <==> i in a || (more && i == n)
    ensures |b| == |a| + if more then 1 else 0
  {
    assert b == if more then a + {n} else a;
  }
}
