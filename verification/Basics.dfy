/** Small shared vocabulary: optional values and whole-sequence helpers. */
module Basics {

  datatype Option<+T> = None | Some(value: T)

  /** The first `limit` elements, or all of them when there are fewer. */
  function Take<T>(s: seq<T>, limit: nat): seq<T> {
    if |s| <= limit then s else s[..limit]
  }

  /** The sum of `weight` over a sequence. */
  function Sum<T>(weight: T -> int, s: seq<T>): int {
    if s == [] then 0 else Sum(weight, s[..|s| - 1]) + weight(s[|s| - 1])
  }

  lemma {:induction false} SumConcat<T>(weight: T -> int, a: seq<T>, b: seq<T>)
    ensures Sum(weight, a + b) == Sum(weight, a) + Sum(weight, b)
  {
    if b == [] {
      assert a + b == a;
    } else {
      assert (a + b)[..|a + b| - 1] == a + b[..|b| - 1];
      SumConcat(weight, a, b[..|b| - 1]);
    }
  }

  lemma Regrouped<T>(a: seq<T>, b: seq<T>, c: seq<T>)
    ensures a + (b + c) == a + b + c
  {
  }

  lemma SubsetIsSmaller<T>(a: set<T>, b: set<T>)
    requires a <= b
    ensures |a| <= |b|
  {
    assert b == a + (b - a);
  }
}
