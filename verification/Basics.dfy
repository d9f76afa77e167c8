/** Names shared by the models. */
module Basics {
  /** The 32-bit name of a resource. */
  type Idp = nat

  const META_DOMAIN: Idp := 0

  datatype Option<T> = None | Some(value: T)

  function Below(n: nat): (s: set<int>)
    ensures |s| == n && forall x :: x in s <==> 0 <= x < n
  {
    if n == 0 then {} else Below(n - 1) + {n - 1}
  }

  lemma SubsetSize(a: set<int>, b: set<int>)
    requires a <= b
    ensures |a| <= |b|
  {
    assert |b| == |a| + |b - a| by { assert b == a + (b - a); }
  }
}
