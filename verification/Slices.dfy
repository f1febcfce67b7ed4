/** A sequence standing in a longer one. */
module Slices {
  /** The sequence `t` stands in `p` at `i`. */
  ghost predicate Stands<T>(p: seq<T>, i: nat, t: seq<T>) {
    i + |t| <= |p| && forall j | 0 <= j < |t| :: p[i + j] == t[j]
  }

  lemma {:induction false} StandsSplit<T>(p: seq<T>, i: nat, a: seq<T>, b: seq<T>)
    requires Stands(p, i, a + b)
    ensures Stands(p, i, a) && Stands(p, i + |a|, b)
  {
    forall j | 0 <= j < |a| ensures p[i + j] == a[j] {
      assert (a + b)[j] == a[j];
    }
    forall j | 0 <= j < |b| ensures p[i + |a| + j] == b[j] {
      assert (a + b)[|a| + j] == b[j];
    }
  }

  lemma {:induction false} StandsAt<T>(p: seq<T>, i: nat, t: seq<T>, j: nat)
    requires Stands(p, i, t) && j < |t|
    ensures i + j < |p| && p[i + j] == t[j]
  {
  }

  lemma {:induction false} StandsWhole<T>(p: seq<T>)
    ensures Stands(p, 0, p)
  {
  }

  /** Facts about a function stated under this seal do not make a proof unfold the function until the
      proof asserts `Unseal(0)`. */
  predicate Unseal(k: int) {
    true
  }
}
