/** Two facts about sequence concatenation that the proofs over listings and calls
    share. */
module Seqs {
  import opened Wrappers

  /** Regrouping a concatenation. */
  lemma ConcatAssoc<T>(a: seq<T>, b: seq<T>, c: seq<T>)
    ensures (a + b) + c == a + (b + c)
  {
  }

  /** Dropping the last element of a concatenation drops it from its second part. */
  lemma ConcatFront<T>(xs: seq<T>, ys: seq<T>)
    requires ys != []
    ensures var zs := xs + ys;
            zs[..|zs| - 1] == xs + ys[..|ys| - 1] && zs[|zs| - 1] == ys[|ys| - 1]
  {
  }

  /** The last element of `xs` that passes `p`, if any. */
  function LastWhere<T>(xs: seq<T>, p: T -> bool): Option<T> {
    if xs == [] then None
    else if p(xs[|xs| - 1]) then Some(xs[|xs| - 1])
    else LastWhere(xs[..|xs| - 1], p)
  }

  /** `LastWhere` is none exactly when no element passes. */
  lemma {:induction false} LastWhereNone<T>(xs: seq<T>, p: T -> bool)
    ensures LastWhere(xs, p).None? <==> forall j :: 0 <= j < |xs| ==> !p(xs[j])
  {
    if xs != [] {
      var n := |xs| - 1;
      LastWhereNone(xs[..n], p);
      assert forall j :: 0 <= j < n ==> xs[..n][j] == xs[j];
    }
  }

  /** An element that passes, with no element after it passing, is `LastWhere`. */
  lemma {:induction false} LastWhereAt<T>(xs: seq<T>, p: T -> bool, i: nat)
    requires i < |xs| && p(xs[i])
    requires forall j :: i < j < |xs| ==> !p(xs[j])
    ensures LastWhere(xs, p) == Some(xs[i])
  {
    var n := |xs| - 1;
    if i < n {
      var front := xs[..n];
      assert front[i] == xs[i];
      assert forall j :: i < j < n ==> front[j] == xs[j];
      LastWhereAt(front, p, i);
    }
  }
}
