/** Facts about sequences in general, used by the proofs about strings and lists of segments. */
module Sequences {
  /** Cutting a sequence in two and joining the halves gives it back. */
  lemma SliceJoin<T>(s: seq<T>, k: nat)
    requires k <= |s|
    ensures s[..k] + s[k..] == s
  {
  }

  /** A list that agrees with `a` and then ends in `x` is `a + [x]`. */
  lemma SnocEq<T>(a: seq<T>, x: T, b: seq<T>)
    requires |b| == |a| + 1 && b[|a|] == x
    requires forall k :: 0 <= k < |a| ==> b[k] == a[k]
    ensures b == a + [x]
  {
  }

  /** Concatenation is associative. */
  lemma ConcatAssoc<T>(a: seq<T>, b: seq<T>, c: seq<T>)
    ensures a + (b + c) == a + b + c
  {
  }
}
