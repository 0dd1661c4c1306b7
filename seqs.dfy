/** Order-preserving selection from a sequence. */
module Seqs {

  /** `a` is obtained from `b` by deleting elements, the rest keeping their order. */
  predicate Subseq<T(==)>(a: seq<T>, b: seq<T>)
    decreases |b|
  {
    if a == [] then true
    else if b == [] then false
    else if a[|a| - 1] == b[|b| - 1] then Subseq(a[..|a| - 1], b[..|b| - 1])
    else Subseq(a, b[..|b| - 1])
  }

  /** Deleting the last kept element still leaves a subsequence. */
  lemma {:induction false} SubseqDropLast<T>(a: seq<T>, b: seq<T>)
    requires a != [] && Subseq(a, b)
    ensures Subseq(a[..|a| - 1], b)
    decreases |b|
  {
    var a', b' := a[..|a| - 1], b[..|b| - 1];
    if a' != [] {
      if a[|a| - 1] == b[|b| - 1] {
        // Subseq(a', b') holds
        if a'[|a'| - 1] == b[|b| - 1] {
          SubseqDropLast(a', b');
        }
      } else {
        SubseqDropLast(a, b');
        if a'[|a'| - 1] == b[|b| - 1] {
          SubseqDropLast(a', b');
        }
      }
    }
  }

  /** An element appended to the source alone may be deleted. */
  lemma SubseqSkip<T>(a: seq<T>, b: seq<T>, y: T)
    requires Subseq(a, b)
    ensures Subseq(a, b + [y])
  {
    assert (b + [y])[..|b|] == b;
    if a != [] && a[|a| - 1] == y {
      SubseqDropLast(a, b);
    }
  }

  /** An element appended to both is kept. */
  lemma SubseqKeep<T>(a: seq<T>, b: seq<T>, y: T)
    requires Subseq(a, b)
    ensures Subseq(a + [y], b + [y])
  {
    assert (a + [y])[..|a|] == a;
    assert (b + [y])[..|b|] == b;
  }
}
