/** Ordered selection from a sequence, shared by the filters of the program. */
module Seqs {

  /** `a` is `b` with some elements left out, the rest kept in order. */
  predicate SubsequenceOf<T(==)>(a: seq<T>, b: seq<T>) {
    a == [] || (b != [] && ((a[0] == b[0] && SubsequenceOf(a[1..], b[1..])) || SubsequenceOf(a, b[1..])))
  }

  lemma {:induction false} SubsequenceOfSelf<T>(s: seq<T>)
    ensures SubsequenceOf(s, s)
  {
    if s != [] { SubsequenceOfSelf(s[1..]); }
  }

  /** Leaving elements out of a subsequence of `b` still gives a subsequence of `b`. */
  lemma {:induction false} SubsequenceTransitive<T>(a: seq<T>, b: seq<T>, c: seq<T>)
    requires SubsequenceOf(a, b) && SubsequenceOf(b, c)
    ensures SubsequenceOf(a, c)
    decreases |c|
  {
    if a == [] {
    } else if SubsequenceOf(b, c[1..]) {
      SubsequenceTransitive(a, b, c[1..]);
    } else if a[0] == b[0] && SubsequenceOf(a[1..], b[1..]) {
      SubsequenceTransitive(a[1..], b[1..], c[1..]);
    } else {
      SubsequenceTransitive(a, b[1..], c[1..]);
    }
  }

  /** Every slice is a subsequence. */
  lemma {:induction false} SliceIsSubsequence<T>(s: seq<T>, i: int, j: int)
    requires 0 <= i <= j <= |s|
    ensures SubsequenceOf(s[i..j], s)
    decreases |s|
  {
    if i == j {
    } else if i > 0 {
      SliceIsSubsequence(s[1..], i - 1, j - 1);
      assert s[1..][i - 1..j - 1] == s[i..j];
    } else {
      SliceIsSubsequence(s[1..], 0, j - 1);
      assert s[1..][..j - 1] == s[..j][1..];
    }
  }

  /** A slice of a subsequence of `b` is a subsequence of `b`. */
  lemma SliceOfSubsequence<T>(x: seq<T>, b: seq<T>, i: int, j: int)
    requires 0 <= i <= j <= |x| && SubsequenceOf(x, b)
    ensures SubsequenceOf(x[i..j], b)
  {
    SliceIsSubsequence(x, i, j);
    SubsequenceTransitive(x[i..j], x, b);
  }
}
