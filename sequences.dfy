/** Subsequences: what a JavaScript `Array.prototype.filter` returns relative to its input. */
module Subsequences {

  /** `a` is obtained from `b` by deleting elements: nothing is added and order is kept. */
  ghost predicate IsSubsequence<T>(a: seq<T>, b: seq<T>)
    decreases |b|
  {
    if a == [] then true
    else if b == [] then false
    else (a[0] == b[0] && IsSubsequence(a[1..], b[1..])) || IsSubsequence(a, b[1..])
  }
}
