/** Counting over sequences, shared by the MILD counters, the layer-agreement metrics and
    the summary of masking errors. */
module Sequences {

  /** The number of entries of `s` equal to `v` (Python's `sum(x == v for x in s)`). */
  function Count<T(==)>(s: seq<T>, v: T): (n: nat)
    ensures n <= |s|
  {
    if s == [] then 0 else (if s[0] == v then 1 else 0) + Count(s[1..], v)
  }

  /** The count is zero exactly when `v` does not occur. */
  lemma {:induction false} CountZero<T>(s: seq<T>, v: T)
    ensures Count(s, v) == 0 <==> v !in s
  {
    if s != [] {
      CountZero(s[1..], v);
      assert v in s <==> s[0] == v || v in s[1..];
    }
  }

  /** Appending one entry adds one to the count exactly when the entry is `v`. */
  lemma {:induction false} CountAppend<T>(s: seq<T>, x: T, v: T)
    ensures Count(s + [x], v) == Count(s, v) + (if x == v then 1 else 0)
  {
    if s != [] {
      assert (s + [x])[1..] == s[1..] + [x];
      CountAppend(s[1..], x, v);
    } else {
      assert s + [x] == [x];
    }
  }
}
