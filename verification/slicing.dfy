/** Python's prefix slice `xs[:n]`, including its treatment of a negative
    bound, which counts from the end of the list. */
module Slicing {

  /** The length of `xs[:n]` for a list of length `len`. */
  function PrefixLen(len: nat, n: int): nat {
    if n >= 0 then (if n < len then n else len)
    else if len + n > 0 then len + n
    else 0
  }

  /** `xs[:n]`. */
  function Take<T>(xs: seq<T>, n: int): seq<T> {
    xs[..PrefixLen(|xs|, n)]
  }

  /** For a non-negative bound the slice keeps exactly `min(n, |xs|)`
      leading elements; a negative bound drops `-n` trailing elements. */
  lemma TakeLength<T>(xs: seq<T>, n: int)
    ensures 0 <= n ==> |Take(xs, n)| == (if n < |xs| then n else |xs|)
    ensures n < 0 ==> |Take(xs, n)| == (if |xs| + n > 0 then |xs| + n else 0)
    ensures Take(xs, n) <= xs
  {
  }
}
