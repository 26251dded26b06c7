/** Values shared by every script: optional values, the outcome of a call that
    may raise, raw bytes, and the "first k, then '... and n more'" preview that
    the diagnostic scripts print. */
module Basics {

  datatype Option<T> = None | Some(value: T)

  /** The result of a storage or imaging call: its value, or the exception it raised. */
  datatype Outcome<T> = Ok(value: T) | Raised

  type Bytes = seq<bv8>

  /** What a script prints of a long list: the first `k` items and, when the list
      is longer, how many were left out. */
  datatype Preview<T> = Preview(shown: seq<T>, more: Option<nat>)

  /** The slice `s[:n]`. */
  function Take<T>(s: seq<T>, n: nat): (r: seq<T>)
    ensures r <= s
    ensures |r| == if |s| <= n then |s| else n
  {
    if |s| <= n then s else s[..n]
  }

  function Truncate<T>(s: seq<T>, k: nat): (p: Preview<T>)
    ensures p.shown == Take(s, k)
    ensures p.more.Some? <==> |s| > k
    ensures p.more.Some? ==> |p.shown| + p.more.value == |s|
  {
    if |s| > k then Preview(s[..k], Some(|s| - k)) else Preview(s, None)
  }

  function Front<T>(s: seq<T>): seq<T>
    requires s != []
  {
    s[..|s| - 1]
  }

  function Last<T>(s: seq<T>): T
    requires s != []
  {
    s[|s| - 1]
  }

  predicate Distinct<T(==)>(s: seq<T>) {
    forall i, j :: 0 <= i < j < |s| ==> s[i] != s[j]
  }

  /** `sub` is `s` with some elements dropped, order kept. */
  predicate Subsequence<T(==)>(sub: seq<T>, s: seq<T>)
    decreases |s|
  {
    sub == [] || (s != [] && if Last(sub) == Last(s) then Subsequence(Front(sub), Front(s)) else Subsequence(sub, Front(s)))
  }

  /** Appending to the longer sequence, or to both, keeps a subsequence a subsequence. */
  lemma {:induction false} SubsequenceExtend<T>(sub: seq<T>, s: seq<T>, x: T)
    requires Subsequence(sub, s)
    ensures Subsequence(sub, s + [x]) && Subsequence(sub + [x], s + [x])
    decreases |s| + 1, 0
  {
    assert Front(s + [x]) == s && Last(s + [x]) == x;
    assert Front(sub + [x]) == sub && Last(sub + [x]) == x;
    if sub != [] && Last(sub) == x {
      SubsequenceFront(sub, s);
    }
  }

  lemma {:induction false} SubsequenceFront<T>(sub: seq<T>, s: seq<T>)
    requires sub != [] && Subsequence(sub, s)
    ensures Subsequence(Front(sub), s)
    decreases |s|, 1
  {
    assert s != [];
    assert s == Front(s) + [Last(s)];
    if Last(sub) == Last(s) {
      SubsequenceExtend(Front(sub), Front(s), Last(s));
    } else {
      SubsequenceFront(sub, Front(s));
      SubsequenceExtend(Front(sub), Front(s), Last(s));
    }
  }

  /** `reversed(s)`. */
  function Reversed<T>(s: seq<T>): (r: seq<T>)
    ensures |r| == |s|
  {
    if s == [] then [] else [Last(s)] + Reversed(Front(s))
  }

  /** Position `i` of the reversed sequence is position `|s| - 1 - i` of the original. */
  lemma {:induction false} ReversedAt<T>(s: seq<T>)
    ensures forall i :: 0 <= i < |s| ==> Reversed(s)[i] == s[|s| - 1 - i]
  {
    if s != [] {
      ReversedAt(Front(s));
    }
  }
}
