/** Facts about sequences that several components share. */
module Sequences {

  ghost predicate NoDuplicates<T>(s: seq<T>) {
    forall i, j :: 0 <= i < j < |s| ==> s[i] != s[j]
  }

  /** What is left in a window of `n` entries that drops its oldest one when full. */
  function Latest<T>(s: seq<T>, n: nat): seq<T> {
    if |s| <= n then s else s[|s| - n..]
  }

  lemma LatestAppend<T>(s: seq<T>, x: T, n: nat)
    requires n > 0
    ensures Latest(s + [x], n) == (if |Latest(s, n)| >= n then Latest(s, n)[1..] else Latest(s, n)) + [x]
  {}

  lemma AppendMoves<T>(a: seq<T>, b: seq<T>, c: seq<T>)
    ensures (a + b) + c == a + (b + c)
  {}

  lemma FrontAndLast<T>(s: seq<T>)
    requires s != []
    ensures s == s[..|s| - 1] + [s[|s| - 1]]
  {}

  lemma SplitInThree<T>(s: seq<T>, lo: nat, hi: nat)
    requires lo <= hi <= |s|
    ensures s == s[..lo] + (s[lo..hi] + s[hi..])
  {}

  lemma SliceOfTail<T>(s: seq<T>, from: nat, lo: nat, hi: nat)
    requires from <= lo <= hi <= |s|
    ensures s[from..][lo - from..hi - from] == s[lo..hi]
  {}

  /** A name that is `k` letters longer. */
  function Longer(name: string, k: nat): (longer: string)
    ensures |longer| == |name| + k
  {
    name + seq(k, i => 'x')
  }

  lemma LongerIsInjective(name: string, j: nat, k: nat)
    ensures Longer(name, j) == Longer(name, k) ==> j == k
  {
    assert |Longer(name, j)| == |name| + j && |Longer(name, k)| == |name| + k;
  }
}
