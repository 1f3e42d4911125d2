/** Small facts about sequences, stated once so the proofs that need them
    stay short. */
module SeqFacts {
  lemma Assoc<X>(a: seq<X>, b: seq<X>, c: seq<X>)
    ensures (a + b) + c == a + (b + c)
  {
  }

  lemma PrefixOfJoin<X>(a: seq<X>, b: seq<X>, c: seq<X>)
    requires a + b == c
    ensures a <= c
  {
    assert c[..|a|] == a;
  }

  lemma SplitAround<X>(s: seq<X>, i: nat)
    requires i < |s|
    ensures s == (s[..i] + [s[i]]) + s[i + 1..]
  {
  }

  lemma IndexAfterPrefix<X>(a: seq<X>, b: seq<X>, c: seq<X>, j: nat)
    requires j < |b|
    ensures |a| + j < |(a + b) + c| && ((a + b) + c)[|a| + j] == b[j]
  {
  }

  /** Taking `k` items is taking the head and then `k - 1` from the tail. */
  lemma TakeAfterHead<X>(s: seq<X>, k: nat)
    requires 1 <= k <= |s|
    ensures [s[0]] + s[1..][..k - 1] == s[..k] && s[1..][k - 1..] == s[k..]
  {
  }
}
