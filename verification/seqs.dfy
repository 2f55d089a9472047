/** Sequence facts shared by the pipeline stages. */
module Seqs {

  function Min(a: int, b: int): int {
    if a <= b then a else b
  }

  /** No element occurs twice. */
  predicate Distinct<T(==)>(s: seq<T>) {
    forall i, j :: 0 <= i < j < |s| ==> s[i] != s[j]
  }

  /** `a` is obtained from `b` by deleting some elements and keeping the order of the rest. */
  predicate IsSubsequence<T(==)>(a: seq<T>, b: seq<T>)
    decreases |b|
  {
    if |a| == 0 then true
    else if |b| == 0 then false
    else if a[0] == b[0] then IsSubsequence(a[1..], b[1..])
    else IsSubsequence(a, b[1..])
  }

  /** The first `n` elements, or all of them when there are fewer (pandas `head(n)`). */
  function Take<T>(s: seq<T>, n: nat): (r: seq<T>)
    ensures |r| == Min(n, |s|)
    ensures forall i :: 0 <= i < |r| ==> r[i] == s[i]
  {
    if n < |s| then s[..n] else s
  }

  lemma {:induction false} SubsequenceMembers<T>(a: seq<T>, b: seq<T>)
    requires IsSubsequence(a, b)
    ensures forall x :: x in a ==> x in b
    decreases |b|
  {
    if |a| == 0 {
    } else if a[0] == b[0] {
      SubsequenceMembers(a[1..], b[1..]);
      assert a == [a[0]] + a[1..];
    } else {
      SubsequenceMembers(a, b[1..]);
    }
  }

  /** A prefix of a subsequence is a subsequence. */
  lemma {:induction false} PrefixOfSubsequence<T>(a: seq<T>, b: seq<T>, n: nat)
    requires IsSubsequence(a, b)
    requires n <= |a|
    ensures IsSubsequence(a[..n], b)
    decreases |b|
  {
    if n == 0 {
    } else if a[0] == b[0] {
      PrefixOfSubsequence(a[1..], b[1..], n - 1);
      assert a[..n][1..] == a[1..][..n - 1];
    } else {
      PrefixOfSubsequence(a, b[1..], n);
    }
  }

  /** Moving the head of `ts` onto the end of `pre` does not change the concatenation. */
  lemma AppendHead<T>(pre: seq<T>, ts: seq<T>)
    requires |ts| > 0
    ensures pre + [ts[0]] + ts[1..] == pre + ts
  {
    assert ts == [ts[0]] + ts[1..];
  }

  /** Concatenation regroups. Named rather than asserted inline: the same equation asserted
      inside the order proofs sends the solver into sequence extensionality there. */
  lemma AppendAssoc<T>(a: seq<T>, b: seq<T>, c: seq<T>)
    ensures a + b + c == a + (b + c)
  {
  }

  /** The multiplicity of `x` in `ts` splits into the head and the tail. */
  lemma CountHead<T>(ts: seq<T>, x: T)
    requires |ts| > 0
    ensures multiset(ts)[x] == (if ts[0] == x then 1 else 0) + multiset(ts[1..])[x]
  {
    assert ts == [ts[0]] + ts[1..];
  }

  /** A non-empty sequence is its head followed by its tail. Named for the same reason as
      AppendAssoc: callers with large contexts use it instead of an inline equation. */
  lemma HeadTail<T>(t: seq<T>)
    requires |t| > 0
    ensures [t[0]] + t[1..] == t
  {
  }
}
