/** recommend_problems (backend/app.py:81-108): rank the catalog by similarity, take the weak
    and strong buckets, concatenate them and shuffle the result. */
module Recommender {
  import opened Types
  import opened Seqs
  import opened Ranking
  import opened Buckets

  /** `s` with position `k` removed: one copy of `s[k]` fewer. */
  function Without(s: seq<Scored>, k: nat): (r: seq<Scored>)
    requires k < |s|
    ensures multiset(r) == multiset(s) - multiset{s[k]}
    ensures |r| == |s| - 1
  {
    assert s == s[..k] + [s[k]] + s[k + 1..];
    s[..k] + s[k + 1..]
  }

  /** The position drawn from `n` remaining rows: the next random choice, or 0 when the
      choices have run out or the choice is out of range. */
  function Pick(rand: seq<nat>, n: nat): (k: nat)
    requires n > 0
    ensures k < n
  {
    if |rand| > 0 && rand[0] < n then rand[0] else 0
  }

  /** The random choices left after one draw. */
  function Rest(rand: seq<nat>): seq<nat> {
    if |rand| > 0 then rand[1..] else []
  }

  /** `sample(frac=1)` with its randomness made an input: each step moves the row at the picked
      position of those not yet drawn to the output. */
  function Shuffle(s: seq<Scored>, rand: seq<nat>): (r: seq<Scored>)
    ensures multiset(r) == multiset(s)
    decreases |s|
  {
    if |s| == 0 then []
    else
      var k := Pick(rand, |s|);
      [s[k]] + Shuffle(Without(s, k), Rest(rand))
  }

  /** Choosing position `k` first draws `s[k]` and shuffles the rest. */
  lemma ShuffleFirst(s: seq<Scored>, k: nat, rand: seq<nat>)
    requires k < |s|
    ensures Shuffle(s, [k] + rand) == [s[k]] + Shuffle(Without(s, k), rand)
  {
    var rk: seq<nat> := [k] + rand;
    assert Pick(rk, |s|) == k;
    assert Rest(rk) == rand;
  }

  /** The random choices under which Shuffle turns `s` into its permutation `t`. */
  lemma {:induction false} ChoicesFor(s: seq<Scored>, t: seq<Scored>) returns (rand: seq<nat>)
    requires multiset(s) == multiset(t)
    ensures Shuffle(s, rand) == t
    decreases |s|
  {
    if |s| == 0 {
      assert |t| == 0;
      rand := [];
    } else {
      assert |t| == |s| by {
        assert |multiset(t)| == |multiset(s)|;
      }
      assert t[0] in multiset(s);
      var k: nat :| k < |s| && s[k] == t[0];
      HeadTail(t);
      assert multiset(t[1..]) == multiset(t) - multiset{t[0]} by {
        assert multiset(t) == multiset([t[0]]) + multiset(t[1..]);
      }
      var rest := ChoicesFor(Without(s, k), t[1..]);
      ShuffleFirst(s, k, rest);
      rand := [k] + rest;
    }
  }

  /** Shuffle can produce every permutation: the output relation is exactly "some permutation". */
  lemma ShuffleReachesEveryPermutation(s: seq<Scored>, t: seq<Scored>)
    requires multiset(s) == multiset(t)
    ensures exists rand :: Shuffle(s, rand) == t
  {
    var rand := ChoicesFor(s, t);
  }

  /** The concatenation of line 107: the weak bucket followed by the strong one,
      both taken from the same similarity ranking. */
  function Selected(scored: seq<Scored>, weakTags: seq<Tag>, strongTags: seq<Tag>, mode: int): (r: seq<Scored>)
    ensures |r| <= 2 * BucketSize
    ensures forall x :: x in r ==>
      && x in scored
      && (|| (x.problem.rating == mode && HasAnyTag(x.problem.tags, weakTags))
          || (x.problem.rating in {mode + 100, mode + 200} && HasAnyTag(x.problem.tags, strongTags)))
  {
    var ranked := RankBySimilarity(scored);
    assert forall x :: x in ranked ==> x in scored by {
      forall x | x in ranked ensures x in scored {
        assert x in multiset(ranked);
      }
    }
    WeakBucket(ranked, weakTags, mode) + StrongBucket(ranked, strongTags, mode)
  }

  /** The recommendations: a shuffle of the selected rows. */
  function RecommendProblems(scored: seq<Scored>, weakTags: seq<Tag>, strongTags: seq<Tag>,
                             mode: int, rand: seq<nat>): (r: seq<Scored>)
    ensures |r| <= 2 * BucketSize
    ensures multiset(r) == multiset(Selected(scored, weakTags, strongTags, mode))
    ensures forall x :: x in r ==>
      && x in scored
      && (|| (x.problem.rating == mode && HasAnyTag(x.problem.tags, weakTags))
          || (x.problem.rating in {mode + 100, mode + 200} && HasAnyTag(x.problem.tags, strongTags)))
    ensures |weakTags| == 0 ==> forall x :: x in r ==> x.problem.rating in {mode + 100, mode + 200}
    ensures |strongTags| == 0 ==> forall x :: x in r ==> x.problem.rating == mode
  {
    var both := Selected(scored, weakTags, strongTags, mode);
    var r := Shuffle(both, rand);
    assert |r| == |both| by {
      assert |multiset(r)| == |multiset(both)|;
    }
    assert forall x :: x in r ==> x in both by {
      forall x | x in r ensures x in both {
        assert x in multiset(r);
      }
    }
    r
  }
}
