/** The two candidate buckets of recommend_problems (backend/app.py:95-105): problems at the
    user's anchor rating carrying a weak tag, and problems 100 or 200 above it carrying a strong
    tag, each cut to the first five in similarity order. */
module Buckets {
  import opened Types
  import opened Seqs
  import opened Ranking

  /** Rows kept per bucket (`head(5)`). */
  const BucketSize: nat := 5

  /** What a bucket asks of a problem. */
  datatype Criterion =
    | WeakFor(weakTags: seq<Tag>, mode: int)
    | StrongFor(strongTags: seq<Tag>, mode: int)

  /** Some tag in `tags` is also in `wanted` (lines 98 and 104). */
  predicate HasAnyTag(tags: seq<Tag>, wanted: seq<Tag>) {
    exists t :: t in tags && t in wanted
  }

  predicate Admits(c: Criterion, p: Problem) {
    match c
    case WeakFor(weakTags, mode) =>
      p.rating == mode && HasAnyTag(p.tags, weakTags)
    case StrongFor(strongTags, mode) =>
      (p.rating == mode + 100 || p.rating == mode + 200) && HasAnyTag(p.tags, strongTags)
  }

  /** The tags a criterion looks for. */
  function Wanted(c: Criterion): seq<Tag> {
    match c
    case WeakFor(weakTags, _) => weakTags
    case StrongFor(strongTags, _) => strongTags
  }

  /** The boolean-mask selection: the admitted rows, in their ranked order. */
  function Candidates(ranked: seq<Scored>, c: Criterion): (r: seq<Scored>)
    ensures forall x :: x in r <==> x in ranked && Admits(c, x.problem)
    ensures IsSubsequence(r, ranked)
  {
    if |ranked| == 0 then []
    else if Admits(c, ranked[0].problem) then [ranked[0]] + Candidates(ranked[1..], c)
    else Candidates(ranked[1..], c)
  }

  /** The mask keeps every copy of an admitted row and no copy of any other row. */
  lemma {:induction false} CandidatesKeepEveryCopy(ranked: seq<Scored>, c: Criterion, x: Scored)
    ensures multiset(Candidates(ranked, c))[x] == if Admits(c, x.problem) then multiset(ranked)[x] else 0
  {
    if |ranked| > 0 {
      CandidatesKeepEveryCopy(ranked[1..], c, x);
      CountHead(ranked, x);
      var rest := Candidates(ranked[1..], c);
      if Admits(c, ranked[0].problem) {
        CountHead([ranked[0]] + rest, x);
        assert ([ranked[0]] + rest)[1..] == rest;
      }
    }
  }

  lemma {:induction false} CandidatesDescending(ranked: seq<Scored>, c: Criterion)
    requires Descending(ranked)
    ensures Descending(Candidates(ranked, c))
  {
    if |ranked| > 0 {
      CandidatesDescending(ranked[1..], c);
      var rest := Candidates(ranked[1..], c);
      assert forall y :: y in rest ==> y in ranked[1..];
    }
  }

  /** With no tag to look for, nothing is admitted. */
  lemma EmptyWantedNoCandidates(ranked: seq<Scored>, c: Criterion)
    ensures |Wanted(c)| == 0 ==> Candidates(ranked, c) == []
  {
  }

  /** A bucket: the first BucketSize admitted rows. */
  function Bucket(ranked: seq<Scored>, c: Criterion): (r: seq<Scored>)
    ensures |r| == Min(BucketSize, |Candidates(ranked, c)|)
    // exactly the first |r| admitted rows, in ranked order, ties at the cut included
    ensures r == Candidates(ranked, c)[..|r|]
    ensures forall x :: x in r ==> x in ranked && Admits(c, x.problem)
    ensures IsSubsequence(r, ranked)
    // fewer than five rows only when every admitted row was taken
    ensures |r| < BucketSize ==> forall x :: x in ranked && Admits(c, x.problem) ==> x in r
    // in a descending ranking no admitted row left out is more similar than a chosen one
    ensures Descending(ranked) ==>
      forall x, y :: x in ranked && Admits(c, x.problem) && x !in r && y in r ==> x.similarity <= y.similarity
  {
    var cands := Candidates(ranked, c);
    var r := Take(cands, BucketSize);
    PrefixOfSubsequence(cands, ranked, |r|);
    assert r == cands[..|r|];
    SubsequenceMembers(r, ranked);
    TopOfDescending(ranked, c, r);
    r
  }

  /** Cutting a descending ranking's candidates to a prefix leaves out nothing more similar. */
  lemma TopOfDescending(ranked: seq<Scored>, c: Criterion, r: seq<Scored>)
    requires |r| <= |Candidates(ranked, c)| && r == Candidates(ranked, c)[..|r|]
    ensures Descending(ranked) ==>
      forall x, y :: x in ranked && Admits(c, x.problem) && x !in r && y in r ==> x.similarity <= y.similarity
  {
    var cands := Candidates(ranked, c);
    if Descending(ranked) {
      CandidatesDescending(ranked, c);
      forall x, y | x in ranked && Admits(c, x.problem) && x !in r && y in r
        ensures x.similarity <= y.similarity
      {
        var k :| 0 <= k < |cands| && cands[k] == x;
        var i :| 0 <= i < |r| && r[i] == y;
        assert i < k;
      }
    }
  }

  /** The weak bucket of lines 96-99. */
  function WeakBucket(ranked: seq<Scored>, weakTags: seq<Tag>, mode: int): (r: seq<Scored>)
    ensures |r| <= BucketSize
    ensures forall x :: x in r ==> x in ranked && x.problem.rating == mode && HasAnyTag(x.problem.tags, weakTags)
    ensures |weakTags| == 0 ==> r == []
  {
    EmptyWantedNoCandidates(ranked, WeakFor(weakTags, mode));
    Bucket(ranked, WeakFor(weakTags, mode))
  }

  /** The strong bucket of lines 102-105. */
  function StrongBucket(ranked: seq<Scored>, strongTags: seq<Tag>, mode: int): (r: seq<Scored>)
    ensures |r| <= BucketSize
    ensures forall x :: x in r ==>
      x in ranked && x.problem.rating in {mode + 100, mode + 200} && HasAnyTag(x.problem.tags, strongTags)
    ensures |strongTags| == 0 ==> r == []
  {
    EmptyWantedNoCandidates(ranked, StrongFor(strongTags, mode));
    Bucket(ranked, StrongFor(strongTags, mode))
  }

  /** No row is in both buckets: their rating windows do not meet. */
  lemma BucketsDisjoint(ranked: seq<Scored>, weakTags: seq<Tag>, strongTags: seq<Tag>, mode: int)
    ensures forall x :: x in WeakBucket(ranked, weakTags, mode) ==> x !in StrongBucket(ranked, strongTags, mode)
  {
  }
}
