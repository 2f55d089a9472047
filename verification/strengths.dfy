/** categorize_strengths (backend/app.py:75-78): tags whose accuracy is above 0.55 are
    strengths, tags whose accuracy is below 0.40 are weaknesses. */
module Strengths {
  import opened Wrappers
  import opened Types
  import opened Seqs
  import opened Accuracy

  /** Accuracy above 0.55, as solved / attempted > 11 / 20 cross-multiplied. */
  predicate IsStrong(c: Tally) {
    20 * c.solved > 11 * c.attempted
  }

  /** Accuracy below 0.40, as solved / attempted < 2 / 5 cross-multiplied. */
  predicate IsWeak(c: Tally) {
    5 * c.solved < 2 * c.attempted
  }

  datatype Band = Strong | Weak

  predicate InBand(c: Tally, b: Band) {
    match b
    case Strong => IsStrong(c)
    case Weak => IsWeak(c)
  }

  /** The keys of `order`, in that order, whose tally falls in band `b` (one list comprehension). */
  function TagsIn(order: seq<Tag>, a: AccuracyMap, b: Band): (r: seq<Tag>)
    ensures forall t :: t in r <==> t in order && InBand(Get(a, t), b)
    ensures IsSubsequence(r, order)
  {
    if |order| == 0 then []
    else if InBand(Get(a, order[0]), b) then [order[0]] + TagsIn(order[1..], a, b)
    else TagsIn(order[1..], a, b)
  }

  /** The pair (strong_tags, weak_tags) of line 78. */
  function CategorizeStrengths(a: AccuracyMap): (r: (seq<Tag>, seq<Tag>))
    ensures forall t :: t in r.0 <==> t in a.order && IsStrong(Get(a, t))
    ensures forall t :: t in r.1 <==> t in a.order && IsWeak(Get(a, t))
    ensures IsSubsequence(r.0, a.order) && IsSubsequence(r.1, a.order)
    ensures forall t :: t in r.0 ==> t !in r.1
  {
    (TagsIn(a.order, a, Strong), TagsIn(a.order, a, Weak))
  }

  /** On a computed accuracy dictionary the two lists are read off its tallies. */
  lemma CategorizeComputed(subs: seq<Submission>)
    ensures var a := CalculateAccuracy(subs);
      && (forall t :: t in CategorizeStrengths(a).0 <==> t in a.tally && IsStrong(a.tally[t]))
      && (forall t :: t in CategorizeStrengths(a).1 <==> t in a.tally && IsWeak(a.tally[t]))
  {
  }

  /** The integer thresholds are the ratio comparisons of lines 76-77, computed exactly. */
  lemma ThresholdsMatchRatio(c: Tally)
    requires c.attempted > 0
    ensures IsStrong(c) <==> Ratio(c) > 0.55
    ensures IsWeak(c) <==> Ratio(c) < 0.40
  {
    DivCompare(c.solved as real, c.attempted as real, 0.55);
    DivCompare(c.solved as real, c.attempted as real, 0.40);
  }

  /** A tag whose accuracy lies in [0.40, 0.55] is listed in neither band. */
  lemma MiddleBandInNeither(a: AccuracyMap, t: Tag)
    requires t in a.tally && a.tally[t].attempted > 0
    requires 0.40 <= Ratio(a.tally[t]) <= 0.55
    ensures t !in CategorizeStrengths(a).0 && t !in CategorizeStrengths(a).1
  {
    ThresholdsMatchRatio(a.tally[t]);
  }

  /** The worked example: one accepted and one rejected "dp" attempt give accuracy 1/2,
      which is neither a strength nor a weakness. */
  lemma HalfSolvedIsNeutral()
    ensures var subs := [
        Submission(Some(1), "A", "P", Parsed(["dp"]), Some(1200), "OK", 0),
        Submission(Some(1), "A", "P", Parsed(["dp"]), Some(1200), "WRONG_ANSWER", 1)];
      && CalculateAccuracy(subs).tally == map["dp" := Tally(1, 2)]
      && CategorizeStrengths(CalculateAccuracy(subs)) == ([], [])
  {
    var subs := [
        Submission(Some(1), "A", "P", Parsed(["dp"]), Some(1200), "OK", 0),
        Submission(Some(1), "A", "P", Parsed(["dp"]), Some(1200), "WRONG_ANSWER", 1)];
    assert subs[1..][1..] == [];
    assert Attempts(subs, "dp") == 2 && Solves(subs, "dp") == 1;
    var a := CalculateAccuracy(subs);
    TallyOf(subs, "dp");
    forall t | t != "dp" ensures t !in a.tally {
      assert Attempts(subs, t) == 0;
    }

  }
}
