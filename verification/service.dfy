/** The recommend route of backend/app.py:119-140 once the handle is known to exist: the
    stages chained on one user's submissions and the scored catalog. */
module Service {
  import opened Wrappers
  import opened Types
  import opened Accuracy
  import opened Strengths
  import opened Buckets
  import opened Recommender
  import opened Mode

  datatype RequestError =
    | NoSubmissions     // the 404 of line 121
    | UnknownAnchor     // line 131 raises: int() of the "Unknown" placeholder
    | MalformedTagList  // line 85 re-parses the tag text outside any try and raises

  /** The JSON body of lines 135-140. */
  datatype Recommendation = Recommendation(
    modeRating: int,
    strongTopics: seq<Tag>,
    weakTopics: seq<Tag>,
    recommendations: seq<Scored>)

  predicate HasMalformedRow(subs: seq<Submission>) {
    exists i :: 0 <= i < |subs| && subs[i].tags.Malformed?
  }

  /** The route's outcome. The stages fail in source order: the empty history first (line 121),
      then the anchor rating (line 131), and only then the tag re-parse inside
      recommend_problems (line 85); calculate_accuracy itself never fails. */
  function Recommend(subs: seq<Submission>, scored: seq<Scored>, rand: seq<nat>): (r: Result<Recommendation, RequestError>)
    ensures r == Failure(NoSubmissions) <==> |subs| == 0
    ensures r == Failure(UnknownAnchor) <==> |subs| > 0 && ModeAsWritten(subs).Failure?
    ensures r == Failure(MalformedTagList)
        <==> |subs| > 0 && ModeAsWritten(subs).Success? && HasMalformedRow(subs)
    ensures r.Success? ==>
      var a := CalculateAccuracy(subs);
      var out := r.value;
      && (forall t :: t in out.strongTopics <==> t in a.tally && IsStrong(a.tally[t]))
      && (forall t :: t in out.weakTopics <==> t in a.tally && IsWeak(a.tally[t]))
      && ModeAsWritten(subs) == Success(out.modeRating)
      && out.modeRating == ModeRating(subs)
      && |out.recommendations| <= 2 * BucketSize
      && (forall x :: x in out.recommendations ==>
            && x in scored
            && (|| (x.problem.rating == out.modeRating && HasAnyTag(x.problem.tags, out.weakTopics))
                || (x.problem.rating in {out.modeRating + 100, out.modeRating + 200}
                    && HasAnyTag(x.problem.tags, out.strongTopics))))
  {
    if |subs| == 0 then Failure(NoSubmissions)
    else
      var a := CalculateAccuracy(subs);
      var tags := CategorizeStrengths(a);
      CategorizeComputed(subs);
      AsWrittenAgreesWhenItReturns(subs);
      match ModeAsWritten(subs)
      case Failure(_) => Failure(UnknownAnchor)
      case Success(mode) =>
        if HasMalformedRow(subs) then Failure(MalformedTagList)
        else Success(Recommendation(mode, tags.0, tags.1, RecommendProblems(scored, tags.1, tags.0, mode, rand)))
  }

  /** A user whose only accepted row has an unknown rating gets the line-131 error, even when
      another row's tag list is malformed, since line 131 runs before line 85. */
  lemma UnknownAnchorComesFirst(scored: seq<Scored>, rand: seq<nat>)
    ensures var ok := Submission(Some(1), "A", "P", Parsed(["dp"]), None, "OK", 0);
      && Recommend([ok], scored, rand) == Failure(UnknownAnchor)
      && Recommend([ok, ok.(tags := Malformed, verdict := "WRONG_ANSWER")], scored, rand) == Failure(UnknownAnchor)
  {
    var ok := Submission(Some(1), "A", "P", Parsed(["dp"]), None, "OK", 0);
    var bad := ok.(tags := Malformed, verdict := "WRONG_ANSWER");
    assert SolvedRatings([ok]) == [None];
    assert SolvedRatings([ok, bad]) == [None] by {
      assert [ok, bad][1..] == [bad];
      assert SolvedRatings([bad]) == [];
    }
  }
}
