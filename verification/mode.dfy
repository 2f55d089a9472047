/** The anchor difficulty of backend/app.py:126-131: the most frequent rating among the
    user's accepted submissions, or 0 when there is none. */
module Mode {
  import opened Wrappers
  import opened Types

  /** A submission's rating; None is the "Unknown" placeholder string. */
  type Rating = Option<int>

  /** The order pandas sorts a list of modes in: integers ascending, then the string "Unknown". */
  predicate RatingBefore(a: Rating, b: Rating) {
    match (a, b)
    case (Some(x), Some(y)) => x <= y
    case (Some(_), None) => true
    case (None, Some(_)) => false
    case (None, None) => true
  }

  /** How often `v` occurs in `xs`. */
  function Freq(xs: seq<Rating>, v: Rating): nat {
    multiset(xs)[v]
  }

  /** `a` is at least as frequent in `xs` as `b`, and sorts no later when equally frequent. */
  predicate Beats(xs: seq<Rating>, a: Rating, b: Rating) {
    Freq(xs, a) > Freq(xs, b) || (Freq(xs, a) == Freq(xs, b) && RatingBefore(a, b))
  }

  /** The candidate that beats every other candidate. */
  function ModeAmong(xs: seq<Rating>, cands: seq<Rating>): (r: Rating)
    requires |cands| > 0
    ensures r in cands
    ensures forall y :: y in cands ==> Beats(xs, r, y)
  {
    if |cands| == 1 then cands[0]
    else
      var rest := ModeAmong(xs, cands[1..]);
      assert cands == [cands[0]] + cands[1..];
      if Beats(xs, cands[0], rest) then cands[0] else rest
  }

  /** `mode()[0]`: the first of the most frequent values once pandas has sorted them. */
  function Mode(xs: seq<Rating>): (r: Rating)
    requires |xs| > 0
    ensures r in xs
    ensures forall y :: y in xs ==> Beats(xs, r, y)
  {
    ModeAmong(xs, xs)
  }

  /** Two values that each beat the other are the same value. */
  lemma BeatsAntisymmetric(xs: seq<Rating>, a: Rating, b: Rating)
    requires Beats(xs, a, b) && Beats(xs, b, a)
    ensures a == b
  {
  }

  /** The ratings of the accepted rows, in row order: the column whose mode line 127 takes. */
  function SolvedRatings(subs: seq<Submission>): seq<Rating> {
    if |subs| == 0 then []
    else (if Solved(subs[0]) then [subs[0].rating] else []) + SolvedRatings(subs[1..])
  }

  /** The known ratings of `xs`, in order. */
  function Known(xs: seq<Rating>): (r: seq<Rating>)
    ensures forall v :: v in r <==> v in xs && v.Some?
  {
    if |xs| == 0 then []
    else (if xs[0].Some? then [xs[0]] else []) + Known(xs[1..])
  }

  lemma {:induction false} KnownKeepsCounts(xs: seq<Rating>, v: Rating)
    requires v.Some?
    ensures Freq(Known(xs), v) == Freq(xs, v)
  {
    if |xs| > 0 {
      KnownKeepsCounts(xs[1..], v);
      assert xs == [xs[0]] + xs[1..];
    }
  }

  /** How many accepted rows have rating `v`. */
  function SolvedCount(subs: seq<Submission>, v: int): nat {
    Freq(SolvedRatings(subs), Some(v))
  }

  lemma {:induction false} SolvedRatingsMembers(subs: seq<Submission>, v: Rating)
    ensures v in SolvedRatings(subs) <==> exists i :: 0 <= i < |subs| && Solved(subs[i]) && subs[i].rating == v
  {
    if |subs| > 0 {
      SolvedRatingsMembers(subs[1..], v);
      if v in SolvedRatings(subs[1..]) {
        var i :| 0 <= i < |subs[1..]| && Solved(subs[1..][i]) && subs[1..][i].rating == v;
        assert subs[i + 1] == subs[1..][i];
      }
      if exists i :: 1 <= i < |subs| && Solved(subs[i]) && subs[i].rating == v {
        var i :| 1 <= i < |subs| && Solved(subs[i]) && subs[i].rating == v;
        assert subs[1..][i - 1] == subs[i];
      }
    }
  }

  /** The anchor rating, with "Unknown" treated as missing: the most frequent known rating of an
      accepted row, the smallest such when several tie, and 0 when no accepted row has a rating. */
  function ModeRating(subs: seq<Submission>): (r: int)
    ensures (forall i :: 0 <= i < |subs| && Solved(subs[i]) ==> subs[i].rating.None?) ==> r == 0
    ensures (exists i :: 0 <= i < |subs| && Solved(subs[i]) && subs[i].rating.Some?) ==>
      && (exists i :: 0 <= i < |subs| && Solved(subs[i]) && subs[i].rating == Some(r))
      && (forall i :: 0 <= i < |subs| && Solved(subs[i]) && subs[i].rating.Some? ==>
            var v := subs[i].rating.value;
            SolvedCount(subs, v) < SolvedCount(subs, r) || (SolvedCount(subs, v) == SolvedCount(subs, r) && r <= v))
  {
    var known := Known(SolvedRatings(subs));
    KnownSolvedRows(subs);
    if |known| == 0 then 0
    else
      KnownSolvedCounts(subs);
      Mode(known).value
  }

  /** The known ratings of accepted rows are the ratings some accepted row carries. */
  lemma KnownSolvedRows(subs: seq<Submission>)
    ensures forall v :: v in Known(SolvedRatings(subs)) <==>
      v.Some? && exists i :: 0 <= i < |subs| && Solved(subs[i]) && subs[i].rating == v
  {
    forall v: Rating
      ensures v in Known(SolvedRatings(subs)) <==>
        v.Some? && exists i :: 0 <= i < |subs| && Solved(subs[i]) && subs[i].rating == v
    {
      SolvedRatingsMembers(subs, v);
    }
  }

  lemma KnownSolvedCounts(subs: seq<Submission>)
    ensures forall x: int :: Freq(Known(SolvedRatings(subs)), Some(x)) == SolvedCount(subs, x)
  {
    forall x: int ensures Freq(Known(SolvedRatings(subs)), Some(x)) == SolvedCount(subs, x) {
      KnownKeepsCounts(SolvedRatings(subs), Some(x));
    }
  }

  datatype ModeError = UnknownIsNotAnInteger

  /** The accepted ratings are those of the accepted rows, and there are some iff a row is accepted. */
  lemma SolvedRows(subs: seq<Submission>)
    ensures forall v :: v in SolvedRatings(subs) <==>
      exists i :: 0 <= i < |subs| && Solved(subs[i]) && subs[i].rating == v
    ensures |SolvedRatings(subs)| == 0 <==> forall i :: 0 <= i < |subs| ==> !Solved(subs[i])
  {
    forall v: Rating
      ensures v in SolvedRatings(subs) <==> exists i :: 0 <= i < |subs| && Solved(subs[i]) && subs[i].rating == v
    {
      SolvedRatingsMembers(subs, v);
    }
    if |SolvedRatings(subs)| > 0 {
      assert SolvedRatings(subs)[0] in SolvedRatings(subs);
    }
  }

  /** Lines 127-131 as written: the mode is taken over every accepted row's rating, the
      placeholder "Unknown" included, and int() of that placeholder raises. */
  function ModeAsWritten(subs: seq<Submission>): (r: Result<int, ModeError>)
    ensures (forall i :: 0 <= i < |subs| ==> !Solved(subs[i])) ==> r == Success(0)
    ensures r.Failure? ==> exists i :: 0 <= i < |subs| && Solved(subs[i]) && subs[i].rating.None?
    ensures r.Success? && r.value != 0 ==>
      exists i :: 0 <= i < |subs| && Solved(subs[i]) && subs[i].rating == Some(r.value)
  {
    var ok := SolvedRatings(subs);
    SolvedRows(subs);
    if |ok| == 0 then Success(0)
    else match Mode(ok)
      case Some(v) => Success(v)
      case None => Failure(UnknownIsNotAnInteger)
  }

  /** The code as written fails exactly when some row is accepted and "Unknown" is strictly more
      frequent among the accepted rows than every known rating. */
  lemma AsWrittenFailsIff(subs: seq<Submission>)
    ensures ModeAsWritten(subs).Failure?
        <==> |SolvedRatings(subs)| > 0 && forall x: int :: SolvedCount(subs, x) < Freq(SolvedRatings(subs), None)
  {
    var ok := SolvedRatings(subs);
    if |ok| > 0 {
      var m := Mode(ok);
      if m.Some? {
        if None in ok {
          assert Beats(ok, m, None);
        }
        assert SolvedCount(subs, m.value) >= Freq(ok, None);
      } else {
        forall x: int ensures SolvedCount(subs, x) < Freq(ok, None) {
          if Some(x) in ok {
            assert Beats(ok, None, Some(x));
          }
        }
      }
    }
  }

  /** Whenever the code as written returns, it returns the corrected anchor rating. */
  lemma AsWrittenAgreesWhenItReturns(subs: seq<Submission>)
    ensures ModeAsWritten(subs).Success? ==> ModeAsWritten(subs).value == ModeRating(subs)
  {
    var ok := SolvedRatings(subs);
    var known := Known(ok);
    if |ok| > 0 && Mode(ok).Some? {
      var w := Mode(ok);
      assert w in known;
      var c := Mode(known);
      KnownKeepsCounts(ok, w);
      KnownKeepsCounts(ok, c);
      assert c in ok;
      assert Beats(known, w, c);
      assert Beats(known, c, w);
      BeatsAntisymmetric(known, w, c);
    }
  }

  /** A user whose only accepted row has an unknown rating: the code as written raises, while
      the corrected anchor is the fallback 0. */
  lemma UnknownOnlyModeRaises()
    ensures var subs := [Submission(Some(1), "A", "P", Parsed(["dp"]), None, "OK", 0)];
      ModeAsWritten(subs) == Failure(UnknownIsNotAnInteger) && ModeRating(subs) == 0
  {
    var subs := [Submission(Some(1), "A", "P", Parsed(["dp"]), None, "OK", 0)];
    assert SolvedRatings(subs) == [None];
  }
}
