/** calculate_accuracy (backend/app.py:57-72): per-tag solve and attempt counts over the
    submission rows, as the pair (solved, attempted) in place of the float ratio. */
module Accuracy {
  import opened Types
  import opened Seqs

  /** How often a tag was solved and attempted. */
  datatype Tally = Tally(solved: nat, attempted: nat)

  /** The accuracy dictionary: its keys in insertion order, and each key's tally. */
  datatype AccuracyMap = AccuracyMap(order: seq<Tag>, tally: map<Tag, Tally>)

  const Empty := AccuracyMap([], map[])

  /** The tally of `t`, with the default dictionary's zero when `t` was never recorded. */
  function Get(a: AccuracyMap, t: Tag): Tally {
    if t in a.tally then a.tally[t] else Tally(0, 0)
  }

  /** The order lists every key exactly once. */
  ghost predicate Valid(a: AccuracyMap) {
    && Distinct(a.order)
    && (forall t :: t in a.order <==> t in a.tally)
  }

  // ---- Reference definitions: what the counts and the key order should be ----

  /** How many times `t` is attempted: its occurrences over all well-formed rows. */
  function Attempts(subs: seq<Submission>, t: Tag): nat {
    if |subs| == 0 then 0
    else multiset(RowTags(subs[0]))[t] + Attempts(subs[1..], t)
  }

  /** How many times `t` is solved: its occurrences over the well-formed rows with verdict OK. */
  function Solves(subs: seq<Submission>, t: Tag): nat {
    if |subs| == 0 then 0
    else (if Solved(subs[0]) then multiset(RowTags(subs[0]))[t] else 0) + Solves(subs[1..], t)
  }

  /** Every tag of every well-formed row, in row order. */
  function AllTags(subs: seq<Submission>): seq<Tag> {
    if |subs| == 0 then [] else RowTags(subs[0]) + AllTags(subs[1..])
  }

  /** The distinct elements of `xs`, each at the place of its first occurrence. */
  function FirstOccurrences(xs: seq<Tag>): (r: seq<Tag>)
    ensures Distinct(r)
    ensures forall t :: t in r <==> t in xs
  {
    if |xs| == 0 then []
    else
      var d := FirstOccurrences(xs[..|xs| - 1]);
      var x := xs[|xs| - 1];
      assert forall t :: t in xs <==> t in xs[..|xs| - 1] || t == x by {
        assert xs == xs[..|xs| - 1] + [x];
      }
      if x in d then d else d + [x]
  }

  /** `r` lists elements of `xs` in first-appearance order: whenever `r[i]` precedes `r[j]`,
      some occurrence of `r[i]` in `xs` comes before every occurrence of `r[j]`. */
  predicate InFirstAppearanceOrder(xs: seq<Tag>, r: seq<Tag>) {
    forall i, j :: 0 <= i < j < |r| ==>
      exists k :: 0 <= k < |xs| && xs[k] == r[i] && r[j] !in xs[..k + 1]
  }

  /** FirstOccurrences keeps first-appearance order. */
  lemma {:induction false} FirstOccurrencesOrder(xs: seq<Tag>)
    ensures InFirstAppearanceOrder(xs, FirstOccurrences(xs))
  {
    if |xs| > 0 {
      var n := |xs| - 1;
      var pre := xs[..n];
      var x := xs[n];
      var d := FirstOccurrences(pre);
      var r := FirstOccurrences(xs);
      FirstOccurrencesOrder(pre);
      assert r == if x in d then d else d + [x];
      forall i, j | 0 <= i < j < |r|
        ensures exists k :: 0 <= k < |xs| && xs[k] == r[i] && r[j] !in xs[..k + 1]
      {
        if j < |d| {
          assert r[i] == d[i] && r[j] == d[j];
          var k :| 0 <= k < |pre| && pre[k] == d[i] && d[j] !in pre[..k + 1];
          assert xs[..k + 1] == pre[..k + 1];
          assert xs[k] == r[i];
        } else {
          assert r == d + [x] && r[j] == x && x !in pre;
          assert d[i] in pre;
          var k :| 0 <= k < |pre| && pre[k] == d[i];
          assert xs[..k + 1] == pre[..k + 1];
          assert forall y :: y in pre[..k + 1] ==> y in pre;
          assert xs[k] == r[i];
        }
      }
    }
  }

  // ---- The loop of lines 61-69 ----

  /** One increment of line 65, and of line 67 when the row is solved. */
  function Record(a: AccuracyMap, t: Tag, solved: bool): AccuracyMap {
    var c := Get(a, t);
    AccuracyMap(
      if t in a.tally then a.order else a.order + [t],
      a.tally[t := Tally(c.solved + (if solved then 1 else 0), c.attempted + 1)])
  }

  /** The inner loop over a row's tags (lines 64-67). */
  function RecordAll(a: AccuracyMap, ts: seq<Tag>, solved: bool): AccuracyMap
    decreases |ts|
  {
    if |ts| == 0 then a else RecordAll(Record(a, ts[0], solved), ts[1..], solved)
  }

  /** One row: a malformed tag list is skipped whole (lines 68-69). */
  function RecordRow(a: AccuracyMap, s: Submission): AccuracyMap {
    match s.tags
    case Malformed => a
    case Parsed(ts) => RecordAll(a, ts, Solved(s))
  }

  /** The outer loop over the rows (line 61). */
  function Aggregate(a: AccuracyMap, subs: seq<Submission>): AccuracyMap
    decreases |subs|
  {
    if |subs| == 0 then a else Aggregate(RecordRow(a, subs[0]), subs[1..])
  }

  /** The accuracy dictionary of line 71, as solved and attempted counts. */
  function CalculateAccuracy(subs: seq<Submission>): (a: AccuracyMap)
    ensures Valid(a)
    ensures a.order == FirstOccurrences(AllTags(subs))
    ensures forall t :: t in a.tally <==> Attempts(subs, t) > 0
    ensures forall t :: t in a.tally ==> a.tally[t] == Tally(Solves(subs, t), Attempts(subs, t))
    ensures forall t :: t in a.tally ==> 0 < a.tally[t].attempted && a.tally[t].solved <= a.tally[t].attempted
  {
    var r := Aggregate(Empty, subs);
    assert Empty.order == FirstOccurrences([]);
    AggregateOrder(Empty, [], subs);
    assert [] + AllTags(subs) == AllTags(subs);
    forall t ensures Get(r, t) == Tally(Solves(subs, t), Attempts(subs, t))
      ensures t in r.tally <==> Attempts(subs, t) > 0
    {
      AggregateCounts(Empty, subs, t);
    }
    forall t | t in r.tally ensures r.tally[t].solved <= r.tally[t].attempted {
      SolvesAtMostAttempts(subs, t);
    }
    r
  }

  // ---- Lemmas connecting the loop to the reference definitions ----

  lemma {:induction false} SolvesAtMostAttempts(subs: seq<Submission>, t: Tag)
    ensures Solves(subs, t) <= Attempts(subs, t)
    decreases |subs|
  {
    if |subs| > 0 {
      SolvesAtMostAttempts(subs[1..], t);
    }
  }

  lemma {:induction false} RecordAllCounts(a: AccuracyMap, ts: seq<Tag>, solved: bool, t: Tag)
    ensures Get(RecordAll(a, ts, solved), t)
         == Tally(Get(a, t).solved + (if solved then multiset(ts)[t] else 0),
                  Get(a, t).attempted + multiset(ts)[t])
    ensures t in RecordAll(a, ts, solved).tally <==> t in a.tally || t in ts
    decreases |ts|
  {
    if |ts| > 0 {
      RecordAllCounts(Record(a, ts[0], solved), ts[1..], solved, t);
      CountHead(ts, t);
    }
  }

  lemma {:induction false} AggregateCounts(a: AccuracyMap, subs: seq<Submission>, t: Tag)
    ensures Get(Aggregate(a, subs), t)
         == Tally(Get(a, t).solved + Solves(subs, t), Get(a, t).attempted + Attempts(subs, t))
    ensures t in Aggregate(a, subs).tally <==> t in a.tally || Attempts(subs, t) > 0
    decreases |subs|
  {
    if |subs| > 0 {
      var s := subs[0];
      AggregateCounts(RecordRow(a, s), subs[1..], t);
      match s.tags
      case Malformed =>
      case Parsed(ts) => RecordAllCounts(a, ts, Solved(s), t);
    }
  }

  /** The first-occurrence list grows by one element the way Record grows the key order. */
  lemma FirstOccurrencesSnoc(xs: seq<Tag>, x: Tag)
    ensures FirstOccurrences(xs + [x])
         == if x in FirstOccurrences(xs) then FirstOccurrences(xs) else FirstOccurrences(xs) + [x]
  {
    assert (xs + [x])[..|xs|] == xs;
  }

  /** One Record keeps the key order equal to the first occurrences of the tags seen so far. */
  lemma RecordOrder(a: AccuracyMap, pre: seq<Tag>, x: Tag, solved: bool)
    requires a.order == FirstOccurrences(pre)
    requires forall t :: t in a.tally <==> t in pre
    ensures Record(a, x, solved).order == FirstOccurrences(pre + [x])
    ensures forall t :: t in Record(a, x, solved).tally <==> t in pre + [x]
  {
    FirstOccurrencesSnoc(pre, x);
  }

  lemma {:induction false} RecordAllOrder(a: AccuracyMap, pre: seq<Tag>, ts: seq<Tag>, solved: bool)
    requires a.order == FirstOccurrences(pre)
    requires forall t :: t in a.tally <==> t in pre
    ensures RecordAll(a, ts, solved).order == FirstOccurrences(pre + ts)
    ensures forall t :: t in RecordAll(a, ts, solved).tally <==> t in pre + ts
    decreases |ts|
  {
    if |ts| == 0 {
      assert pre + ts == pre;
    } else {
      RecordOrder(a, pre, ts[0], solved);
      RecordAllOrder(Record(a, ts[0], solved), pre + [ts[0]], ts[1..], solved);
      AppendHead(pre, ts);
    }
  }

  lemma {:induction false} AggregateOrder(a: AccuracyMap, pre: seq<Tag>, subs: seq<Submission>)
    requires a.order == FirstOccurrences(pre)
    requires forall t :: t in a.tally <==> t in pre
    ensures Aggregate(a, subs).order == FirstOccurrences(pre + AllTags(subs))
    ensures forall t :: t in Aggregate(a, subs).tally <==> t in pre + AllTags(subs)
    decreases |subs|
  {
    if |subs| == 0 {
      assert pre + AllTags(subs) == pre;
    } else {
      var s := subs[0];
      var b := RecordRow(a, s);
      RecordAllOrder(a, pre, RowTags(s), Solved(s));
      assert b == RecordAll(a, RowTags(s), Solved(s));
      AggregateOrder(b, pre + RowTags(s), subs[1..]);
      AppendAssoc(pre, RowTags(s), AllTags(subs[1..]));
    }
  }

  // ---- Properties of the whole computation ----

  /** A tag is attempted exactly when it occurs on some row whose tag list parsed. */
  lemma {:induction false} AttemptedIffOnWellFormedRow(subs: seq<Submission>, t: Tag)
    ensures Attempts(subs, t) > 0
        <==> exists i :: 0 <= i < |subs| && subs[i].tags.Parsed? && t in subs[i].tags.tags
    decreases |subs|
  {
    if |subs| > 0 {
      AttemptedIffOnWellFormedRow(subs[1..], t);
      if Attempts(subs[1..], t) > 0 {
        var i :| 1 <= i + 1 < |subs| && subs[1..][i].tags.Parsed? && t in subs[1..][i].tags.tags;
        assert subs[i + 1] == subs[1..][i];
      }
      if exists i :: 1 <= i < |subs| && subs[i].tags.Parsed? && t in subs[i].tags.tags {
        var i :| 1 <= i < |subs| && subs[i].tags.Parsed? && t in subs[i].tags.tags;
        assert subs[1..][i - 1] == subs[i];
      }
    }
  }

  /** The accuracy dict's keys come out in first-appearance order over the well-formed rows,
      with no tag twice. */
  lemma KeyOrderIsFirstAppearance(subs: seq<Submission>)
    ensures Distinct(CalculateAccuracy(subs).order)
    ensures InFirstAppearanceOrder(AllTags(subs), CalculateAccuracy(subs).order)
  {
    FirstOccurrencesOrder(AllTags(subs));
  }

  /** The accuracy dictionary's keys are exactly the tags on rows whose tag list parsed. */
  lemma KeysAreWellFormedTags(subs: seq<Submission>, t: Tag)
    ensures t in CalculateAccuracy(subs).tally
        <==> exists i :: 0 <= i < |subs| && subs[i].tags.Parsed? && t in subs[i].tags.tags
  {
    AttemptedIffOnWellFormedRow(subs, t);
  }

  lemma {:induction false} AggregateAppend(a: AccuracyMap, xs: seq<Submission>, ys: seq<Submission>)
    ensures Aggregate(a, xs + ys) == Aggregate(Aggregate(a, xs), ys)
    decreases |xs|
  {
    if |xs| == 0 {
      assert xs + ys == ys;
    } else {
      AggregateAppend(RecordRow(a, xs[0]), xs[1..], ys);
      assert (xs + ys)[1..] == xs[1..] + ys;
    }
  }

  /** A row whose tag list does not parse changes nothing, wherever it stands: the rows
      after it are counted as if it were absent. */
  lemma MalformedRowSkipped(pre: seq<Submission>, bad: Submission, post: seq<Submission>)
    requires bad.tags.Malformed?
    ensures CalculateAccuracy(pre + [bad] + post) == CalculateAccuracy(pre + post)
  {
    AggregateAppend(Empty, pre + [bad], post);
    AggregateAppend(Empty, pre, [bad]);
    AggregateAppend(Empty, pre, post);
  }

  lemma {:induction false} AttemptsAppend(xs: seq<Submission>, ys: seq<Submission>, t: Tag)
    ensures Attempts(xs + ys, t) == Attempts(xs, t) + Attempts(ys, t)
    ensures Solves(xs + ys, t) == Solves(xs, t) + Solves(ys, t)
    decreases |xs|
  {
    if |xs| == 0 {
      assert xs + ys == ys;
    } else {
      AttemptsAppend(xs[1..], ys, t);
      assert (xs + ys)[1..] == xs[1..] + ys;
    }
  }

  /** The reference counts of every tag, including the zero tally of a tag never attempted. */
  lemma TallyOf(subs: seq<Submission>, t: Tag)
    ensures Get(CalculateAccuracy(subs), t) == Tally(Solves(subs, t), Attempts(subs, t))
  {
    SolvesAtMostAttempts(subs, t);
  }

  /** Appending a row adds one attempt per occurrence of each of its tags, and as many solves
      only when its verdict is OK: no row is deduplicated against an earlier identical one. */
  lemma AppendRow(subs: seq<Submission>, s: Submission, t: Tag)
    ensures Get(CalculateAccuracy(subs + [s]), t).attempted
         == Get(CalculateAccuracy(subs), t).attempted + multiset(RowTags(s))[t]
    ensures Get(CalculateAccuracy(subs + [s]), t).solved
         == Get(CalculateAccuracy(subs), t).solved + (if Solved(s) then multiset(RowTags(s))[t] else 0)
  {
    TallyOf(subs + [s], t);
    TallyOf(subs, t);
    AttemptsAppend(subs, [s], t);
    assert [s][1..] == [];
  }

  /** The accuracy solved / attempted of line 71, exactly. */
  function Ratio(c: Tally): real
    requires c.attempted > 0
  {
    c.solved as real / c.attempted as real
  }

  /** Comparing a quotient with a constant is comparing the dividend with the scaled divisor. */
  lemma DivCompare(x: real, y: real, k: real)
    requires y > 0.0
    ensures x / y > k <==> x > k * y
    ensures x / y < k <==> x < k * y
  {
    assert (x / y) * y == x;
    if x / y > k { assert (x / y) * y > k * y; }
    if x > k * y { assert (x / y) * y > k * y; }
    if x / y < k { assert (x / y) * y < k * y; }
    if x < k * y { assert (x / y) * y < k * y; }
  }

  lemma RatioInUnitInterval(c: Tally)
    requires 0 < c.attempted
    requires c.solved <= c.attempted
    ensures 0.0 <= Ratio(c) <= 1.0
  {
    DivCompare(c.solved as real, c.attempted as real, 0.0);
    DivCompare(c.solved as real, c.attempted as real, 1.0);
  }

  /** Every accuracy lies in [0, 1], and the zero branch of line 71 is never taken. */
  lemma AccuracyInUnitInterval(subs: seq<Submission>, t: Tag)
    requires t in CalculateAccuracy(subs).tally
    ensures CalculateAccuracy(subs).tally[t].attempted > 0
    ensures 0.0 <= Ratio(CalculateAccuracy(subs).tally[t]) <= 1.0
  {
    RatioInUnitInterval(CalculateAccuracy(subs).tally[t]);
  }
}
