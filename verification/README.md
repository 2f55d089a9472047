# Topic-accuracy recommender, modelled in Dafny

This project models the recommendation pipeline of a small Codeforces practice
service (`backend/app.py`). Given a user's submission history and a problem
catalog, the service does four things:

- It counts, per problem tag, how many times the user attempted and solved it
  (`calculate_accuracy`).
- It classifies tags as strengths (accuracy above 0.55) or weaknesses (accuracy
  below 0.40) (`categorize_strengths`).
- It takes the most frequent rating among the user's accepted submissions as an
  anchor difficulty (inside `recommend`).
- It recommends up to five problems at the anchor rating that carry a weak tag,
  and up to five problems 100 or 200 above it that carry a strong tag. Both lists
  are ranked by similarity to the user's history, joined, and shuffled
  (`recommend_problems`).

Every stage is a pure function over sequences and maps:

| file | module | models |
|---|---|---|
| `types.dfy` | `Types` | submissions, catalog problems, scored rows |
| `accuracy.dfy` | `Accuracy` | `calculate_accuracy`, with reference counts and key order |
| `strengths.dfy` | `Strengths` | `categorize_strengths`, thresholds as integer cross-multiplication |
| `ranking.dfy` | `Ranking` | the similarity sort (line 93), as a stable insertion sort |
| `buckets.dfy` | `Buckets` | the weak and strong selections and `head(5)` |
| `recommender.dfy` | `Recommender` | `recommend_problems`, with the shuffle's randomness as an input |
| `mode.dfy` | `Mode` | the anchor rating, both as written and corrected |
| `service.dfy` | `Service` | the `recommend` route after the handle check |
| `seqs.dfy`, `wrappers.dfy` | `Seqs`, `Wrappers` | sequence facts; `Option` and `Result` |

Representation choices:

- Accuracy is kept as the pair `Tally(solved, attempted)`, not as a float.
- The dictionary's insertion order is kept in `AccuracyMap.order`, because both
  tag lists follow it.
- A submission's tag list is `Parsed(tags)` or `Malformed`. `Malformed` stands for
  text that `ast.literal_eval` rejects.
- A rating is `Option<int>`. `None` stands for the `"Unknown"` placeholder.
- The similarity of each catalog row is an integer input (`Scored.similarity`).
- The shuffle takes a sequence of random choices (`rand`).

Three behaviours of the code that the model keeps:

- **Sort stability.** `sort_values` (line 93) uses pandas' default `quicksort`,
  which is not stable. The model sorts stably, which is one order the code may
  produce. Every bucket property that depends on the order is proved for any
  sequence in descending similarity.
- **Malformed tag lists.** `calculate_accuracy` skips a malformed tag list, but
  line 85 parses the same text again without a `try`, so the request fails there.
  `Service.Recommend` returns `Failure(MalformedTagList)` in that case.
- **Unknown anchor.** When `"Unknown"` is strictly more frequent among the
  accepted ratings than every known rating, line 131 raises before line 85 is
  reached. `Service.Recommend` returns `Failure(UnknownAnchor)` in that case
  (see Findings).

## Model

| member | source | states |
|---|---|---|
| `Accuracy.CalculateAccuracy` | backend/app.py:57-72 | The keys are exactly the tags with at least one attempt. Each key's tally is (solves, attempts) as the independent counts define them. Every key has `attempted > 0` and `solved <= attempted`. The key order is each tag's first appearance over the well-formed rows. |
| `Accuracy.AggregateCounts` | backend/app.py:61-69 | Running the row loop from any starting dictionary adds, to each tag, its occurrences on well-formed rows as attempts, and its occurrences on accepted well-formed rows as solves. |
| `Accuracy.AggregateOrder` | backend/app.py:61-65 | The row loop appends each tag to the key order the first time it is seen, so the order is the first-occurrence order of all parsed tags. |
| `Accuracy.KeyOrderIsFirstAppearance` | backend/app.py:61-71 | The keys have no duplicates, and whenever one key precedes another, some occurrence of the first tag among the parsed rows comes before every occurrence of the second. |
| `Accuracy.KeysAreWellFormedTags` | backend/app.py:61-71 | A tag is a key exactly when some row whose tag list parsed carries it. |
| `Accuracy.MalformedRowSkipped` | backend/app.py:62-69 | Inserting a row with a malformed tag list anywhere leaves the result unchanged, and the rows after it are still counted. |
| `Accuracy.AppendRow` | backend/app.py:61-67 | One more row adds one attempt per occurrence of each of its tags, even if an identical row came before. It adds solves only when its verdict is `"OK"`. |
| `Accuracy.SolvesAtMostAttempts` | backend/app.py:64-67 | A tag is never solved more often than it is attempted. |
| `Accuracy.AccuracyInUnitInterval` | backend/app.py:71 | Every key's accuracy `solved / attempted` is defined and lies in [0, 1], so the `else 0` branch is never taken. |
| `Strengths.CategorizeStrengths` | backend/app.py:75-78 | A tag is listed as strong iff it is a key with accuracy above 0.55. It is listed as weak iff it is a key with accuracy below 0.40. Both lists keep the key order, and no tag is in both. |
| `Strengths.ThresholdsMatchRatio` | backend/app.py:76-77 | The integer tests `20*solved > 11*attempted` and `5*solved < 2*attempted` agree exactly with the ratio comparisons `> 0.55` and `< 0.40`. |
| `Strengths.MiddleBandInNeither` | backend/app.py:76-77 | A tag whose accuracy lies in [0.40, 0.55] is in neither list. |
| `Strengths.HalfSolvedIsNeutral` | backend/app.py:57-78 | One accepted and one rejected `"dp"` attempt give `"dp"` the tally (1, 2), and both lists come out empty. |
| `Ranking.RankBySimilarity` | backend/app.py:93 | The ranking is in descending similarity and is a permutation of the catalog. For every similarity value, the rows with that value keep their catalog order. |
| `Ranking.InsertWithSimilarity` | backend/app.py:93 | Inserting a row puts it ahead of the rows of equal similarity and leaves every other similarity class unchanged. |
| `Buckets.Candidates` | backend/app.py:96-98 | The mask keeps exactly the rows the criterion admits, as a subsequence of the ranking, so in ranked order. |
| `Buckets.CandidatesKeepEveryCopy` | backend/app.py:96-98 | Every copy of an admitted row is kept and no copy of another row: each row occurs in the selection as often as in the ranking if admitted, and not at all otherwise. |
| `Buckets.Bucket` | backend/app.py:96-105 | A bucket is exactly the first min(5, number of admitted rows) admitted rows in ranked order, so ties at the cut are broken by ranked position. If it holds fewer than 5, every admitted row is in it. In a descending ranking, no admitted row left out is more similar than a chosen one. |
| `Buckets.WeakBucket` | backend/app.py:96-99 | At most 5 rows, each rated exactly the anchor and carrying a weak tag. Empty when there are no weak tags. |
| `Buckets.StrongBucket` | backend/app.py:102-105 | At most 5 rows, each rated the anchor plus 100 or plus 200 and carrying a strong tag. Empty when there are no strong tags. |
| `Buckets.BucketsDisjoint` | backend/app.py:96-105 | No row is in both buckets. |
| `Recommender.Shuffle` | backend/app.py:107 | The shuffled rows are a permutation of the input rows. |
| `Recommender.ShuffleReachesEveryPermutation` | backend/app.py:107 | Every permutation of the input is produced by some sequence of random choices, so the output is "some permutation" and nothing narrower. |
| `Recommender.Selected` | backend/app.py:93-107 | The concatenation of the two buckets has at most 10 rows, and every row is a catalog row that fits the weak bucket (rating equal to the anchor, a weak tag) or the strong bucket (rating 100 or 200 above, a strong tag). |
| `Recommender.RecommendProblems` | backend/app.py:81-108 | The result is a permutation of the weak bucket followed by the strong bucket, with at most 10 rows. Every row comes from the catalog and fits one bucket's rating window and tag filter. With no weak tags every row is from the strong window, and with no strong tags every row is at the anchor rating. |
| `Mode.Mode` | backend/app.py:127 | The result occurs in the list, no value is more frequent, and among equally frequent values it sorts first (integers ascending, then `"Unknown"`). |
| `Mode.ModeRating` | backend/app.py:126-131 | The anchor is 0 when no accepted row has a known rating. Otherwise it is the rating of some accepted row. No accepted rating is more frequent, and no equally frequent rating is smaller. |
| `Mode.ModeAsWritten` | backend/app.py:127-131 | As written: with no accepted row the anchor is 0. A failure needs an accepted row with an unknown rating. A non-zero anchor is the rating of an accepted row. |
| `Mode.AsWrittenFailsIff` | backend/app.py:127-131 | As written, the anchor computation raises exactly when some row is accepted and `"Unknown"` is strictly more frequent among accepted rows than every known rating. |
| `Mode.AsWrittenAgreesWhenItReturns` | backend/app.py:127-131 | Whenever the code as written returns a value, that value is the corrected anchor. |
| `Mode.UnknownOnlyModeRaises` | backend/app.py:127-131 | A user whose only accepted row has rating `"Unknown"`: the code as written raises, while the corrected anchor is 0. |
| `Service.Recommend` | backend/app.py:119-140 | An empty history gives the 404 error. Otherwise, if the anchor computation as written raises (line 131), the request fails with that error. If it returns and some tag list is malformed, the request fails at line 85. In every other case the call succeeds. On success: the topics are exactly the strong and weak tags of the user's accuracy, and the anchor is the value lines 127-131 return, which equals the corrected mode. There are at most 10 recommendations, each a catalog row in one bucket's window with one of that bucket's topics. |
| `Service.UnknownAnchorComesFirst` | backend/app.py:127-133 | A history whose only accepted row is rated `"Unknown"` fails with the line-131 error, and still does when another row has a malformed tag list, because line 131 runs before `recommend_problems` re-parses tags at line 85. |

## Left out

- `check_user_exists` and `fetch_user_submissions` (backend/app.py:21-54) are network calls. The submission list is an input, and the 400 response for an unknown handle is not modelled.
- The `/history` route, static file serving, CORS and app start-up (backend/app.py:11-12, 142-168) are HTTP glue.
- Loading the catalog from CSV and filling missing ratings with the median (backend/app.py:15-18) is file I/O. The median may not be an integer, so catalog ratings are taken as integers already filled in.
- TF-IDF vectorisation and cosine similarity (backend/app.py:84-92) are floating-point library code. Each catalog row's similarity is an integer input, so ties and ordering are modelled but the values are not.
- The ratio comparisons of lines 76-77 are modelled exactly over rationals. Binary floating-point rounding of `solved / attempted` is not modelled; it could only matter for counts far beyond any real submission history.
- Pandas' sort algorithm for equal similarities: the model uses one stable order. `Buckets.Bucket` states its order-dependent property for any descending ranking.
- The randomness of `sample(frac=1)` is the `rand` input. `Recommender.ShuffleReachesEveryPermutation` shows that no permutation is excluded.
- The order of the mode list assumes pandas sorts mixed values with integers before strings. If a pandas version leaves such ties unsorted, it could pick `"Unknown"` in a tie; the model does not cover that.
- A tag string that `ast.literal_eval` turns into something other than a list (say a bare string, whose characters would then be iterated) is not distinguished from a parsed list of tags.
- The unused `num_recommendations` parameter (backend/app.py:81) and the extra output columns (`tags_str`, `similarity`, the reset index) are not modelled.
- The React frontend (`frontend/src`) is presentation only.

## Findings

| source | as written | input that shows it | evidently intended | confidence | as-written member | corrected member |
|---|---|---|---|---|---|---|
| backend/app.py:127-131 | The mode is taken over the accepted rows' ratings with the placeholder `"Unknown"` included. `pd.isna` does not catch the placeholder, so when `"Unknown"` is strictly more frequent than every known rating, `int("Unknown")` raises. On a tie the integer sorts first and nothing raises. | One accepted submission whose problem has no rating (`Mode.UnknownOnlyModeRaises`). | Treat `"Unknown"` as missing: take the mode over known ratings, and use 0 when there are none, as the `pd.isna` fallback intends. | not executed; high for the single-row case | `Mode.ModeAsWritten` | `Mode.ModeRating` |
