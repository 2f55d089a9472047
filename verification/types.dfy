/** The records the recommendation pipeline of backend/app.py works on. */
module Types {
  import opened Wrappers

  /** A topic label such as "dp" or "graphs". */
  type Tag = string

  /** The tag list of a submission row: a list, or a text form that does not parse as one. */
  datatype TagList = Parsed(tags: seq<Tag>) | Malformed

  /** One attempt of the user, as fetch_user_submissions normalises it. A contest id of
      None is the "Practice" placeholder and a rating of None is the "Unknown" placeholder. */
  datatype Submission = Submission(
    contestId: Option<int>,
    problemIndex: string,
    name: string,
    tags: TagList,
    rating: Option<int>,
    verdict: string,
    time: int)

  /** The verdict string the upstream platform uses for an accepted attempt. */
  const Accepted: string := "OK"

  predicate Solved(s: Submission) {
    s.verdict == Accepted
  }

  /** The tags a row contributes when it is counted: none when its tag list is malformed. */
  function RowTags(s: Submission): seq<Tag> {
    match s.tags
    case Parsed(ts) => ts
    case Malformed => []
  }

  /** A catalog problem; its rating is the integer left after load-time imputation. */
  datatype Problem = Problem(contestId: int, index: string, name: string, tags: seq<Tag>, rating: int)

  /** A catalog row together with its similarity to the user's history. */
  datatype Scored = Scored(problem: Problem, similarity: int)
}
