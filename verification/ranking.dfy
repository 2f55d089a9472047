/** The similarity ordering of backend/app.py:93: catalog rows sorted by descending
    similarity. The similarity itself is an input (see Types.Scored). */
module Ranking {
  import opened Types
  import opened Seqs

  /** Rows appear in non-increasing similarity. */
  predicate Descending(s: seq<Scored>) {
    forall i, j :: 0 <= i < j < |s| ==> s[i].similarity >= s[j].similarity
  }

  /** The rows of `s` with similarity `v`, in their order in `s`. */
  function WithSimilarity(s: seq<Scored>, v: int): seq<Scored> {
    if |s| == 0 then []
    else (if s[0].similarity == v then [s[0]] else []) + WithSimilarity(s[1..], v)
  }

  /** Places `x` before the first row it is not less similar than. */
  function Insert(x: Scored, s: seq<Scored>): seq<Scored> {
    if |s| == 0 then [x]
    else if x.similarity >= s[0].similarity then [x] + s
    else [s[0]] + Insert(x, s[1..])
  }

  lemma {:induction false} InsertDescending(x: Scored, s: seq<Scored>)
    requires Descending(s)
    ensures Descending(Insert(x, s))
    ensures Insert(x, s)[0] == x || (|s| > 0 && Insert(x, s)[0] == s[0])
  {
    if |s| > 0 && x.similarity < s[0].similarity {
      InsertDescending(x, s[1..]);
      var t := Insert(x, s[1..]);
      assert t[0].similarity <= s[0].similarity;
      assert Insert(x, s) == [s[0]] + t;
    }
  }

  lemma {:induction false} InsertPermutes(x: Scored, s: seq<Scored>)
    ensures multiset(Insert(x, s)) == multiset(s) + multiset{x}
  {
    if |s| > 0 && x.similarity < s[0].similarity {
      InsertPermutes(x, s[1..]);
      HeadTail(s);
      assert multiset(s) == multiset{s[0]} + multiset(s[1..]) by {
        assert s == [s[0]] + s[1..];
      }
    }
  }

  /** Insert puts `x` ahead of every row of equal similarity. */
  lemma {:induction false} InsertWithSimilarity(x: Scored, s: seq<Scored>, v: int)
    ensures WithSimilarity(Insert(x, s), v)
         == (if x.similarity == v then [x] else []) + WithSimilarity(s, v)
  {
    if |s| == 0 {
      WithSimilarityCons(x, [], v);
    } else if x.similarity >= s[0].similarity {
      WithSimilarityCons(x, s, v);
    } else {
      InsertWithSimilarity(x, s[1..], v);
      WithSimilarityCons(s[0], Insert(x, s[1..]), v);
      WithSimilarityCons(s[0], s[1..], v);
      HeadTail(s);
    }
  }

  lemma WithSimilarityCons(y: Scored, t: seq<Scored>, v: int)
    ensures WithSimilarity([y] + t, v) == (if y.similarity == v then [y] else []) + WithSimilarity(t, v)
  {
    assert ([y] + t)[1..] == t;
  }

  /** A stable sort by descending similarity: rows of equal similarity keep their catalog order. */
  function RankBySimilarity(s: seq<Scored>): (r: seq<Scored>)
    ensures Descending(r)
    ensures multiset(r) == multiset(s)
    ensures forall v :: WithSimilarity(r, v) == WithSimilarity(s, v)
  {
    if |s| == 0 then []
    else
      var t := RankBySimilarity(s[1..]);
      InsertDescending(s[0], t);
      InsertPermutes(s[0], t);
      assert multiset(s) == multiset{s[0]} + multiset(s[1..]) by {
        assert s == [s[0]] + s[1..];
      }
      assert forall v :: WithSimilarity(Insert(s[0], t), v) == WithSimilarity(s, v) by {
        forall v ensures WithSimilarity(Insert(s[0], t), v) == WithSimilarity(s, v) {
          InsertWithSimilarity(s[0], t, v);
        }
      }
      Insert(s[0], t)
  }
}
