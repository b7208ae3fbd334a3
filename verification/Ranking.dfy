/** Ranking scored items from best to worst, ties in their original order: what
    `list.sort(key=score, reverse=True)` does for the beam search and for vector
    search. */
module Ranking {
  datatype Scored<+T> = Scored(score: real, item: T)

  function Insert<T>(x: Scored<T>, ranked: seq<Scored<T>>): seq<Scored<T>> {
    if ranked == [] || x.score >= ranked[0].score then [x] + ranked
    else [ranked[0]] + Insert(x, ranked[1..])
  }

  function Rank<T>(xs: seq<Scored<T>>): (r: seq<Scored<T>>)
    ensures |r| == |xs|
  {
    if xs == [] then [] else
    var rest := Rank(xs[1..]);
    InsertLength(xs[0], rest);
    Insert(xs[0], rest)
  }

  lemma {:induction false} InsertLength<T>(x: Scored<T>, ranked: seq<Scored<T>>)
    ensures |Insert(x, ranked)| == |ranked| + 1
  {
    if ranked != [] && x.score < ranked[0].score {
      InsertLength(x, ranked[1..]);
    }
  }

  // Scores never rise from left to right.
  ghost predicate Descending<T>(s: seq<Scored<T>>) {
    s == [] || ((forall y :: y in s[1..] ==> y.score <= s[0].score) && Descending(s[1..]))
  }

  // The items with one given score, in order.
  function Ties<T>(s: seq<Scored<T>>, score: real): seq<Scored<T>> {
    if s == [] then []
    else if s[0].score == score then [s[0]] + Ties(s[1..], score)
    else Ties(s[1..], score)
  }

  // A stable ranking of `xs`: descending, with each group of ties as it was.
  ghost predicate IsStableRanking<T>(xs: seq<Scored<T>>, ranked: seq<Scored<T>>) {
    Descending(ranked) && forall score :: Ties(ranked, score) == Ties(xs, score)
  }

  lemma {:induction false} InsertMembers<T>(x: Scored<T>, ranked: seq<Scored<T>>)
    ensures multiset(Insert(x, ranked)) == multiset(ranked) + multiset{x}
    ensures forall y :: y in Insert(x, ranked) <==> y in ranked || y == x
  {
    if ranked != [] {
      assert ranked == [ranked[0]] + ranked[1..];
      if x.score < ranked[0].score {
        InsertMembers(x, ranked[1..]);
      }
    }
  }

  lemma {:induction false} InsertDescending<T>(x: Scored<T>, ranked: seq<Scored<T>>)
    requires Descending(ranked)
    ensures Descending(Insert(x, ranked))
  {
    if ranked != [] && x.score < ranked[0].score {
      InsertDescending(x, ranked[1..]);
      InsertMembers(x, ranked[1..]);
      assert Insert(x, ranked)[1..] == Insert(x, ranked[1..]);
    } else {
      assert Insert(x, ranked)[1..] == ranked;
      if ranked != [] {
        assert ranked == [ranked[0]] + ranked[1..];
      }
    }
  }

  lemma {:induction false} InsertTies<T>(x: Scored<T>, ranked: seq<Scored<T>>, score: real)
    requires Descending(ranked)
    ensures Ties(Insert(x, ranked), score) == (if x.score == score then [x] else []) + Ties(ranked, score)
  {
    if ranked != [] && x.score < ranked[0].score {
      InsertTies(x, ranked[1..], score);
      assert Insert(x, ranked)[1..] == Insert(x, ranked[1..]);
      if x.score == score {
        assert ranked[0].score != score;
      }
    } else {
      assert Insert(x, ranked)[1..] == ranked;
    }
  }

  lemma {:induction false} RankIsStable<T>(xs: seq<Scored<T>>)
    ensures IsStableRanking(xs, Rank(xs))
    ensures multiset(Rank(xs)) == multiset(xs)
  {
    if xs != [] {
      RankIsStable(xs[1..]);
      assert xs == [xs[0]] + xs[1..];
      InsertDescending(xs[0], Rank(xs[1..]));
      InsertMembers(xs[0], Rank(xs[1..]));
      forall score ensures Ties(Rank(xs), score) == Ties(xs, score) {
        InsertTies(xs[0], Rank(xs[1..]), score);
      }
    }
  }

  lemma {:induction false} TiesNonEmpty<T>(s: seq<Scored<T>>, x: Scored<T>)
    requires x in s
    ensures Ties(s, x.score) != []
  {
    if s[0] != x {
      TiesNonEmpty(s[1..], x);
    }
  }

  lemma {:induction false} TiesMembers<T>(s: seq<Scored<T>>, score: real)
    ensures forall x :: x in Ties(s, score) ==> x in s && x.score == score
  {
    if s != [] {
      TiesMembers(s[1..], score);
    }
  }

  // A sequence has exactly one stable ranking.
  lemma {:induction false} StableRankingUnique<T>(xs: seq<Scored<T>>, a: seq<Scored<T>>, b: seq<Scored<T>>)
    requires IsStableRanking(xs, a) && IsStableRanking(xs, b)
    ensures a == b
    decreases |a|
  {
    if a == [] || b == [] {
      EmptyRanking(a, b);
    } else {
      SameTop(a, b);
      SameTop(b, a);
      assert Ties(a, a[0].score)[0] == a[0] && Ties(b, b[0].score)[0] == b[0];
      assert a[0] == b[0];
      forall score ensures Ties(a[1..], score) == Ties(b[1..], score) {
        assert Ties(a, score) == Ties(b, score);
        if score == a[0].score {
          assert Ties(a, score)[1..] == Ties(a[1..], score);
          assert Ties(b, score)[1..] == Ties(b[1..], score);
        }
      }
      StableRankingUnique(a[1..], a[1..], b[1..]);
      assert a == [a[0]] + a[1..] && b == [b[0]] + b[1..];
    }
  }

  lemma EmptyRanking<T>(a: seq<Scored<T>>, b: seq<Scored<T>>)
    requires forall score :: Ties(a, score) == Ties(b, score)
    requires a == [] || b == []
    ensures a == b
  {
    if a != [] {
      TiesNonEmpty(a, a[0]);
    }
    if b != [] {
      TiesNonEmpty(b, b[0]);
    }
  }

  lemma SameTop<T>(a: seq<Scored<T>>, b: seq<Scored<T>>)
    requires a != [] && b != [] && Descending(b)
    requires forall score :: Ties(a, score) == Ties(b, score)
    ensures a[0].score <= b[0].score
  {
    TiesNonEmpty(a, a[0]);
    TiesMembers(b, a[0].score);
    var t := Ties(b, a[0].score)[0];
    assert t in b && t.score == a[0].score;
    assert b == [b[0]] + b[1..];
  }

  // What is cut off never outscores what is kept.
  lemma {:induction false} CutKeepsBest<T>(s: seq<Scored<T>>, k: nat)
    requires Descending(s) && k <= |s|
    ensures forall x, y :: x in s[..k] && y in s[k..] ==> y.score <= x.score
  {
    if k > 0 {
      CutKeepsBest(s[1..], k - 1);
      assert s[..k] == [s[0]] + s[1..][..k - 1];
      assert s[k..] == s[1..][k - 1..];
      assert forall y :: y in s[k..] ==> y in s[1..];
    }
  }
}
