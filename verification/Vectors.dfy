/** Vector memory over the reals (`memory/vector`): cosine similarity and its bounds,
    the bucket a store keeps, and the exact meaning of a search. */
module Vectors {
  import opened Lists
  import opened Ranking
  import opened Wrappers

  type Vector = seq<real>

  datatype VectorItem = VectorItem(id: string, text: string, embedding: Vector)

  // ---------- cosine similarity (`_cosine.py`) ----------

  const ZERO_NORM_THRESHOLD := 0.000000000001

  ghost predicate IsSqrt(sqrt: real -> real) {
    forall x: real :: x >= 0.0 ==> sqrt(x) >= 0.0 && sqrt(x) * sqrt(x) == x
  }

  function Dot(a: Vector, b: Vector): real
    requires |a| == |b|
  {
    if a == [] then 0.0 else Dot(a[..|a| - 1], b[..|b| - 1]) + a[|a| - 1] * b[|b| - 1]
  }

  lemma {:induction false} NormIsNonNegative(a: Vector)
    ensures Dot(a, a) >= 0.0
  {
    if a != [] {
      NormIsNonNegative(a[..|a| - 1]);
    }
  }

  lemma RootIsPositive(sqrt: real -> real, x: real)
    requires IsSqrt(sqrt) && x >= ZERO_NORM_THRESHOLD
    ensures sqrt(x) > 0.0
  {
    assert sqrt(x) * sqrt(x) == x;
  }

  function Cosine(sqrt: real -> real, a: Vector, b: Vector): real
    requires IsSqrt(sqrt)
  {
    if |a| != |b| || Dot(a, a) < ZERO_NORM_THRESHOLD || Dot(b, b) < ZERO_NORM_THRESHOLD then 0.0
    else
      RootIsPositive(sqrt, Dot(a, a));
      RootIsPositive(sqrt, Dot(b, b));
      Dot(a, b) / (sqrt(Dot(a, a)) * sqrt(Dot(b, b)))
  }

  method CosineSimilarity(sqrt: real -> real, a: Vector, b: Vector) returns (score: real)
    requires IsSqrt(sqrt)
    ensures score == Cosine(sqrt, a, b)
  {
    if |a| != |b| {
      return 0.0;
    }
    var dot, normA, normB := 0.0, 0.0, 0.0;
    for i := 0 to |a|
      invariant dot == Dot(a[..i], b[..i])
      invariant normA == Dot(a[..i], a[..i])
      invariant normB == Dot(b[..i], b[..i])
    {
      assert a[..i + 1][..i] == a[..i] && b[..i + 1][..i] == b[..i];
      dot := dot + a[i] * b[i];
      normA := normA + a[i] * a[i];
      normB := normB + b[i] * b[i];
    }
    assert a[..|a|] == a && b[..|b|] == b;
    if normA < ZERO_NORM_THRESHOLD || normB < ZERO_NORM_THRESHOLD {
      return 0.0;
    }
    RootIsPositive(sqrt, normA);
    RootIsPositive(sqrt, normB);
    score := dot / (sqrt(normA) * sqrt(normB));
  }

  // Products as opaque terms, which keeps the solver to linear steps.
  function Times(x: real, y: real): real {
    x * y
  }

  lemma TimesGrows(x: real, y: real, z: real)
    requires x < y && z > 0.0
    ensures Times(x, z) < Times(y, z)
  {
  }

  lemma LargerSquare(x: real, y: real)
    requires x > y >= 0.0
    ensures Times(x, x) > Times(y, y)
  {
    if y == 0.0 {
      TimesGrows(y, x, x);
    } else {
      TimesGrows(y, x, y);
      TimesGrows(y, x, x);
      TimesCommute(x, y);
      hide Times;
    }
  }

  lemma TimesCommute(x: real, y: real)
    ensures Times(x, y) == Times(y, x)
  {
  }

  // Non-negative numbers compare as their squares do.
  lemma SquaresOrder(x: real, y: real)
    requires y >= 0.0 && x * x <= y * y
    ensures x <= y && -x <= y
  {
    assert Times(-x, -x) == Times(x, x);
    if x > y {
      LargerSquare(x, y);
    }
    if -x > y {
      LargerSquare(-x, y);
    }
  }

  // One coordinate more keeps the inequality.
  lemma CauchySchwarzStep(s: real, p: real, q: real, x: real, y: real)
    requires p >= 0.0 && q >= 0.0 && s * s <= p * q
    ensures (s + x * y) * (s + x * y) <= (p + x * x) * (q + y * y)
  {
    var cross, mean := s * (x * y), p * (y * y) + q * (x * x);
    assert mean >= 0.0 by {
      assert p * (y * y) >= 0.0 && q * (x * x) >= 0.0;
    }
    assert (2.0 * cross) * (2.0 * cross) <= mean * mean by {
      var u, v := p * (y * y), q * (x * x);
      var z := (x * y) * (x * y);
      assert (2.0 * cross) * (2.0 * cross) == 4.0 * ((s * s) * z);
      assert z >= 0.0;
      ScaledOrder(s * s, p * q, z);
      assert (p * q) * z == u * v;
      MeanSquare(u, v);
    }
    SquaresOrder(2.0 * cross, mean);
    assert (s + x * y) * (s + x * y) == s * s + 2.0 * cross + (x * y) * (x * y);
    assert (p + x * x) * (q + y * y) == p * q + mean + (x * y) * (x * y);
  }

  lemma ScaledOrder(a: real, b: real, z: real)
    requires a <= b && z >= 0.0
    ensures a * z <= b * z
  {
  }

  lemma MeanSquare(u: real, v: real)
    ensures 4.0 * (u * v) <= (u + v) * (u + v)
  {
    assert (u + v) * (u + v) - 4.0 * (u * v) == (u - v) * (u - v);
    assert (u - v) * (u - v) >= 0.0;
  }

  lemma {:induction false} CauchySchwarz(a: Vector, b: Vector)
    requires |a| == |b|
    ensures Dot(a, b) * Dot(a, b) <= Dot(a, a) * Dot(b, b)
  {
    if a != [] {
      var a', b' := a[..|a| - 1], b[..|b| - 1];
      CauchySchwarz(a', b');
      NormIsNonNegative(a');
      NormIsNonNegative(b');
      CauchySchwarzStep(Dot(a', b'), Dot(a', a'), Dot(b', b'), a[|a| - 1], b[|b| - 1]);
    }
  }

  lemma CosineIsBounded(sqrt: real -> real, a: Vector, b: Vector)
    requires IsSqrt(sqrt)
    ensures -1.0 <= Cosine(sqrt, a, b) <= 1.0
  {
    hide Dot;
    if |a| == |b| && Dot(a, a) >= ZERO_NORM_THRESHOLD && Dot(b, b) >= ZERO_NORM_THRESHOLD {
      CauchySchwarz(a, b);
      RootIsPositive(sqrt, Dot(a, a));
      RootIsPositive(sqrt, Dot(b, b));
      RootsBound(Dot(a, b), Dot(a, a), Dot(b, b), sqrt(Dot(a, a)), sqrt(Dot(b, b)));
    }
  }

  lemma RootsBound(s: real, p: real, q: real, x: real, y: real)
    requires x > 0.0 && y > 0.0 && x * x == p && y * y == q && s * s <= p * q
    ensures x * y > 0.0 && -1.0 <= s / (x * y) <= 1.0
  {
    var d := x * y;
    assert d > 0.0;
    SquareOfProduct(x, y);
    SquaresOrder(s, d);
    QuotientIsBounded(s, d);
  }

  lemma SquareOfProduct(x: real, y: real)
    ensures (x * y) * (x * y) == (x * x) * (y * y)
  {
    calc {
      (x * y) * (x * y);
      x * (y * (x * y));
      x * (x * (y * y));
      (x * x) * (y * y);
    }
  }

  lemma QuotientIsBounded(n: real, d: real)
    requires d > 0.0 && -d <= n <= d
    ensures -1.0 <= n / d <= 1.0
  {
  }

  // A vector of non-negligible length is as similar to itself as can be.
  lemma SelfSimilarity(sqrt: real -> real, a: Vector)
    requires IsSqrt(sqrt) && Dot(a, a) >= ZERO_NORM_THRESHOLD
    ensures Cosine(sqrt, a, a) == 1.0
  {
    var norm := Dot(a, a);
    RootIsPositive(sqrt, norm);
    assert sqrt(norm) * sqrt(norm) == norm;
    assert norm / norm == 1.0;
  }

  lemma {:induction false} DotIsSymmetric(a: Vector, b: Vector)
    requires |a| == |b|
    ensures Dot(a, b) == Dot(b, a)
  {
    if a != [] {
      DotIsSymmetric(a[..|a| - 1], b[..|b| - 1]);
    }
  }

  lemma CosineIsSymmetric(sqrt: real -> real, a: Vector, b: Vector)
    requires IsSqrt(sqrt)
    ensures Cosine(sqrt, a, b) == Cosine(sqrt, b, a)
  {
    if |a| == |b| {
      DotIsSymmetric(a, b);
    }
  }

  // The dot product adds up the products, coordinate by coordinate.
  lemma {:induction false} DotByParts(a: Vector, b: Vector, c: Vector, d: Vector)
    requires |a| == |b| && |c| == |d|
    ensures Dot(a + c, b + d) == Dot(a, b) + Dot(c, d)
    ensures |a| == 1 ==> Dot(a, b) == a[0] * b[0]
  {
    assert |a| == 1 ==> a[..0] == [] && Dot(a[..0], b[..0]) == 0.0;
    if c == [] {
      assert a + c == a && b + d == b;
    } else {
      var n := |c| - 1;
      DotByParts(a, b, c[..n], d[..n]);
      assert (a + c)[..|a| + n] == a + c[..n] && (b + d)[..|a| + n] == b + d[..n];
    }
  }

  // Vectors that can be compared: of one length, and neither negligible.
  predicate Comparable(a: Vector, b: Vector) {
    |a| == |b| && Dot(a, a) >= ZERO_NORM_THRESHOLD && Dot(b, b) >= ZERO_NORM_THRESHOLD
  }

  // The cosine times both lengths is the dot product; vectors that cannot be compared
  // have none in common.
  lemma CosineMeaning(sqrt: real -> real, a: Vector, b: Vector)
    requires IsSqrt(sqrt)
    ensures Comparable(a, b) ==> Cosine(sqrt, a, b) * (sqrt(Dot(a, a)) * sqrt(Dot(b, b))) == Dot(a, b)
    ensures !Comparable(a, b) ==> Cosine(sqrt, a, b) == 0.0
  {
    hide Dot;
    if Comparable(a, b) {
      RootIsPositive(sqrt, Dot(a, a));
      RootIsPositive(sqrt, Dot(b, b));
      var lengths := sqrt(Dot(a, a)) * sqrt(Dot(b, b));
      assert lengths > 0.0;
    }
  }

  // ---------- buckets ----------

  // A Python dict of items by id: at most one item per id, in insertion order.
  type Bucket = seq<VectorItem>

  function Ids(b: Bucket): (r: seq<string>)
    ensures |r| == |b| && forall i :: 0 <= i < |b| ==> r[i] == b[i].id
  {
    if b == [] then [] else [b[0].id] + Ids(b[1..])
  }

  predicate Keyed(b: Bucket) {
    b == [] || (b[0].id !in Ids(b[1..]) && Keyed(b[1..]))
  }

  function Lookup(b: Bucket, id: string): Option<VectorItem> {
    if b == [] then None else if b[0].id == id then Some(b[0]) else Lookup(b[1..], id)
  }

  // `bucket[item.id] = item`: an existing id keeps its place.
  function Put(b: Bucket, item: VectorItem): Bucket {
    if b == [] then [item] else if b[0].id == item.id then [item] + b[1..] else [b[0]] + Put(b[1..], item)
  }

  // `bucket.pop(id, None)`
  function Pop(b: Bucket, id: string): Bucket {
    if b == [] then [] else if b[0].id == id then b[1..] else [b[0]] + Pop(b[1..], id)
  }

  function PutAll(b: Bucket, items: seq<VectorItem>): Bucket {
    if items == [] then b else Put(PutAll(b, items[..|items| - 1]), items[|items| - 1])
  }

  function PopAll(b: Bucket, ids: seq<string>): Bucket {
    if ids == [] then b else Pop(PopAll(b, ids[..|ids| - 1]), ids[|ids| - 1])
  }

  lemma {:induction false} LookupIsMembership(b: Bucket, id: string)
    ensures Lookup(b, id).Some? <==> id in Ids(b)
    ensures Lookup(b, id).Some? ==> Lookup(b, id).value in b && Lookup(b, id).value.id == id
  {
    if b != [] {
      LookupIsMembership(b[1..], id);
    }
  }

  lemma {:induction false} PutMeaning(b: Bucket, item: VectorItem, id: string)
    requires Keyed(b)
    ensures Keyed(Put(b, item))
    ensures Lookup(Put(b, item), id) == if id == item.id then Some(item) else Lookup(b, id)
    ensures Ids(Put(b, item)) == Ids(b) + if item.id in Ids(b) then [] else [item.id]
  {
    if b != [] {
      PutMeaning(b[1..], item, id);
      if b[0].id == item.id {
        assert Ids(Put(b, item)) == Ids(b);
      } else {
        assert Put(b, item)[1..] == Put(b[1..], item);
      }
    }
  }

  lemma {:induction false} PopMeaning(b: Bucket, gone: string, id: string)
    requires Keyed(b)
    ensures Keyed(Pop(b, gone))
    ensures Lookup(Pop(b, gone), id) == if id == gone then None else Lookup(b, id)
    ensures |Pop(b, gone)| == |b| - if gone in Ids(b) then 1 else 0
    ensures id in Ids(Pop(b, gone)) <==> id in Ids(b) && id != gone
  {
    if b != [] {
      PopMeaning(b[1..], gone, id);
      PopMeaning(b[1..], gone, b[0].id);
      if b[0].id == gone {
        LookupIsMembership(b[1..], gone);
      } else {
        assert Pop(b, gone)[1..] == Pop(b[1..], gone);
      }
    }
  }

  // The last item offered for an id, if any was.
  function LastFor(items: seq<VectorItem>, id: string): Option<VectorItem> {
    if items == [] then None
    else if items[|items| - 1].id == id then Some(items[|items| - 1])
    else LastFor(items[..|items| - 1], id)
  }

  // Each id once, where it first arrived.
  function FirstArrivals(ids: seq<string>): (r: seq<string>)
    ensures forall id :: id in r <==> id in ids
  {
    if ids == [] then []
    else
      var front, last := ids[..|ids| - 1], ids[|ids| - 1];
      assert ids == front + [last];
      FirstArrivals(front) + if last in front then [] else [last]
  }

  lemma OneMoreArrival(front: seq<string>, last: string)
    ensures FirstArrivals(front + [last]) == FirstArrivals(front) + if last in front then [] else [last]
  {
    assert (front + [last])[..|front|] == front;
  }

  lemma {:induction false} DistinctArrivals(ids: seq<string>)
    requires forall i, j :: 0 <= i < j < |ids| ==> ids[i] != ids[j]
    ensures FirstArrivals(ids) == ids
  {
    if ids != [] {
      var front := ids[..|ids| - 1];
      DistinctArrivals(front);
      assert ids == front + [ids[|ids| - 1]];
    }
  }

  lemma {:induction false} KeyedIsDistinct(b: Bucket)
    requires Keyed(b)
    ensures forall i, j :: 0 <= i < j < |b| ==> Ids(b)[i] != Ids(b)[j]
  {
    if b != [] {
      var rest := Ids(b[1..]);
      KeyedIsDistinct(b[1..]);
      assert forall j :: 0 <= j < |rest| ==> rest[j] in rest && Ids(b)[j + 1] == rest[j];
      assert Ids(b) == [b[0].id] + rest;
    }
  }

  lemma {:induction false} UpsertOrder(b: Bucket, items: seq<VectorItem>)
    requires Keyed(b)
    ensures Keyed(PutAll(b, items))
    ensures Ids(PutAll(b, items)) == FirstArrivals(Ids(b) + Ids(items))
  {
    hide Put, Keyed, Lookup, FirstArrivals, Ids;
    if items == [] {
      KeyedIsDistinct(b);
      DistinctArrivals(Ids(b));
      assert Ids(b) + Ids(items) == Ids(b);
    } else {
      var front, item := items[..|items| - 1], items[|items| - 1];
      UpsertOrder(b, front);
      PutMeaning(PutAll(b, front), item, "");
      OneMoreArrival(Ids(b) + Ids(front), item.id);
      assert items == front + [item];
      OneMoreId(front, item);
      assert Ids(b) + Ids(front) + [item.id] == Ids(b) + (Ids(front) + [item.id]);
    }
  }

  lemma {:induction false} OneMoreId(front: seq<VectorItem>, last: VectorItem)
    ensures Ids(front + [last]) == Ids(front) + [last.id]
  {
    if front != [] {
      OneMoreId(front[1..], last);
      assert (front + [last])[1..] == front[1..] + [last];
    }
  }

  // An upsert replaces exactly the ids it names, by their last item, and keeps ids in
  // the order in which they first arrived.
  lemma {:induction false} UpsertMeaning(b: Bucket, items: seq<VectorItem>, id: string)
    requires Keyed(b)
    ensures Keyed(PutAll(b, items))
    ensures Lookup(PutAll(b, items), id) == if LastFor(items, id).Some? then LastFor(items, id) else Lookup(b, id)
    ensures Ids(PutAll(b, items)) == FirstArrivals(Ids(b) + Ids(items))
  {
    hide FirstArrivals, Put, Ids;
    UpsertOrder(b, items);
    if items != [] {
      var front, item := items[..|items| - 1], items[|items| - 1];
      UpsertMeaning(b, front, id);
      PutMeaning(PutAll(b, front), item, id);
    }
  }

  // A delete removes exactly the ids it names.
  lemma {:induction false} DeleteMeaning(b: Bucket, ids: seq<string>, id: string)
    requires Keyed(b)
    ensures Keyed(PopAll(b, ids))
    ensures Lookup(PopAll(b, ids), id) == if id in ids then None else Lookup(b, id)
    ensures |PopAll(b, ids)| <= |b|
  {
    if ids != [] {
      var front, gone := ids[..|ids| - 1], ids[|ids| - 1];
      assert ids == front + [gone];
      DeleteMeaning(b, front, id);
      PopMeaning(PopAll(b, front), gone, id);
    }
  }

  // It is as much shorter as there are distinct ids named that it held.
  lemma {:induction false} DeleteCountsOnce(b: Bucket, ids: seq<string>)
    requires Keyed(b)
    ensures |b| - |PopAll(b, ids)| == |set id | id in ids && id in Ids(b)|
  {
    hide Pop, Keyed, Lookup, Ids;
    if ids == [] {
      assert (set id | id in ids && id in Ids(b)) == {};
    } else {
      var front, gone := ids[..|ids| - 1], ids[|ids| - 1];
      assert ids == front + [gone];
      DeleteCountsOnce(b, front);
      DeleteMeaning(b, front, gone);
      PopMeaning(PopAll(b, front), gone, gone);
      LookupIsMembership(b, gone);
      LookupIsMembership(PopAll(b, front), gone);
      var before, after := set id | id in front && id in Ids(b), set id | id in ids && id in Ids(b);
      if gone in Ids(b) && gone !in front {
        assert after == before + {gone};
      } else {
        assert after == before;
      }
    }
  }

  // ---------- search ----------

  // The items that reach `minScore`, with their scores, in insertion order.
  function Eligible(sqrt: real -> real, b: Bucket, query: Vector, minScore: real): seq<Scored<VectorItem>>
    requires IsSqrt(sqrt)
  {
    if b == [] then []
    else
      var front, item := b[..|b| - 1], b[|b| - 1];
      var score := Cosine(sqrt, query, item.embedding);
      Eligible(sqrt, front, query, minScore) + if score < minScore then [] else [Scored(score, item)]
  }

  function Hits(sqrt: real -> real, b: Bucket, query: Vector, k: int, minScore: real): seq<Scored<VectorItem>>
    requires IsSqrt(sqrt)
  {
    if k <= 0 then [] else
    var ranked := Rank(Eligible(sqrt, b, query, minScore));
    if k < |ranked| then ranked[..k] else ranked
  }

  // The loop both backends run over the values of their bucket.
  method SearchBucket(sqrt: real -> real, b: Bucket, query: Vector, k: int, minScore: real)
    returns (hits: seq<Scored<VectorItem>>)
    requires IsSqrt(sqrt) && k > 0
    ensures hits == Hits(sqrt, b, query, k, minScore)
  {
    var scored: seq<Scored<VectorItem>> := [];
    for i := 0 to |b|
      invariant scored == Eligible(sqrt, b[..i], query, minScore)
    {
      assert b[..i + 1][..i] == b[..i];
      var score := CosineSimilarity(sqrt, query, b[i].embedding);
      if score < minScore {
        continue;
      }
      scored := scored + [Scored(score, b[i])];
    }
    assert b[..|b|] == b;
    scored := Rank(scored);
    hits := if k < |scored| then scored[..k] else scored;
  }

  lemma {:induction false} EligibleExactly(sqrt: real -> real, b: Bucket, query: Vector, minScore: real,
                                           x: Scored<VectorItem>)
    requires IsSqrt(sqrt)
    ensures x in Eligible(sqrt, b, query, minScore)
            <==> x.item in b && x.score == Cosine(sqrt, query, x.item.embedding) && x.score >= minScore
  {
    if b != [] {
      var front := b[..|b| - 1];
      EligibleExactly(sqrt, front, query, minScore, x);
      assert b == front + [b[|b| - 1]];
    }
  }

  // They are the items that score enough, in their order.
  lemma {:induction false} EligibleInOrder(
      sqrt: real -> real, b: Bucket, query: Vector, minScore: real, passes: VectorItem -> bool)
    returns (kept: seq<VectorItem>)
    requires IsSqrt(sqrt)
    requires forall item :: passes(item) <==> Cosine(sqrt, query, item.embedding) >= minScore
    ensures Selects(b, kept, passes) && |kept| == |Eligible(sqrt, b, query, minScore)|
    ensures forall i :: 0 <= i < |kept| ==>
              Eligible(sqrt, b, query, minScore)[i] == Scored(Cosine(sqrt, query, kept[i].embedding), kept[i])
  {
    hide Cosine, Selects;
    if b == [] {
      kept := [];
      SelectsNothing(b, kept, passes);
    } else {
      var front, item := b[..|b| - 1], b[|b| - 1];
      kept := EligibleInOrder(sqrt, front, query, minScore, passes);
      SelectsOneMore(front, kept, passes, item);
      assert b == front + [item];
      kept := if passes(item) then kept + [item] else kept;
    }
  }

  // The cut between what is returned and what is left over.
  ghost predicate IsTopOf(all: seq<Scored<VectorItem>>, hits: seq<Scored<VectorItem>>,
                          rest: seq<Scored<VectorItem>>) {
    && IsStableRanking(all, hits + rest)
    && multiset(hits + rest) == multiset(all)
    && forall x, y :: x in hits && y in rest ==> y.score <= x.score
  }

  // A search returns min(k, eligible) hits: the first ones of the one stable ranking of
  // the eligible items, so sorted, ties in insertion order, each within [-1, 1] and
  // at least `min_score`, and no eligible item left out scores higher.
  lemma SearchIsExactTopK(sqrt: real -> real, b: Bucket, query: Vector, k: int, minScore: real)
    returns (rest: seq<Scored<VectorItem>>)
    requires IsSqrt(sqrt)
    ensures var all, hits := Eligible(sqrt, b, query, minScore), Hits(sqrt, b, query, k, minScore);
            && |hits| == (if k <= 0 then 0 else if k < |all| then k else |all|)
            && IsTopOf(all, hits, rest)
            && forall x :: x in hits ==>
                 && x.item in b && x.score == Cosine(sqrt, query, x.item.embedding)
                 && minScore <= x.score && -1.0 <= x.score <= 1.0
  {
    hide Cosine, Eligible, Rank, IsStableRanking, Descending;
    var all := Eligible(sqrt, b, query, minScore);
    var ranked := Rank(all);
    RankIsStable(all);
    RankedDescends(all, ranked);
    var cut := if k <= 0 then 0 else if k < |ranked| then k else |ranked|;
    CutKeepsBest(ranked, cut);
    rest := ranked[cut..];
    var hits := Hits(sqrt, b, query, k, minScore);
    assert hits == ranked[..cut] && hits + rest == ranked;
    forall x | x in hits
      ensures x.item in b && x.score == Cosine(sqrt, query, x.item.embedding)
      ensures minScore <= x.score && -1.0 <= x.score <= 1.0
    {
      assert x in ranked;
      assert x in multiset(ranked);
      assert x in all;
      EligibleExactly(sqrt, b, query, minScore, x);
      CosineIsBounded(sqrt, query, x.item.embedding);
    }
  }

  lemma RankedDescends(all: seq<Scored<VectorItem>>, ranked: seq<Scored<VectorItem>>)
    requires IsStableRanking(all, ranked)
    ensures Descending(ranked)
  {
  }
}
