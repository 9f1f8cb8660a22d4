/** Search results: a lexical and a vector ranking fused by reciprocal rank, and paging through them by cursor. */
module Ranking {
  import opened Basics
  import opened Sorting

  type Id = string

  /** What scoring says of the entries. Scores and similarities are exact here. */
  datatype Corpus = Corpus(score: Id -> real, similarity: Id -> Option<real>, updated: Id -> int)

  function ByScore(c: Corpus): (Id, Id) -> bool {
    (a: Id, b: Id) => c.score(a) > c.score(b) || (c.score(a) == c.score(b) && c.updated(a) >= c.updated(b))
  }

  function Similarity(c: Corpus, a: Id): real {
    match c.similarity(a)
    case Some(x) => x
    case None => 0.0
  }

  function BySimilarity(c: Corpus): (Id, Id) -> bool {
    (a: Id, b: Id) => Similarity(c, a) >= Similarity(c, b)
  }

  function Where(xs: seq<Id>, keep: Id -> bool): (r: seq<Id>)
    ensures forall x :: x in r <==> x in xs && keep(x)
  {
    if xs == [] then []
    else
      var rest := Where(xs[1..], keep);
      assert xs == [xs[0]] + xs[1..];
      if keep(xs[0]) then [xs[0]] + rest else rest
  }

  function Lexical(c: Corpus, candidates: seq<Id>): seq<Id> {
    Sort(Where(candidates, (x: Id) => c.score(x) > 0.0), ByScore(c))
  }

  function VectorRanked(c: Corpus, candidates: seq<Id>): seq<Id> {
    Sort(Where(candidates, (x: Id) => c.similarity(x).Some?), BySimilarity(c))
  }

  /** The 1-based place of `x`, or one past the end when it is not ranked. */
  function Rank(xs: seq<Id>, x: Id): (r: nat)
    ensures 1 <= r <= |xs| + 1
    ensures r <= |xs| <==> x in xs
    ensures r <= |xs| ==> xs[r - 1] == x
  {
    if xs == [] then 1 else if xs[0] == x then 1 else 1 + Rank(xs[1..], x)
  }

  function RrfScore(lexicalRank: nat, vectorRank: nat): real {
    1.0 / (60 + lexicalRank) as real + 1.0 / (60 + vectorRank) as real
  }

  function Rrf(lexical: seq<Id>, vector: seq<Id>, x: Id): real {
    RrfScore(Rank(lexical, x), Rank(vector, x))
  }

  function ByRrf(c: Corpus, lexical: seq<Id>, vector: seq<Id>): (Id, Id) -> bool {
    (a: Id, b: Id) =>
      || Rrf(lexical, vector, a) > Rrf(lexical, vector, b)
      || (Rrf(lexical, vector, a) == Rrf(lexical, vector, b) && c.updated(a) >= c.updated(b))
  }

  /** The ranked ids of either list, the lexical ones first. */
  function Union(lexical: seq<Id>, vector: seq<Id>): seq<Id> {
    lexical + Where(vector, (x: Id) => x !in lexical)
  }

  function Fuse(c: Corpus, lexical: seq<Id>, vector: seq<Id>): seq<Id> {
    if vector == [] then lexical else Sort(Union(lexical, vector), ByRrf(c, lexical, vector))
  }

  /**
   `vectors` says whether the query has a vector and the catalog any document vectors; if not, lexical order stands.
   */
  function Results(c: Corpus, candidates: seq<Id>, vectors: bool): seq<Id> {
    var lexical := Lexical(c, candidates);
    if vectors then Fuse(c, lexical, VectorRanked(c, candidates)) else lexical
  }

  // ---- Fusion ----

  lemma {:induction false} WhereIsDistinct(xs: seq<Id>, keep: Id -> bool)
    requires Distinct(xs)
    ensures Distinct(Where(xs, keep))
  {
    if xs == [] {
    } else {
      WhereIsDistinct(xs[1..], keep);
      var rest := Where(xs[1..], keep);
      assert xs[0] !in xs[1..];
      assert forall i :: 0 <= i < |rest| ==> rest[i] in rest;
    }
  }

  lemma SortPermutes(xs: seq<Id>, le: (Id, Id) -> bool)
    requires TotalPreorder(le) && Distinct(xs)
    ensures Distinct(Sort(xs, le)) && Sorted(Sort(xs, le), le) && forall x :: x in Sort(xs, le) <==> x in xs
  {
    SortSorts(xs, le);
    SameMultisetDistinct(xs, Sort(xs, le));
    SameMultisetSameElements(xs, Sort(xs, le));
  }

  lemma OrdersAreTotal(c: Corpus, lexical: seq<Id>, vector: seq<Id>)
    ensures TotalPreorder(ByScore(c)) && TotalPreorder(BySimilarity(c)) && TotalPreorder(ByRrf(c, lexical, vector))
  {
  }

  lemma UnionIs(lexical: seq<Id>, vector: seq<Id>)
    requires Distinct(lexical) && Distinct(vector)
    ensures Distinct(Union(lexical, vector))
    ensures forall x :: x in Union(lexical, vector) <==> x in lexical || x in vector
  {
    WhereIsDistinct(vector, (x: Id) => x !in lexical);
    var more := Where(vector, (x: Id) => x !in lexical);
    assert forall i :: 0 <= i < |more| ==> more[i] in more;
    assert forall i :: 0 <= i < |lexical| ==> lexical[i] in lexical;
  }

  /** The fused list is a permutation of the union: every id ranked in either list, once, and nothing else. */
  lemma FusedIsPermutation(c: Corpus, lexical: seq<Id>, vector: seq<Id>)
    requires Distinct(lexical) && Distinct(vector)
    ensures var r := Fuse(c, lexical, vector);
            Distinct(r) && forall x :: x in r <==> x in lexical || x in vector
  {
    hide Sort;
    if vector != [] {
      OrdersAreTotal(c, lexical, vector);
      UnionIs(lexical, vector);
      SortPermutes(Union(lexical, vector), ByRrf(c, lexical, vector));
    }
  }

  /**
   The results of a search: each candidate with a lexical score, and with vectors each with a vector too, exactly once.
   So nothing the filter excluded takes a place.
   */
  lemma ResultsAreExact(c: Corpus, candidates: seq<Id>, vectors: bool)
    requires Distinct(candidates)
    ensures var r := Results(c, candidates, vectors);
            && Distinct(r)
            && forall x :: x in r <==> x in candidates && (c.score(x) > 0.0 || (vectors && c.similarity(x).Some?))
  {
    hide Sort, Fuse;
    OrdersAreTotal(c, [], []);
    WhereIsDistinct(candidates, (x: Id) => c.score(x) > 0.0);
    WhereIsDistinct(candidates, (x: Id) => c.similarity(x).Some?);
    SortPermutes(Where(candidates, (x: Id) => c.score(x) > 0.0), ByScore(c));
    SortPermutes(Where(candidates, (x: Id) => c.similarity(x).Some?), BySimilarity(c));
    FusedIsPermutation(c, Lexical(c, candidates), VectorRanked(c, candidates));
  }

  lemma InverseFalls(x: nat, y: nat)
    requires x <= y
    ensures 1.0 / (60 + x) as real >= 1.0 / (60 + y) as real
    ensures x < y ==> 1.0 / (60 + x) as real > 1.0 / (60 + y) as real
  {
    var a, b := (60 + x) as real, (60 + y) as real;
    assert 1.0 / a - 1.0 / b == (b - a) / (a * b);
  }

  lemma DominatingScoresHigher(lexical: seq<Id>, vector: seq<Id>, a: Id, b: Id)
    requires Rank(lexical, a) <= Rank(lexical, b) && Rank(vector, a) <= Rank(vector, b)
    requires Rank(lexical, a) < Rank(lexical, b) || Rank(vector, a) < Rank(vector, b)
    ensures Rrf(lexical, vector, a) > Rrf(lexical, vector, b)
  {
    hide Rank;
    InverseFalls(Rank(lexical, a), Rank(lexical, b));
    InverseFalls(Rank(vector, a), Rank(vector, b));
  }

  /** At least as good in both rankings, a miss counting as one past the end, and better in one. */
  predicate Dominates(lexical: seq<Id>, vector: seq<Id>, a: Id, b: Id) {
    && Rank(lexical, a) <= Rank(lexical, b) && Rank(vector, a) <= Rank(vector, b)
    && (Rank(lexical, a) < Rank(lexical, b) || Rank(vector, a) < Rank(vector, b))
  }

  /** An entry that dominates another in the two rankings comes before it. */
  lemma DominatingComesFirst(c: Corpus, lexical: seq<Id>, vector: seq<Id>, i: nat, j: nat)
    requires vector != [] && i < |Fuse(c, lexical, vector)| && j < |Fuse(c, lexical, vector)|
    ensures var r := Fuse(c, lexical, vector); Dominates(lexical, vector, r[i], r[j]) ==> i < j
  {
    hide Sort, Rank, Rrf, Union;
    var le := ByRrf(c, lexical, vector);
    var r := Fuse(c, lexical, vector);
    OrdersAreTotal(c, lexical, vector);
    SortSorts(Union(lexical, vector), le);
    if Dominates(lexical, vector, r[i], r[j]) {
      DominatingScoresHigher(lexical, vector, r[i], r[j]);
      assert forall x, y :: 0 <= x < y < |r| ==> le(r[x], r[y]);
    }
  }

  /**
   How far one first place carries: it beats a second place in both rankings only with a third or better in the other.
   */
  lemma FirstBeatsTwoSecondsExactly(m: nat)
    ensures RrfScore(1, m) > RrfScore(2, 2) <==> m <= 3
  {
    assert 1.0 / 61.0 + 1.0 / 63.0 > 2.0 / 62.0;
    assert 1.0 / 61.0 + 1.0 / 64.0 < 2.0 / 62.0;
    if m <= 3 { InverseFalls(m, 3); } else { InverseFalls(4, m); }
  }

  /** The maps of ranks are built entry by entry. */
  method RankMap(xs: seq<Id>) returns (ranks: map<Id, nat>)
    requires Distinct(xs)
    ensures forall x :: x in ranks <==> x in xs
    ensures forall x :: x in ranks ==> ranks[x] == Rank(xs, x)
  {
    ranks := map[];
    for i := 0 to |xs|
      invariant forall x :: x in ranks <==> x in xs[..i]
      invariant forall x :: x in ranks ==> 1 <= ranks[x] <= i && xs[ranks[x] - 1] == x
    {
      assert xs[..i + 1] == xs[..i] + [xs[i]];
      ranks := ranks[xs[i] := i + 1];
    }
    assert xs[..|xs|] == xs;
  }

  function ByScores(c: Corpus, rrf: map<Id, real>): (Id, Id) -> bool {
    (a: Id, b: Id) =>
      a in rrf && b in rrf && (rrf[a] > rrf[b] || (rrf[a] == rrf[b] && c.updated(a) >= c.updated(b)))
  }

  lemma RrfIsScore(lexical: seq<Id>, vector: seq<Id>, x: Id)
    ensures Rrf(lexical, vector, x)
            == RrfScore(if x in lexical then Rank(lexical, x) else |lexical| + 1,
                        if x in vector then Rank(vector, x) else |vector| + 1)
  {
  }

  /** Ranks, penalty ranks for a miss, union and sort, as the search does them. */
  method FuseRankings(c: Corpus, lexical: seq<Id>, vector: seq<Id>) returns (fused: seq<Id>)
    requires Distinct(lexical) && Distinct(vector)
    ensures fused == Fuse(c, lexical, vector)
  {
    hide Sort, Rrf, Rank, RrfScore, Union, Where;
    if |vector| == 0 { return lexical; }
    var lexicalRank := RankMap(lexical);
    var vectorRank := RankMap(vector);
    var lexicalMiss, vectorMiss := |lexical| + 1, |vector| + 1;
    var all := Union(lexical, vector);
    var rrf: map<Id, real> := map[];
    for i := 0 to |all|
      invariant forall x :: x in rrf <==> x in all[..i]
      invariant forall x :: x in rrf ==> rrf[x] == Rrf(lexical, vector, x)
    {
      var x := all[i];
      var l := if x in lexicalRank then lexicalRank[x] else lexicalMiss;
      var v := if x in vectorRank then vectorRank[x] else vectorMiss;
      assert all[..i + 1] == all[..i] + [x];
      RrfIsScore(lexical, vector, x);
      rrf := rrf[x := RrfScore(l, v)];
    }
    assert all[..|all|] == all;
    OrdersAreTotal(c, lexical, vector);
    SortAgrees(all, ByRrf(c, lexical, vector), ByScores(c, rrf));
    return Sort(all, ByScores(c, rrf));
  }

  // ---- Paging ----

  const DEFAULT_LIMIT: int := 20
  const MAX_LIMIT: int := 100

  /** None is a limit that is absent or not a finite number. */
  function ClampLimit(limit: Option<real>): (r: int)
    ensures 1 <= r <= MAX_LIMIT
    ensures limit.None? ==> r == DEFAULT_LIMIT
    ensures limit.Some? && 1.0 <= limit.value < 101.0 ==> r as real <= limit.value < r as real + 1.0
    ensures limit.Some? && limit.value < 1.0 ==> r == 1
    ensures limit.Some? && limit.value >= 100.0 ==> r == MAX_LIMIT
  {
    match limit
    case None => DEFAULT_LIMIT
    case Some(x) =>
      var whole := if x.Floor < 1 then 1 else x.Floor;
      if whole > MAX_LIMIT then MAX_LIMIT else whole
  }

  /** A cursor that decoded: an offset, which a caller may have made up, and the key of the query it was issued for. */
  datatype Cursor = Cursor(o: real, k: string)

  datatype Response<T> = Response(resources: seq<T>, partialResults: bool, limit: int, cursor: Option<Cursor>)

  /** Towards zero, as an index is read. */
  function Truncate(x: real): int {
    if x < 0.0 then -((-x).Floor) else x.Floor
  }

  /** A slice bound: negative counts from the end, and both are held within the list. */
  function Bound(x: real, n: nat): (b: nat)
    ensures b <= n
    ensures 0.0 <= x <= n as real ==> b == x.Floor
    ensures x >= n as real ==> b == n
    ensures -1.0 < x < 0.0 ==> b == 0
    ensures x <= -1.0 ==> b == if (-x).Floor < n then n - (-x).Floor else 0
  {
    var i := Truncate(x);
    if i < 0 then (if n + i < 0 then 0 else n + i) else if i > n then n else i
  }

  function Slice<T>(xs: seq<T>, from: real, to: real): seq<T> {
    var a, b := Bound(from, |xs|), Bound(to, |xs|);
    if a <= b then xs[a..b] else []
  }

  function Page<T>(results: seq<T>, limit: Option<real>, cursor: Option<Cursor>, filterKey: string): Response<T> {
    var n := ClampLimit(limit);
    var offset := if cursor.Some? && cursor.value.k == filterKey then cursor.value.o else 0.0;
    var page := Slice(results, offset, offset + n as real);
    var next := offset + |page| as real;
    var more := next < |results| as real;
    Response(page, more, n, if more then Some(Cursor(next, filterKey)) else None)
  }

  /** A cursor as the search issues it. */
  ghost predicate Issued(cursor: Option<Cursor>, filterKey: string, total: nat, o: nat) {
    o <= total && (if cursor.None? then o == 0 else cursor.value == Cursor(o as real, filterKey) && o < total)
  }

  lemma PageIsNext<T>(results: seq<T>, limit: Option<real>, cursor: Option<Cursor>, filterKey: string, o: nat)
    requires Issued(cursor, filterKey, |results|, o)
    ensures var r := Page(results, limit, cursor, filterKey);
            var end := if o + ClampLimit(limit) < |results| then o + ClampLimit(limit) else |results|;
            && r.resources == results[o..end] && r.limit == ClampLimit(limit)
            && (r.cursor.Some? <==> end < |results|) && r.partialResults == r.cursor.Some?
            && (r.cursor.Some? ==> Issued(r.cursor, filterKey, |results|, end))
  {
    var n := ClampLimit(limit);
    assert (o as real).Floor == o && (o as real + n as real).Floor == o + n;
    assert Bound(o as real, |results|) == o;
  }

  /** All that a client sees who follows the cursors to the end, asking for `limits[i]` results in its i-th request. */
  ghost function Followed<T>(results: seq<T>, limits: nat -> Option<real>, filterKey: string,
                             cursor: Option<Cursor>, i: nat, o: nat): seq<T>
    requires Issued(cursor, filterKey, |results|, o)
    decreases |results| - o, if cursor.None? then 1 else 0
  {
    PageIsNext(results, limits(i), cursor, filterKey, o);
    var r := Page(results, limits(i), cursor, filterKey);
    r.resources +
    if r.cursor.None? then [] else Followed(results, limits, filterKey, r.cursor, i + 1, o + |r.resources|)
  }

  lemma OnePage<T>(results: seq<T>, limits: nat -> Option<real>, filterKey: string,
                   cursor: Option<Cursor>, i: nat, o: nat) returns (next: Option<Cursor>, end: nat)
    requires Issued(cursor, filterKey, |results|, o)
    ensures o <= end <= |results| && (end < |results| ==> o < end && Issued(next, filterKey, |results|, end))
    ensures Followed(results, limits, filterKey, cursor, i, o)
            == results[o..end]
               + if end < |results| then Followed(results, limits, filterKey, next, i + 1, end) else []
  {
    hide Page, ClampLimit;
    PageIsNext(results, limits(i), cursor, filterKey, o);
    var r := Page(results, limits(i), cursor, filterKey);
    next, end := r.cursor, o + |r.resources|;
  }

  /**
   Following cursors over an unchanged ranking ends and visits every result exactly once and in order, whatever limits
   are asked for on the way. With no cursor at first that is the whole ranking.
   */
  lemma {:induction false} CursorsVisitEverything<T>(results: seq<T>, limits: nat -> Option<real>, filterKey: string,
                                                     cursor: Option<Cursor>, i: nat, o: nat)
    requires Issued(cursor, filterKey, |results|, o)
    ensures Followed(results, limits, filterKey, cursor, i, o) == results[o..]
    decreases |results| - o
  {
    hide Followed, Issued;
    var next, end := OnePage(results, limits, filterKey, cursor, i, o);
    assert results[o..] == results[o..end] + results[end..];
    if end == |results| {
    } else {
      CursorsVisitEverything(results, limits, filterKey, next, i + 1, end);
    }
  }

  /** A cursor issued for another query or filter is the same as none. */
  lemma ForeignCursorIsIgnored<T>(results: seq<T>, limit: Option<real>, cursor: Cursor, filterKey: string)
    requires cursor.k != filterKey
    ensures Page(results, limit, Some(cursor), filterKey) == Page(results, limit, None, filterKey)
    ensures var n := ClampLimit(limit);
            Page(results, limit, None, filterKey).resources == results[..if n < |results| then n else |results|]
  {
    PageIsNext(results, limit, None, filterKey, 0);
  }
}
