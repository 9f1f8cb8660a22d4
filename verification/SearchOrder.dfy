/**
 The order of search results, read off the entries alone: how many stand ahead of each by score and by similarity, with
 no sort and no ranking in the statement.
 */
module SearchOrder {
  import opened Ranking
  import opened Sorting

  // ---- Where a stable sort puts things ----

  ghost predicate Before<T>(xs: seq<T>, a: T, b: T) {
    exists i, j :: 0 <= i < j < |xs| && xs[i] == a && xs[j] == b
  }

  lemma BeforeAppend<T>(xs: seq<T>, x: T, a: T, b: T)
    ensures Before(xs + [x], a, b) <==> Before(xs, a, b) || (b == x && a in xs)
  {
    var ys := xs + [x];
    if Before(xs, a, b) {
      var i, j :| 0 <= i < j < |xs| && xs[i] == a && xs[j] == b;
      assert ys[i] == a && ys[j] == b;
    }
    if b == x && a in xs {
      var i :| 0 <= i < |xs| && xs[i] == a;
      assert ys[i] == a && ys[|xs|] == b;
    }
  }

  /** Inserting keeps the order of what was there and puts `x` behind everything that may stand before it. */
  lemma {:induction false} InsertKeepsOrder<T(!new)>(x: T, xs: seq<T>, le: (T, T) -> bool, a: T, b: T)
    requires TotalPreorder(le) && Sorted(xs, le)
    ensures Before(xs, a, b) ==> Before(Insert(x, xs, le), a, b)
    ensures a in xs && b == x && le(a, x) ==> Before(Insert(x, xs, le), a, b)
    ensures forall y :: y in Insert(x, xs, le) <==> y in xs || y == x
  {
    if xs == [] {
    } else {
      var init, last := xs[..|xs| - 1], xs[|xs| - 1];
      assert xs == init + [last];
      InsertKeepsOrder(x, init, le, a, b);
      if le(last, x) {
        BeforeAppend(xs, x, a, b);
      } else {
        BeforeAppend(init, last, a, b);
        BeforeAppend(Insert(x, init, le), last, a, b);
      }
    }
  }

  /** A stable sort leaves two elements in their order whenever that order is allowed. */
  lemma {:induction false} SortIsStable<T(!new)>(xs: seq<T>, le: (T, T) -> bool, a: T, b: T)
    requires TotalPreorder(le) && Before(xs, a, b) && le(a, b)
    ensures Before(Sort(xs, le), a, b)
  {
    var init, last := xs[..|xs| - 1], xs[|xs| - 1];
    assert xs == init + [last];
    SortSorts(init, le);
    SameMultisetSameElements(init, Sort(init, le));
    BeforeAppend(init, last, a, b);
    InsertKeepsOrder(last, Sort(init, le), le, a, b);
    if !Before(init, a, b) {
    } else {
      SortIsStable(init, le, a, b);
    }
  }

  // ---- Counting what is ahead ----

  /** In a list without repetition, what stands before a place is what is before its element. */
  lemma PrefixIsBefore(xs: seq<Id>, r: nat, y: Id)
    requires Distinct(xs) && r < |xs|
    ensures y in xs[..r] <==> Before(xs, y, xs[r])
  {
    if y in xs[..r] {
      var i :| 0 <= i < r && xs[..r][i] == y;
      assert xs[i] == y;
    }
    if Before(xs, y, xs[r]) {
      var i, j :| 0 <= i < j < |xs| && xs[i] == y && xs[j] == xs[r];
      assert xs[..r][i] == y;
    }
  }

  /** So a place is one more than the number of elements before it. */
  lemma RankCounts(xs: seq<Id>, x: Id)
    requires Distinct(xs)
    ensures x in xs ==> Rank(xs, x) == 1 + |set y | y in xs && Before(xs, y, x)|
    ensures x !in xs ==> Rank(xs, x) == 1 + |set y | y in xs|
  {
    hide Before, Rank;
    if x in xs {
      var r := Rank(xs, x) - 1;
      SizeOfDistinct(xs[..r]);
      forall y ensures y in xs[..r] <==> y in xs && Before(xs, y, x) {
        PrefixIsBefore(xs, r, y);
      }
      assert (set y | y in xs && Before(xs, y, x)) == (set y | y in xs[..r]);
    } else {
      SizeOfDistinct(xs);
    }
  }

  // ---- Lists filtered and sorted ----

  lemma BeforePrepend<T>(x: T, xs: seq<T>, a: T, b: T)
    ensures Before([x] + xs, a, b) <==> Before(xs, a, b) || (a == x && b in xs)
  {
    var ys := [x] + xs;
    if Before(xs, a, b) {
      var i, j :| 0 <= i < j < |xs| && xs[i] == a && xs[j] == b;
      assert ys[i + 1] == a && ys[j + 1] == b;
    }
    if a == x && b in xs {
      var j :| 0 <= j < |xs| && xs[j] == b;
      assert ys[0] == a && ys[j + 1] == b;
    }
    if Before(ys, a, b) {
      var i, j :| 0 <= i < j < |ys| && ys[i] == a && ys[j] == b;
      assert xs[j - 1] == b && (i > 0 ==> xs[i - 1] == a);
    }
  }

  lemma {:induction false} WhereKeepsOrder(xs: seq<Id>, keep: Id -> bool, a: Id, b: Id)
    requires keep(a) && keep(b)
    ensures Before(Where(xs, keep), a, b) <==> Before(xs, a, b)
  {
    if xs == [] {
    } else {
      WhereKeepsOrder(xs[1..], keep, a, b);
      assert xs == [xs[0]] + xs[1..];
      BeforePrepend(xs[0], xs[1..], a, b);
      BeforePrepend(xs[0], Where(xs[1..], keep), a, b);
    }
  }

  lemma BeforeOrAfter<T>(xs: seq<T>, a: T, b: T)
    requires Distinct(xs) && a in xs && b in xs && a != b
    ensures Before(xs, a, b) <==> !Before(xs, b, a)
  {
    var i :| 0 <= i < |xs| && xs[i] == a;
    var j :| 0 <= j < |xs| && xs[j] == b;
    if i < j { assert Before(xs, a, b); } else { assert Before(xs, b, a); }
  }

  /** After a stable sort one element is before another exactly when the order wants it so, or does not care. */
  lemma SortedBefore(xs: seq<Id>, le: (Id, Id) -> bool, a: Id, b: Id)
    requires TotalPreorder(le) && Distinct(xs) && a in xs && b in xs && a != b
    ensures Before(Sort(xs, le), a, b) <==> le(a, b) && (!le(b, a) || Before(xs, a, b))
  {
    var r := Sort(xs, le);
    SortPermutes(xs, le);
    BeforeOrAfter(r, a, b);
    BeforeOrAfter(xs, a, b);
    assert Before(r, a, b) ==> le(a, b);
    assert Before(r, b, a) ==> le(b, a);
    if le(a, b) && le(b, a) {
      if Before(xs, a, b) { SortIsStable(xs, le, a, b); } else { SortIsStable(xs, le, b, a); }
    }
  }

  // ---- The lexical order ----

  /** A better score, at equal scores a later update, and at equal updates an earlier place among the candidates. */
  ghost predicate ScoreAhead(c: Corpus, candidates: seq<Id>, a: Id, b: Id) {
    || c.score(a) > c.score(b)
    || (c.score(a) == c.score(b) && c.updated(a) > c.updated(b))
    || (c.score(a) == c.score(b) && c.updated(a) == c.updated(b) && Before(candidates, a, b))
  }

  lemma LexicalIs(c: Corpus, candidates: seq<Id>)
    requires Distinct(candidates)
    ensures Distinct(Lexical(c, candidates))
    ensures forall x :: x in Lexical(c, candidates) <==> x in candidates && c.score(x) > 0.0
  {
    OrdersAreTotal(c, [], []);
    WhereIsDistinct(candidates, (x: Id) => c.score(x) > 0.0);
    SortPermutes(Where(candidates, (x: Id) => c.score(x) > 0.0), ByScore(c));
  }

  lemma LexicalBefore(c: Corpus, candidates: seq<Id>, a: Id, b: Id)
    requires Distinct(candidates) && a in Lexical(c, candidates) && b in Lexical(c, candidates) && a != b
    ensures Before(Lexical(c, candidates), a, b) <==> ScoreAhead(c, candidates, a, b)
  {
    var keep := (x: Id) => c.score(x) > 0.0;
    LexicalIs(c, candidates);
    OrdersAreTotal(c, [], []);
    WhereIsDistinct(candidates, keep);
    SortedBefore(Where(candidates, keep), ByScore(c), a, b);
    WhereKeepsOrder(candidates, keep, a, b);
  }

  /** Without vectors every result has a better score than those after it, or ties as the order says. */
  lemma LexicalOrderIsExact(c: Corpus, candidates: seq<Id>, i: nat, j: nat)
    requires Distinct(candidates) && i < j < |Results(c, candidates, false)|
    ensures var r := Results(c, candidates, false); ScoreAhead(c, candidates, r[i], r[j])
  {
    var r := Results(c, candidates, false);
    LexicalIs(c, candidates);
    assert Before(r, r[i], r[j]);
    LexicalBefore(c, candidates, r[i], r[j]);
  }

  // ---- The vector order ----

  ghost predicate SimilarityAhead(c: Corpus, candidates: seq<Id>, a: Id, b: Id) {
    && c.similarity(a).Some? && c.similarity(b).Some?
    && (c.similarity(a).value > c.similarity(b).value
        || (c.similarity(a).value == c.similarity(b).value && Before(candidates, a, b)))
  }

  lemma VectorRankedIs(c: Corpus, candidates: seq<Id>)
    requires Distinct(candidates)
    ensures Distinct(VectorRanked(c, candidates))
    ensures forall x :: x in VectorRanked(c, candidates) <==> x in candidates && c.similarity(x).Some?
  {
    OrdersAreTotal(c, [], []);
    WhereIsDistinct(candidates, (x: Id) => c.similarity(x).Some?);
    SortPermutes(Where(candidates, (x: Id) => c.similarity(x).Some?), BySimilarity(c));
  }

  lemma VectorBefore(c: Corpus, candidates: seq<Id>, a: Id, b: Id)
    requires Distinct(candidates) && a in VectorRanked(c, candidates) && b in VectorRanked(c, candidates) && a != b
    ensures Before(VectorRanked(c, candidates), a, b) <==> SimilarityAhead(c, candidates, a, b)
  {
    var keep := (x: Id) => c.similarity(x).Some?;
    VectorRankedIs(c, candidates);
    OrdersAreTotal(c, [], []);
    WhereIsDistinct(candidates, keep);
    SortedBefore(Where(candidates, keep), BySimilarity(c), a, b);
    WhereKeepsOrder(candidates, keep, a, b);
  }

  // ---- The fused order ----

  /** One more than the number of scored candidates ahead; one past them all for a candidate without a score. */
  ghost function ScorePlace(c: Corpus, candidates: seq<Id>, x: Id): nat {
    1 + |set y | y in candidates && c.score(y) > 0.0 && (c.score(x) <= 0.0 || ScoreAhead(c, candidates, y, x))|
  }

  ghost function SimilarityPlace(c: Corpus, candidates: seq<Id>, x: Id): nat {
    1 + |set y | y in candidates && c.similarity(y).Some?
                 && (c.similarity(x).None? || SimilarityAhead(c, candidates, y, x))|
  }

  lemma RankIsScorePlace(c: Corpus, candidates: seq<Id>, x: Id)
    requires Distinct(candidates) && x in candidates
    ensures Rank(Lexical(c, candidates), x) == ScorePlace(c, candidates, x)
  {
    hide Lexical, ScoreAhead;
    var r := Lexical(c, candidates);
    LexicalIs(c, candidates);
    RankCounts(r, x);
    if x in r {
      forall y | y in r ensures Before(r, y, x) <==> ScoreAhead(c, candidates, y, x) {
        if y == x { NeverBeforeItself(c, candidates, x); } else { LexicalBefore(c, candidates, y, x); }
      }
      assert (set y | y in r && Before(r, y, x)) ==
             set y | y in candidates && c.score(y) > 0.0 && (c.score(x) <= 0.0 || ScoreAhead(c, candidates, y, x));
    } else {
      assert (set y | y in r) ==
             set y | y in candidates && c.score(y) > 0.0 && (c.score(x) <= 0.0 || ScoreAhead(c, candidates, y, x));
    }
  }

  lemma RankIsSimilarityPlace(c: Corpus, candidates: seq<Id>, x: Id)
    requires Distinct(candidates) && x in candidates
    ensures Rank(VectorRanked(c, candidates), x) == SimilarityPlace(c, candidates, x)
  {
    hide VectorRanked, SimilarityAhead;
    var r := VectorRanked(c, candidates);
    VectorRankedIs(c, candidates);
    RankCounts(r, x);
    if x in r {
      forall y | y in r ensures Before(r, y, x) <==> SimilarityAhead(c, candidates, y, x) {
        if y == x { NeverBeforeItself(c, candidates, x); } else { VectorBefore(c, candidates, y, x); }
      }
      assert (set y | y in r && Before(r, y, x)) ==
             set y | y in candidates && c.similarity(y).Some?
                     && (c.similarity(x).None? || SimilarityAhead(c, candidates, y, x));
    } else {
      assert (set y | y in r) ==
             set y | y in candidates && c.similarity(y).Some?
                     && (c.similarity(x).None? || SimilarityAhead(c, candidates, y, x));
    }
  }

  lemma NeverBeforeItself(c: Corpus, candidates: seq<Id>, x: Id)
    requires Distinct(candidates)
    ensures !ScoreAhead(c, candidates, x, x) && !SimilarityAhead(c, candidates, x, x)
    ensures !Before(Lexical(c, candidates), x, x) && !Before(VectorRanked(c, candidates), x, x)
  {
    LexicalIs(c, candidates);
    VectorRankedIs(c, candidates);
  }

  /** What both places together are worth. */
  ghost function Worth(c: Corpus, candidates: seq<Id>, x: Id): real {
    1.0 / (60 + ScorePlace(c, candidates, x)) as real + 1.0 / (60 + SimilarityPlace(c, candidates, x)) as real
  }

  lemma BeforeConcat<T>(xs: seq<T>, ys: seq<T>, a: T, b: T)
    ensures Before(xs + ys, a, b) <==> Before(xs, a, b) || Before(ys, a, b) || (a in xs && b in ys)
  {
    var zs := xs + ys;
    if Before(xs, a, b) {
      var i, j :| 0 <= i < j < |xs| && xs[i] == a && xs[j] == b;
      assert zs[i] == a && zs[j] == b;
    }
    if Before(ys, a, b) {
      var i, j :| 0 <= i < j < |ys| && ys[i] == a && ys[j] == b;
      assert zs[|xs| + i] == a && zs[|xs| + j] == b;
    }
    if a in xs && b in ys {
      var i :| 0 <= i < |xs| && xs[i] == a;
      var j :| 0 <= j < |ys| && ys[j] == b;
      assert zs[i] == a && zs[|xs| + j] == b;
    }
    if Before(zs, a, b) {
      var i, j :| 0 <= i < j < |zs| && zs[i] == a && zs[j] == b;
      if j < |xs| {
        assert xs[i] == a && xs[j] == b;
      } else if i < |xs| {
        assert xs[i] == a && ys[j - |xs|] == b;
      } else {
        assert ys[i - |xs|] == a && ys[j - |xs|] == b;
      }
    }
  }

  /** How equals stand: the scored by score, before the others by similarity. */
  ghost predicate TieAhead(c: Corpus, candidates: seq<Id>, a: Id, b: Id) {
    if c.score(a) > 0.0 then c.score(b) <= 0.0 || ScoreAhead(c, candidates, a, b)
    else c.score(b) <= 0.0 && SimilarityAhead(c, candidates, a, b)
  }

  lemma UnionBefore(c: Corpus, candidates: seq<Id>, a: Id, b: Id)
    requires Distinct(candidates) && a != b
    requires var all := Union(Lexical(c, candidates), VectorRanked(c, candidates)); a in all && b in all
    ensures Before(Union(Lexical(c, candidates), VectorRanked(c, candidates)), a, b) <==> TieAhead(c, candidates, a, b)
  {
    hide Lexical, VectorRanked, ScoreAhead, SimilarityAhead, Where;
    var lexical, vector := Lexical(c, candidates), VectorRanked(c, candidates);
    var more := Where(vector, (x: Id) => x !in lexical);
    LexicalIs(c, candidates);
    VectorRankedIs(c, candidates);
    BeforeConcat(lexical, more, a, b);
    if a in lexical && b in lexical {
      LexicalBefore(c, candidates, a, b);
      assert !Before(more, a, b) by { assert a !in more; }
    } else if a !in lexical && b !in lexical {
      WhereKeepsOrder(vector, (x: Id) => x !in lexical, a, b);
      VectorBefore(c, candidates, a, b);
      assert !Before(lexical, a, b);
    } else {
      assert a in lexical ==> b in more;
      assert !Before(lexical, a, b) && !Before(more, a, b);
    }
  }

  /**
   With vectors, each result is worth more than those after it, or as much and later updated, or as much, updated at the
   same time and ahead among equals. Worth is counted from the candidates' scores and similarities alone.
   */
  lemma FusedOrderIsExact(c: Corpus, candidates: seq<Id>, i: nat, j: nat)
    requires Distinct(candidates) && i < j < |Results(c, candidates, true)|
    requires exists x :: x in candidates && c.similarity(x).Some?
    ensures var r := Results(c, candidates, true);
            var a, b := Worth(c, candidates, r[i]), Worth(c, candidates, r[j]);
            || a > b
            || (a == b && c.updated(r[i]) > c.updated(r[j]))
            || (a == b && c.updated(r[i]) == c.updated(r[j]) && TieAhead(c, candidates, r[i], r[j]))
  {
    hide Lexical, VectorRanked, Sort, Union, Rank, ScorePlace, SimilarityPlace, TieAhead;
    var lexical, vector := Lexical(c, candidates), VectorRanked(c, candidates);
    var r, le := Results(c, candidates, true), ByRrf(c, lexical, vector);
    var a, b := r[i], r[j];
    LexicalIs(c, candidates);
    VectorRankedIs(c, candidates);
    assert vector != [];
    FusedIsPermutation(c, lexical, vector);
    UnionIs(lexical, vector);
    OrdersAreTotal(c, lexical, vector);
    assert a in r && b in r && Before(r, a, b);
    SortedBefore(Union(lexical, vector), le, a, b);
    UnionBefore(c, candidates, a, b);
    RankIsScorePlace(c, candidates, a);
    RankIsScorePlace(c, candidates, b);
    RankIsSimilarityPlace(c, candidates, a);
    RankIsSimilarityPlace(c, candidates, b);
  }

  /** Without any document vector the vectors of the query change nothing. */
  lemma NoVectorsNoChange(c: Corpus, candidates: seq<Id>)
    requires Distinct(candidates) && forall x :: x in candidates ==> c.similarity(x).None?
    ensures Results(c, candidates, true) == Results(c, candidates, false)
  {
    hide Lexical;
    VectorRankedIs(c, candidates);
    assert forall i :: 0 <= i < |VectorRanked(c, candidates)| ==> VectorRanked(c, candidates)[i] in candidates;
  }

  /** Better or equal in both and strictly in one, a candidate is worth more. */
  lemma PlacesDecide(c: Corpus, candidates: seq<Id>, a: Id, b: Id)
    requires ScorePlace(c, candidates, a) < ScorePlace(c, candidates, b)
    requires SimilarityPlace(c, candidates, a) < SimilarityPlace(c, candidates, b)
    ensures Worth(c, candidates, a) > Worth(c, candidates, b)
  {
    hide ScorePlace, SimilarityPlace;
    InverseFalls(ScorePlace(c, candidates, a), ScorePlace(c, candidates, b));
    InverseFalls(SimilarityPlace(c, candidates, a), SimilarityPlace(c, candidates, b));
  }

  lemma AheadIsPlaced(c: Corpus, candidates: seq<Id>, a: Id, b: Id)
    requires Distinct(candidates) && a in candidates && b in candidates
    ensures c.score(a) > 0.0 && c.score(a) > c.score(b) ==>
              ScorePlace(c, candidates, a) < ScorePlace(c, candidates, b)
    ensures c.similarity(a).Some? && (c.similarity(b).None? || c.similarity(a).value > c.similarity(b).value) ==>
              SimilarityPlace(c, candidates, a) < SimilarityPlace(c, candidates, b)
  {
    if c.score(a) > 0.0 && c.score(a) > c.score(b) {
      var s := set y | y in candidates && c.score(y) > 0.0 && (c.score(a) <= 0.0 || ScoreAhead(c, candidates, y, a));
      var t := set y | y in candidates && c.score(y) > 0.0 && (c.score(b) <= 0.0 || ScoreAhead(c, candidates, y, b));
      assert a in t && a !in s && s <= t;
      StrictSubsetSize(s, t, a);
      assert ScorePlace(c, candidates, a) == 1 + |s| && ScorePlace(c, candidates, b) == 1 + |t|;
    }
    if c.similarity(a).Some? && (c.similarity(b).None? || c.similarity(a).value > c.similarity(b).value) {
      var s := set y | y in candidates && c.similarity(y).Some?
                       && (c.similarity(a).None? || SimilarityAhead(c, candidates, y, a));
      var t := set y | y in candidates && c.similarity(y).Some?
                       && (c.similarity(b).None? || SimilarityAhead(c, candidates, y, b));
      assert a in t && a !in s && s <= t;
      StrictSubsetSize(s, t, a);
      assert SimilarityPlace(c, candidates, a) == 1 + |s| && SimilarityPlace(c, candidates, b) == 1 + |t|;
    }
  }

  lemma StrictSubsetSize<T>(s: set<T>, t: set<T>, a: T)
    requires s <= t && a in t && a !in s
    ensures |s| < |t|
  {
    assert t == s + (t - s) && |t| == |s| + |t - s| && a in t - s;
  }

  /** So a candidate that beats another in both score and similarity comes before it. */
  lemma BetterInBothComesFirst(c: Corpus, candidates: seq<Id>, i: nat, j: nat)
    requires Distinct(candidates) && i < |Results(c, candidates, true)| && j < |Results(c, candidates, true)|
    requires var a, b := Results(c, candidates, true)[i], Results(c, candidates, true)[j];
             && c.score(a) > 0.0 && c.score(a) > c.score(b)
             && c.similarity(a).Some? && (c.similarity(b).None? || c.similarity(a).value > c.similarity(b).value)
    ensures i < j
  {
    hide Results, ScorePlace, SimilarityPlace, Worth;
    var r := Results(c, candidates, true);
    ResultsAreExact(c, candidates, true);
    assert r[i] in r && r[j] in r;
    AheadIsPlaced(c, candidates, r[i], r[j]);
    PlacesDecide(c, candidates, r[i], r[j]);
    if j < i { FusedOrderIsExact(c, candidates, j, i); }
  }
}
