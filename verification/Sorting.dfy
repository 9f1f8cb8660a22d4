/** A stable sort, as the language's own `sort` and SQL's ORDER BY with a row-id tie-break are. */
module Sorting {

  ghost predicate TotalPreorder<T(!new)>(le: (T, T) -> bool) {
    && (forall x, y :: le(x, y) || le(y, x))
    && (forall x, y, z :: le(x, y) && le(y, z) ==> le(x, z))
  }

  ghost predicate Sorted<T>(xs: seq<T>, le: (T, T) -> bool) {
    forall i, j :: 0 <= i < j < |xs| ==> le(xs[i], xs[j])
  }

  /** `x` goes after everything that may stand before it. */
  function Insert<T>(x: T, xs: seq<T>, le: (T, T) -> bool): (r: seq<T>)
    ensures |r| == |xs| + 1
  {
    if xs == [] then [x]
    else
      var last := xs[|xs| - 1];
      if le(last, x) then xs + [x] else Insert(x, xs[..|xs| - 1], le) + [last]
  }

  function Sort<T>(xs: seq<T>, le: (T, T) -> bool): (r: seq<T>)
    ensures |r| == |xs|
  {
    if xs == [] then [] else Insert(xs[|xs| - 1], Sort(xs[..|xs| - 1], le), le)
  }

  lemma {:induction false} InsertHolds<T(!new)>(x: T, xs: seq<T>, le: (T, T) -> bool)
    ensures multiset(Insert(x, xs, le)) == multiset(xs) + multiset{x}
  {
    if xs == [] {
    } else {
      var init, last := xs[..|xs| - 1], xs[|xs| - 1];
      assert xs == init + [last];
      InsertHolds(x, init, le);
    }
  }

  lemma {:induction false} InsertSorts<T(!new)>(x: T, xs: seq<T>, le: (T, T) -> bool)
    requires TotalPreorder(le) && Sorted(xs, le)
    ensures Sorted(Insert(x, xs, le), le)
    ensures multiset(Insert(x, xs, le)) == multiset(xs) + multiset{x}
  {
    InsertHolds(x, xs, le);
    if xs == [] {
    } else {
      var init, last := xs[..|xs| - 1], xs[|xs| - 1];
      if !le(last, x) {
        InsertSorts(x, init, le);
        var r := Insert(x, init, le);
        forall i | 0 <= i < |r| ensures le(r[i], last) {
          assert r[i] in multiset(r);
          assert r[i] == x || r[i] in init;
        }
      }
    }
  }

  lemma {:induction false} SortSorts<T(!new)>(xs: seq<T>, le: (T, T) -> bool)
    requires TotalPreorder(le)
    ensures Sorted(Sort(xs, le), le) && multiset(Sort(xs, le)) == multiset(xs)
  {
    if xs == [] {
    } else {
      SortSorts(xs[..|xs| - 1], le);
      InsertSorts(xs[|xs| - 1], Sort(xs[..|xs| - 1], le), le);
      assert xs == xs[..|xs| - 1] + [xs[|xs| - 1]];
    }
  }

  ghost predicate Distinct<T>(xs: seq<T>) {
    forall i, j :: 0 <= i < j < |xs| ==> xs[i] != xs[j]
  }

  function Without<K(==, !new)>(ks: seq<K>, k: K): (r: seq<K>)
    ensures forall x :: x in r <==> x in ks && x != k
  {
    if ks == [] then []
    else
      var last := ks[|ks| - 1];
      var rest := Without(ks[..|ks| - 1], k);
      assert ks == ks[..|ks| - 1] + [last];
      if last == k then rest else rest + [last]
  }

  lemma {:induction false} WithoutRemovesOne<K(!new)>(ks: seq<K>, k: K)
    requires Distinct(ks)
    ensures Distinct(Without(ks, k)) && |Without(ks, k)| == |ks| - if k in ks then 1 else 0
    ensures k !in ks ==> Without(ks, k) == ks
  {
    if ks == [] {
    } else {
      var init, last := ks[..|ks| - 1], ks[|ks| - 1];
      assert ks == init + [last];
      WithoutRemovesOne(init, k);
      assert forall i :: 0 <= i < |Without(init, k)| ==> Without(init, k)[i] in init;
      assert last !in init;
    }
  }

  lemma {:induction false} SizeOfDistinct<T>(xs: seq<T>)
    requires Distinct(xs)
    ensures |set y | y in xs| == |xs|
  {
    if xs == [] {
    } else {
      var init, last := xs[..|xs| - 1], xs[|xs| - 1];
      SizeOfDistinct(init);
      assert xs == init + [last] && last !in init;
      assert (set y | y in xs) == (set y | y in init) + {last};
    }
  }

  lemma {:induction false} SubsetSize<T>(a: set<T>, b: set<T>)
    requires a <= b
    ensures |a| <= |b|
  {
    if a == {} {
    } else {
      var x :| x in a;
      SubsetSize(a - {x}, b - {x});
    }
  }

  lemma SameMultisetSameElements<T>(xs: seq<T>, ys: seq<T>)
    requires multiset(xs) == multiset(ys)
    ensures forall x :: x in xs <==> x in ys
  {
    forall x ensures x in xs <==> x in ys {
      assert x in xs <==> x in multiset(xs);
      assert x in ys <==> x in multiset(ys);
    }
  }

  lemma {:induction false} DistinctCounts<T>(xs: seq<T>)
    ensures Distinct(xs) <==> forall x :: multiset(xs)[x] <= 1
  {
    if xs == [] {
    } else {
      var init, last := xs[..|xs| - 1], xs[|xs| - 1];
      DistinctCounts(init);
      assert xs == init + [last];
      assert multiset(xs) == multiset(init) + multiset{last};
      if Distinct(xs) {
        assert Distinct(init);
        assert last !in init;
        assert multiset(init)[last] == 0;
      }
      if forall x :: multiset(xs)[x] <= 1 {
        assert multiset(xs)[last] <= 1;
        forall x ensures multiset(init)[x] <= 1 { assert multiset(xs)[x] <= 1; }
        assert multiset(init)[last] == 0;
        assert last !in init;
      }
    }
  }

  lemma SameMultisetDistinct<T>(xs: seq<T>, ys: seq<T>)
    requires multiset(xs) == multiset(ys) && Distinct(xs)
    ensures Distinct(ys)
  {
    DistinctCounts(xs);
    DistinctCounts(ys);
  }

  lemma {:induction false} InsertAgrees<T(!new)>(x: T, xs: seq<T>, le: (T, T) -> bool, other: (T, T) -> bool)
    requires forall y :: y in xs ==> le(y, x) == other(y, x)
    ensures Insert(x, xs, le) == Insert(x, xs, other)
  {
    if xs == [] {
    } else {
      InsertAgrees(x, xs[..|xs| - 1], le, other);
    }
  }

  /** Sorting asks nothing of the order but how it compares the elements. */
  lemma {:induction false} SortAgrees<T(!new)>(xs: seq<T>, le: (T, T) -> bool, other: (T, T) -> bool)
    requires TotalPreorder(le) && forall x, y :: x in xs && y in xs ==> le(x, y) == other(x, y)
    ensures Sort(xs, le) == Sort(xs, other)
  {
    if xs == [] {
    } else {
      var init := xs[..|xs| - 1];
      SortAgrees(init, le, other);
      SortSorts(init, le);
      SameMultisetSameElements(init, Sort(init, le));
      InsertAgrees(xs[|xs| - 1], Sort(init, le), le, other);
    }
  }
}
