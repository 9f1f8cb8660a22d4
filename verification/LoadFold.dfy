/**
 Re-canonicalising stored bindings at load. Two stored keys may be spelled again as one; one of the two bindings is kept
 and the other dropped.
 */
module LoadFold {
  import opened OwnershipStore

  type Binding = StoredOwnership

  datatype Folded = Folded(ownership: map<Key, seq<Address>>, boundAt: map<Key, int>, verified: set<Key>)

  /** Whether an incoming binding replaces the one kept so far for its key. */
  predicate IncomingWins(f: Folded, b: Binding, key: Key) {
    if b.everVerified != (key in f.verified) then b.everVerified
    else if b.resourceKey == key then true
    else b.boundAt < (if key in f.boundAt then f.boundAt[key] else 0)
  }

  function FoldOne(derive: Key -> Key, f: Folded, b: Binding): Folded {
    var key := derive(b.resourceKey);
    var verified := if b.everVerified then f.verified + {key} else f.verified;
    if key !in f.ownership || IncomingWins(f, b, key)
    then Folded(f.ownership[key := b.boundPayTo], f.boundAt[key := b.boundAt], verified)
    else Folded(f.ownership, f.boundAt, verified)
  }

  function Fold(derive: Key -> Key, bs: seq<Binding>): Folded {
    if bs == [] then Folded(map[], map[], {}) else FoldOne(derive, Fold(derive, bs[..|bs| - 1]), bs[|bs| - 1])
  }

  /** Binding `i` is stored for `k`. */
  ghost predicate For(derive: Key -> Key, bs: seq<Binding>, k: Key, i: int) {
    0 <= i < |bs| && derive(bs[i].resourceKey) == k
  }

  ghost predicate AnyProven(derive: Key -> Key, bs: seq<Binding>, k: Key) {
    exists i :: For(derive, bs, k, i) && bs[i].everVerified
  }

  /** Binding `i` is one of those that compete for `k`: the proven ones if any is, else all. */
  ghost predicate Competes(derive: Key -> Key, bs: seq<Binding>, k: Key, i: int) {
    For(derive, bs, k, i) && bs[i].everVerified == AnyProven(derive, bs, k)
  }

  /** Nothing after `i` displaces it, and everything before it was displaced on the way. */
  ghost predicate Wins(derive: Key -> Key, bs: seq<Binding>, k: Key, i: int) {
    && Competes(derive, bs, k, i)
    && (forall j :: j > i && Competes(derive, bs, k, j) ==> bs[j].resourceKey != k && bs[j].boundAt >= bs[i].boundAt)
    && (forall j :: j < i && Competes(derive, bs, k, j) ==>
          || bs[i].boundAt < bs[j].boundAt
          || exists c :: j < c <= i && Competes(derive, bs, k, c) && bs[c].resourceKey == k)
  }

  /** There is never more than one winner, so the owner list is one binding's list and never a union. */
  lemma WinnerIsUnique(derive: Key -> Key, bs: seq<Binding>, k: Key, i: int, j: int)
    requires Wins(derive, bs, k, i) && Wins(derive, bs, k, j)
    ensures i == j
  {
    var a, b := if i < j then i else j, if i < j then j else i;
    assert Wins(derive, bs, k, a) && Wins(derive, bs, k, b);
  }

  ghost predicate KeptIs(f: Folded, k: Key, b: Binding) {
    k in f.ownership && k in f.boundAt && f.ownership[k] == b.boundPayTo && f.boundAt[k] == b.boundAt
  }

  lemma PrefixFacts(derive: Key -> Key, bs: seq<Binding>, b: Binding, k: Key)
    ensures forall i :: 0 <= i < |bs| ==> (bs + [b])[i] == bs[i]
    ensures forall i :: For(derive, bs + [b], k, i) <==>
                        For(derive, bs, k, i) || (i == |bs| && derive(b.resourceKey) == k)
    ensures AnyProven(derive, bs + [b], k) <==>
              AnyProven(derive, bs, k) || (derive(b.resourceKey) == k && b.everVerified)
  {
    var all := bs + [b];
    if AnyProven(derive, bs, k) {
      var i :| For(derive, bs, k, i) && bs[i].everVerified;
      assert For(derive, all, k, i) && all[i].everVerified;
    }
    if derive(b.resourceKey) == k && b.everVerified { assert For(derive, all, k, |bs|) && all[|bs|].everVerified; }
  }

  /** A binding that wins still wins when one more comes that does not displace it. */
  lemma KeepsWinning(derive: Key -> Key, bs: seq<Binding>, b: Binding, k: Key, i: int)
    requires Wins(derive, bs, k, i) && AnyProven(derive, bs + [b], k) == AnyProven(derive, bs, k)
    requires derive(b.resourceKey) == k && b.everVerified == AnyProven(derive, bs, k) ==>
               b.resourceKey != k && b.boundAt >= bs[i].boundAt
    ensures Wins(derive, bs + [b], k, i)
  {
    PrefixFacts(derive, bs, b, k);
    var all := bs + [b];
    forall j | j < i && Competes(derive, all, k, j)
      ensures || all[i].boundAt < all[j].boundAt
              || exists c :: j < c <= i && Competes(derive, all, k, c) && all[c].resourceKey == k
    {
      assert Competes(derive, bs, k, j);
      if bs[i].boundAt >= bs[j].boundAt {
        var c :| j < c <= i && Competes(derive, bs, k, c) && bs[c].resourceKey == k;
        assert Competes(derive, all, k, c);
      }
    }
  }

  /** A new binding that displaces the winner wins. */
  lemma NewWins(derive: Key -> Key, bs: seq<Binding>, b: Binding, k: Key, i: int)
    requires derive(b.resourceKey) == k && b.everVerified == AnyProven(derive, bs + [b], k)
    requires AnyProven(derive, bs + [b], k) == AnyProven(derive, bs, k) && For(derive, bs, k, i) ==>
               Wins(derive, bs, k, i) && (b.resourceKey == k || b.boundAt < bs[i].boundAt)
    requires AnyProven(derive, bs + [b], k) == AnyProven(derive, bs, k) && !For(derive, bs, k, i) ==>
               forall j :: !For(derive, bs, k, j)
    ensures Wins(derive, bs + [b], k, |bs|)
  {
    PrefixFacts(derive, bs, b, k);
    var all, n := bs + [b], |bs|;
    assert Competes(derive, all, k, n);
    forall j | j < n && Competes(derive, all, k, j)
      ensures || all[n].boundAt < all[j].boundAt
              || exists c :: j < c <= n && Competes(derive, all, k, c) && all[c].resourceKey == k
    {
      assert For(derive, bs, k, j);
      assert bs[j].everVerified ==> AnyProven(derive, bs, k);
      if AnyProven(derive, all, k) == AnyProven(derive, bs, k) && b.resourceKey != k {
        assert Competes(derive, bs, k, j);
        if j < i && bs[i].boundAt >= bs[j].boundAt {
          var c :| j < c <= i && Competes(derive, bs, k, c) && bs[c].resourceKey == k;
          assert Competes(derive, all, k, c);
        }
      }
    }
  }

  /**
   The fold, exactly. A key is bound if and only if some stored binding is spelled again as it, proven if and only if
   one of those is; and its owner list is that of the one winner among them, which is a proven one whenever there is
   one.
   */
  lemma {:induction false} FoldIsExact(derive: Key -> Key, bs: seq<Binding>, k: Key) returns (i: int)
    ensures var f := Fold(derive, bs);
            && (k in f.ownership <==> exists j :: For(derive, bs, k, j))
            && (k in f.verified <==> AnyProven(derive, bs, k))
            && (k in f.ownership ==> Wins(derive, bs, k, i) && KeptIs(f, k, bs[i]))
  {
    i := -1;
    if bs == [] {
    } else {
      var init, b := bs[..|bs| - 1], bs[|bs| - 1];
      assert bs == init + [b];
      var before := Fold(derive, init);
      i := FoldIsExact(derive, init, k);
      PrefixFacts(derive, init, b, k);
      if derive(b.resourceKey) != k {
        if k in before.ownership { KeepsWinning(derive, init, b, k, i); }
      } else {
        assert For(derive, bs, k, |init|);
        if k !in before.ownership || IncomingWins(before, b, k) {
          NewWins(derive, init, b, k, i);
          i := |init|;
        } else {
          KeepsWinning(derive, init, b, k, i);
        }
      }
    }
  }

  /**
   What the rule "a row already stored under the canonical spelling wins" comes to. With one row per stored key, the
   canonical one among those that compete is kept if and only if no later one that competes was bound before it.
   */
  lemma CanonicalSpellingWinsExactly(derive: Key -> Key, bs: seq<Binding>, k: Key, c: int)
    requires forall i, j :: 0 <= i < j < |bs| ==> bs[i].resourceKey != bs[j].resourceKey
    requires Competes(derive, bs, k, c) && bs[c].resourceKey == k
    ensures Wins(derive, bs, k, c) <==>
            forall j :: j > c && Competes(derive, bs, k, j) ==> bs[j].boundAt >= bs[c].boundAt
  {
    if forall j :: j > c && Competes(derive, bs, k, j) ==> bs[j].boundAt >= bs[c].boundAt {
      forall j | j > c && Competes(derive, bs, k, j) ensures bs[j].resourceKey != k {
        assert bs[c].resourceKey != bs[j].resourceKey;
      }
    }
  }

  /** So a binding stored under the canonical spelling can lose to another spelling's, bound earlier but read later. */
  lemma CanonicalSpellingCanLose()
    ensures exists derive: Key -> Key, bs: seq<Binding>, k ::
              && |bs| == 2 && bs[0].resourceKey == k && derive(k) == k && bs[1].resourceKey != k
              && k in Fold(derive, bs).ownership && Fold(derive, bs).ownership[k] == bs[1].boundPayTo
              && bs[1].boundPayTo != bs[0].boundPayTo
  {
    var derive := (s: Key) => "a";
    var b0, b1 := StoredOwnership("a", ["owner"], 2, false), StoredOwnership("b", ["other"], 1, false);
    var bs := [b0, b1];
    assert bs[..1] == [b0] && [b0][..0] == [];
    assert Fold(derive, []) == Folded(map[], map[], {});
    assert Fold(derive, [b0]) == Folded(map["a" := ["owner"]], map["a" := 2], {});
    assert Fold(derive, bs).ownership["a"] == bs[1].boundPayTo;
    assert bs[1].boundPayTo[0] != bs[0].boundPayTo[0];
  }

  /** The loop over the stored bindings. */
  method FoldBindings(derive: Key -> Key, bindings: seq<Binding>)
    returns (ownership: map<Key, seq<Address>>, boundAt: map<Key, int>, verified: set<Key>)
    ensures Folded(ownership, boundAt, verified) == Fold(derive, bindings)
  {
    ownership, boundAt, verified := map[], map[], {};
    for i := 0 to |bindings|
      invariant Folded(ownership, boundAt, verified) == Fold(derive, bindings[..i])
    {
      var b := bindings[i];
      assert bindings[..i + 1][..i] == bindings[..i];
      var key := derive(b.resourceKey);
      if key !in ownership {
        ownership := ownership[key := b.boundPayTo];
        boundAt := boundAt[key := b.boundAt];
        if b.everVerified { verified := verified + {key}; }
      } else {
        var existingVerified := key in verified;
        var incomingWins :=
          if b.everVerified != existingVerified then b.everVerified
          else if b.resourceKey == key then true
          else b.boundAt < (if key in boundAt then boundAt[key] else 0);
        if incomingWins {
          ownership := ownership[key := b.boundPayTo];
          boundAt := boundAt[key := b.boundAt];
        }
        if b.everVerified || existingVerified { verified := verified + {key}; }
      }
    }
    assert bindings[..|bindings|] == bindings;
  }
}
