/**
 A process that has loaded its store: the stored bindings folded, the stored entries bound to them. All that is proved
 of runs holds of runs that start there, and a proof outlives the restart.
 */
module CatalogLoaded {
  import opened Catalog
  import opened CatalogBadges
  import opened CatalogOverlaps
  import opened CatalogProbes
  import opened CatalogRuns
  import opened CatalogServing
  import LoadFold

  /** `derive` spells a stored key again. */
  function Loaded(derive: Key -> Key, bindings: seq<LoadFold.Binding>, rows: seq<Row>): Machine {
    var f := LoadFold.Fold(derive, bindings);
    Machine(Reload(f.ownership, f.verified, rows), [])
  }

  // ---- What a load keeps ----

  /** The options that pay one of these owners, in their order. */
  ghost function PayingOwners(accepts: seq<Accept>, owners: seq<Address>): seq<Accept> {
    if accepts == [] then []
    else
      var last := accepts[|accepts| - 1];
      PayingOwners(accepts[..|accepts| - 1], owners) + if last.payTo in owners then [last] else []
  }

  /** Row `i` is the one a key is loaded from: the newest of its rows, and the first of the newest. */
  ghost predicate Freshest(rows: seq<Row>, k: Key, i: int) {
    && 0 <= i < |rows| && rows[i].key == k
    && forall j :: 0 <= j < |rows| && rows[j].key == k ==>
         rows[j].lastUpdated <= rows[i].lastUpdated && (j < i ==> rows[j].lastUpdated < rows[i].lastUpdated)
  }

  lemma {:induction false} KeptPays(accepts: seq<Accept>, owners: seq<Address>)
    ensures Kept(accepts, owners) == PayingOwners(accepts, owners)
  {
    if accepts == [] {
    } else {
      KeptPays(accepts[1..], owners);
      PayingCons(accepts[0], accepts[1..], owners);
      assert accepts == [accepts[0]] + accepts[1..];
    }
  }

  lemma {:induction false} PayingCons(a: Accept, rest: seq<Accept>, owners: seq<Address>)
    ensures PayingOwners([a] + rest, owners) == (if a.payTo in owners then [a] else []) + PayingOwners(rest, owners)
  {
    if rest == [] {
      assert [a] + rest == [a] && [a][..0] == [];
    } else {
      var init, last := rest[..|rest| - 1], rest[|rest| - 1];
      PayingCons(a, init, owners);
      assert ([a] + rest)[..|rest|] == [a] + init && ([a] + rest)[|rest|] == last;
    }
  }

  lemma RowIsBound(r: Row, ownership: map<Key, seq<Address>>)
    ensures var owners := if r.key in ownership then ownership[r.key] else [];
            BindLoadedEntry(r, ownership) ==
              Entry(owners, false, PayingOwners(r.accepts, owners), r.lastUpdated)
  {
    KeptPays(r.accepts, if r.key in ownership then ownership[r.key] else []);
    NobodyIsPaid(r.accepts);
  }

  lemma {:induction false} NobodyIsPaid(accepts: seq<Accept>)
    ensures PayingOwners(accepts, []) == []
  {
    if accepts == [] {
    } else {
      NobodyIsPaid(accepts[..|accepts| - 1]);
    }
  }

  /**
   A load, exactly. A key is listed if and only if some stored row has it. Its entry is the freshest such row's: the
   owners are the binding's, the badge is down, and the options are those of that row that pay an owner, all of them
   and in their order; without a binding there are none.
   */
  lemma {:induction false} LoadIsExact(rows: seq<Row>, ownership: map<Key, seq<Address>>, k: Key) returns (i: int)
    ensures var at := LoadRows(rows, ownership).at; var owners := if k in ownership then ownership[k] else [];
            && (k in at <==> exists j :: 0 <= j < |rows| && rows[j].key == k)
            && (k in at ==>
                  && Freshest(rows, k, i)
                  && at[k] == Entry(owners, false, PayingOwners(rows[i].accepts, owners), rows[i].lastUpdated))
  {
    i := -1;
    if rows == [] {
    } else {
      hide BindLoadedEntry, PayingOwners;
      var init, r := rows[..|rows| - 1], rows[|rows| - 1];
      i := LoadIsExact(init, ownership, k);
      RowIsBound(r, ownership);
      assert forall j :: 0 <= j < |init| ==> init[j] == rows[j];
      var before := LoadRows(init, ownership).at;
      assert LoadRows(rows, ownership) == LoadRow(LoadRows(init, ownership), r, ownership);
      if r.key == k {
        assert rows[|rows| - 1].key == k;
        if k !in before || before[k].lastUpdated < r.lastUpdated { i := |rows| - 1; }
      }
    }
  }

  lemma {:induction false} NoBadgeIsLoaded(rows: seq<Row>, ownership: map<Key, seq<Address>>)
    ensures forall k :: k in LoadRows(rows, ownership).at ==> !LoadRows(rows, ownership).at[k].verifiedOwner
  {
    if rows == [] {
    } else {
      NoBadgeIsLoaded(rows[..|rows| - 1], ownership);
    }
  }

  lemma {:induction false} ProvenIsBound(derive: Key -> Key, bindings: seq<LoadFold.Binding>)
    ensures forall k :: k in LoadFold.Fold(derive, bindings).verified ==>
              k in LoadFold.Fold(derive, bindings).ownership
  {
    if bindings == [] {
    } else {
      ProvenIsBound(derive, bindings[..|bindings| - 1]);
    }
  }

  /**
   Whatever the store holds, a loaded process is a start: it has every invariant that is kept from there on, its badges
   included, over any set of keys that holds the loaded ones.
   */
  lemma LoadedIsStart(w: World, derive: Key -> Key, bindings: seq<LoadFold.Binding>, rows: seq<Row>, keys: set<Key>)
    ensures var m := Loaded(derive, bindings, rows);
            Inv(m) && PayeeInv(m) && AllStand(m) && Tracked(m) && (KeysWithin(m.s, keys) ==> BadgeInv(w, m, keys))
  {
    hide LoadRows, LoadFold.Fold;
    var f := LoadFold.Fold(derive, bindings);
    ProvenIsBound(derive, bindings);
    ReloadIsServed(f.ownership, f.verified, rows);
    NothingIsTracked(Reload(f.ownership, f.verified, rows));
  }

  lemma ReloadIsServed(ownership: map<Key, seq<Address>>, verified: set<Key>, rows: seq<Row>)
    requires forall k :: k in verified ==> k in ownership
    ensures var s := Reload(ownership, verified, rows); Sound(s) && Served(s) && BadgesLatched(s)
  {
    hide LoadRows;
    LoadServes(rows, ownership);
    NoBadgeIsLoaded(rows, ownership);
  }

  lemma NothingIsTracked(s: State)
    requires s.verifyInFlight == {} && s.displaceInFlight == {}
    ensures Tracked(Machine(s, []))
  {
  }

  /**
   A proof outlives restarts: a key of which one stored binding was proven is, at every moment of every run of the new
   process, proven and owned by whom a proven stored binding says.
   */
  lemma ProofOutlivesRestart(w: World, derive: Key -> Key, bindings: seq<LoadFold.Binding>, rows: seq<Row>,
                             run: seq<Event>, k: Key) returns (i: int)
    requires LoadFold.AnyProven(derive, bindings, k)
    ensures LoadFold.For(derive, bindings, k, i) && bindings[i].everVerified
    ensures var s := Exec(w, Loaded(derive, bindings, rows), run).s;
            k in s.everVerified && k in s.ownership && s.ownership[k] == bindings[i].boundPayTo
  {
    hide Step, LoadRows, LoadFold.Fold;
    var m := Loaded(derive, bindings, rows);
    i := LoadFold.FoldIsExact(derive, bindings, k);
    LoadedIsStart(w, derive, bindings, rows, {});
    ProvenIsBound(derive, bindings);
    assert run[..0] == [] && Exec(w, m, []) == m;
    LatchIsForGood(w, m, run, 0, k);
  }
}
