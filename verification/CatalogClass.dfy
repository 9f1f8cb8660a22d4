/** The catalog object: its maps and sets updated in place. A method that waits is one method for each stretch. */
module CatalogClass {
  import opened Basics
  import opened OrderedMaps
  import opened Sorting
  import opened Catalog
  import opened CatalogRuns
  import opened CatalogServing

  class BazaarCatalog {
    const w: World
    var entries: OrderedMap<Key, Entry>
    var ownership: map<Key, seq<Address>>
    var everVerified: set<Key>
    var frozen: Frozen
    var verifyState: map<Key, Probe>
    var verifyInFlight: set<Key>
    var displaceState: map<(Key, Address), Probe>
    var displaceInFlight: set<(Key, Address)>

    ghost function Abs(): State
      reads this
    {
      State(entries, ownership, everVerified, frozen, verifyState, verifyInFlight, displaceState, displaceInFlight)
    }

    constructor (w: World)
      ensures this.w == w && Abs() == FRESH
    {
      this.w := w;
      entries, ownership, everVerified, frozen := OrderedMap([], map[]), map[], {}, NotFrozen;
      verifyState, verifyInFlight, displaceState, displaceInFlight := map[], {}, map[], {};
    }

    method DoEvictToCap()
      modifies this`entries
      ensures entries == EvictToCap(old(entries), MAX_ENTRIES)
    {
      hide Sort;
      if |entries.keys| <= MAX_ENTRIES { return; }
      var byAge := Sort(entries.keys, ByAge(entries.at));
      var toDrop := |entries.keys| - MAX_ENTRIES;
      var i := 0;
      while i < |byAge|
        invariant 0 <= i <= |byAge| && 0 <= toDrop && i + toDrop == |old(entries).keys| - MAX_ENTRIES
        invariant i <= |old(entries).keys| - MAX_ENTRIES
        invariant entries == DropAll(old(entries), byAge[..i])
      {
        if toDrop <= 0 { break; }
        toDrop := toDrop - 1;
        assert byAge[..i + 1][..i] == byAge[..i];
        entries := Drop(entries, byAge[i]);
        i := i + 1;
      }
    }

    method DoBindOwnership(k: Key, p: Address, written: bool) returns (bound: bool)
      modifies this`ownership, this`frozen
      ensures (Abs(), bound) == BindOwnership(old(Abs()), k, p, written)
    {
      if k in ownership { return true; }
      if |ownership| >= MAX_TOMBSTONES {
        if frozen != TombstoneCap { frozen := TombstoneCap; }
        return false;
      }
      if !written { return false; }
      ownership := ownership[k := [p]];
      return true;
    }

    method DoBeginUpsert(o: Offer) returns (begun: Begun)
      modifies this
      ensures (Abs(), begun) == BeginUpsert(old(Abs()), o)
    {
      if o.key.None? { return Done(Rejected(InvalidToolName)); }
      var k := o.key.value;
      if !o.routable { return Done(Rejected(UnroutableUrl)); }
      if o.payTo.None? { return Done(Rejected(InvalidPayTo)); }
      var p := o.payTo.value;
      var existing := k in entries.at;
      if !existing && k in ownership && p !in ownership[k] { return Done(Rejected(TombstoneMismatch)); }
      if existing && p !in entries.at[k].boundPayTo { return Done(Rejected(UnboundPayTo)); }
      var accepts := if existing then entries.at[k].accepts else [];
      if Accept(p, o.terms) !in accepts && |accepts| < MAX_ACCEPTS { accepts := accepts + [Accept(p, o.terms)]; }
      if !o.schemaOk { return Done(Rejected(SchemaFailed)); }
      var candidate := Entry(if existing then entries.at[k].boundPayTo else [p],
                             existing && entries.at[k].verifiedOwner, accepts, o.at);
      if !existing {
        if frozen == OwnershipUnreachable || frozen == OwnershipInvalid { return Done(Rejected(BindingRefused)); }
        var bound := DoBindOwnership(k, p, o.written);
        return if bound then Waiting(Pending(k, p, candidate)) else Done(Rejected(BindingRefused));
      }
      entries := Put(entries, k, candidate);
      DoEvictToCap();
      return Done(Cataloged(false));
    }

    method DoEndUpsert(p: Pending)
      modifies this`entries
      ensures Abs() == EndUpsert(old(Abs()), p)
    {
      var bound := if p.key in ownership then ownership[p.key] else [p.payTo];
      entries := Put(entries, p.key, p.candidate.(boundPayTo := bound));
      DoEvictToCap();
    }

    method DoUpsert(o: Offer) returns (r: Outcome)
      modifies this
      ensures (Abs(), r) == Upsert(old(Abs()), o)
    {
      hide BeginUpsert, EndUpsert;
      var begun := DoBeginUpsert(o);
      match begun {
        case Done(outcome) => return outcome;
        case Waiting(p) =>
          DoEndUpsert(p);
          return Cataloged(true);
      }
    }

    method DoSetVerifiedOwner(k: Key)
      modifies this`entries
      ensures Abs() == SetVerified(w, old(Abs()), k)
    {
      var c := w.canon(k);
      if c.None? || c.value !in entries.at { return; }
      var entry := entries.at[c.value];
      if entry.verifiedOwner {
        assert entries.at[c.value := entry.(verifiedOwner := true)] == entries.at;
        return;
      }
      entries := Put(entries, c.value, entry.(verifiedOwner := true));
    }

    method DoBeginReverify(k: Key, settler: Address, now: int) returns (probing: bool)
      modifies this`verifyInFlight
      ensures (Abs(), probing) == BeginReverify(w, old(Abs()), k, settler, now)
    {
      if k !in entries.at || entries.at[k].verifiedOwner || entries.at[k].boundPayTo == [] { return false; }
      if settler == "" || settler !in entries.at[k].boundPayTo || w.templated(k) { return false; }
      if k in verifyInFlight { return false; }
      if k in verifyState && now - verifyState[k].at < CooldownFor(verifyState[k].verdict) { return false; }
      verifyInFlight := verifyInFlight + {k};
      return true;
    }

    method DoEndReverify(k: Key, now: int, a: Answer)
      modifies this
      ensures Abs() == EndReverify(w, old(Abs()), k, now, a)
    {
      match a {
        case Threw =>
          verifyState := verifyState[k := Probe(Unverifiable, now)];
          verifyInFlight := verifyInFlight - {k};
        case Said(v) =>
          verifyState := verifyState[k := Probe(v, now)];
          if v == Match {
            DoSetVerifiedOwner(k);
            everVerified := everVerified + {k};
          } else {
            verifyInFlight := verifyInFlight - {k};
          }
      }
    }

    method DoBootCandidates() returns (candidates: seq<Key>)
      ensures candidates == BootCandidates(w, Abs(), entries.keys)
    {
      candidates := [];
      for i := 0 to |entries.keys|
        invariant candidates + BootCandidates(w, Abs(), entries.keys[i..]) == BootCandidates(w, Abs(), entries.keys)
      {
        var k := entries.keys[i];
        assert entries.keys[i..][1..] == entries.keys[i + 1..];
        if k in entries.at && k in everVerified && !entries.at[k].verifiedOwner
           && entries.at[k].boundPayTo != [] && !w.templated(k) && k !in verifyInFlight {
          candidates := candidates + [k];
        }
      }
    }

    method DoBeginDisplace(key: Option<Key>, claimant: Address, now: int) returns (probing: bool)
      modifies this`displaceInFlight
      ensures (Abs(), probing) == BeginDisplace(w, old(Abs()), key, claimant, now)
    {
      if key.None? { return false; }
      var k := key.value;
      if k !in entries.at || claimant == "" || claimant in entries.at[k].boundPayTo { return false; }
      if k in everVerified || entries.at[k].boundPayTo == [] || w.templated(k) { return false; }
      if frozen == OwnershipUnreachable || frozen == OwnershipInvalid { return false; }
      if (k, claimant) in displaceInFlight { return false; }
      if (k, claimant) in displaceState
         && now - displaceState[(k, claimant)].at < CooldownFor(displaceState[(k, claimant)].verdict) { return false; }
      displaceInFlight := displaceInFlight + {(k, claimant)};
      return true;
    }

    method DoEndDisplace(k: Key, o: Offer, claimant: Address, now: int, a: Answer) returns (d: Displacement)
      modifies this
      ensures (Abs(), d) == EndDisplace(old(Abs()), k, o, claimant, now, a)
    {
      hide BeginUpsert;
      var verdict := if a.Said? then a.verdict else Unverifiable;
      displaceInFlight := displaceInFlight - {(k, claimant)};
      displaceState := displaceState[(k, claimant) := Probe(verdict, now)];
      if verdict != Match { return NotDisplaced; }
      if k in everVerified { return NotDisplaced; }
      if !o.written { return NotDisplaced; }
      ownership := ownership[k := [claimant]];
      everVerified := everVerified + {k};
      entries := Drop(entries, k);
      var begun := DoBeginUpsert(o);
      return Rebinding(begun);
    }

    /** Load entries one row at a time; the bindings are already in memory. */
    method DoLoad(rows: seq<Row>)
      requires entries == OrderedMap([], map[])
      modifies this`entries
      ensures entries == LoadRows(rows, ownership)
    {
      for i := 0 to |rows|
        invariant entries == LoadRows(rows[..i], ownership)
      {
        var r := rows[i];
        assert rows[..i + 1][..i] == rows[..i];
        if !(r.key in entries.at && entries.at[r.key].lastUpdated >= r.lastUpdated) {
          var e := DoBindLoadedEntry(r);
          entries := Put(entries, r.key, e);
        }
      }
      assert rows[..|rows|] == rows;
    }

    method DoBindLoadedEntry(r: Row) returns (e: Entry)
      ensures e == BindLoadedEntry(r, ownership)
    {
      if r.key !in ownership || |ownership[r.key]| == 0 { return Entry([], false, [], r.lastUpdated); }
      var authoritative := ownership[r.key];
      return Entry(authoritative, false, Kept(r.accepts, authoritative), r.lastUpdated);
    }
  }
}
