/**
 Which payees the catalog serves, and what each operation does, exactly. Each upsert, displacement and load is one step
 here.
 */
module CatalogServing {
  import opened Basics
  import opened OrderedMaps
  import opened Catalog
  import opened CatalogRuns

  function Upsert(s: State, o: Offer): (State, Outcome) {
    var (t, begun) := BeginUpsert(s, o);
    match begun
    case Done(outcome) => (t, outcome)
    case Waiting(p) => (EndUpsert(t, p), Cataloged(true))
  }

  function Displace(w: World, s: State, key: Option<Key>, o: Offer, claimant: Address, now: int, a: Answer): State {
    var (t, probing) := BeginDisplace(w, s, key, claimant, now);
    if !probing then t
    else
      var (u, d) := EndDisplace(t, key.value, o, claimant, now, a);
      if d.NotDisplaced? then u
      else SetVerified(w, if d.begun.Waiting? then EndUpsert(u, d.begun.pending) else u, key.value)
  }

  function Reverify(w: World, s: State, k: Key, settler: Address, now: int, a: Answer): State {
    var (t, probing) := BeginReverify(w, s, k, settler, now);
    if probing then LeaveReverify(EndReverify(w, t, k, now, a), k) else t
  }

  // ---- Loading ----

  /** A stored entry that parsed, under its key spelled again. Nothing says it was written by the catalog. */
  datatype Row = Row(key: Key, accepts: seq<Accept>, lastUpdated: int)

  function Kept(accepts: seq<Accept>, bound: seq<Address>): (r: seq<Accept>)
    ensures forall a :: a in r <==> a in accepts && a.payTo in bound
  {
    if accepts == [] then []
    else
      var rest := Kept(accepts[1..], bound);
      assert accepts == [accepts[0]] + accepts[1..];
      if accepts[0].payTo in bound then [accepts[0]] + rest else rest
  }

  function BindLoadedEntry(r: Row, ownership: map<Key, seq<Address>>): Entry {
    if r.key !in ownership || ownership[r.key] == [] then Entry([], false, [], r.lastUpdated)
    else Entry(ownership[r.key], false, Kept(r.accepts, ownership[r.key]), r.lastUpdated)
  }

  function LoadRow(m: OrderedMap<Key, Entry>, r: Row, ownership: map<Key, seq<Address>>): OrderedMap<Key, Entry> {
    if r.key in m.at && m.at[r.key].lastUpdated >= r.lastUpdated then m
    else Put(m, r.key, BindLoadedEntry(r, ownership))
  }

  function LoadRows(rows: seq<Row>, ownership: map<Key, seq<Address>>): OrderedMap<Key, Entry> {
    if rows == [] then OrderedMap([], map[])
    else LoadRow(LoadRows(rows[..|rows| - 1], ownership), rows[|rows| - 1], ownership)
  }

  /** A new process: the bindings and latches as loaded, and the entries re-bound to them. */
  function Reload(ownership: map<Key, seq<Address>>, verified: set<Key>, rows: seq<Row>): State {
    FRESH.(ownership := ownership, everVerified := verified, entries := LoadRows(rows, ownership))
  }

  datatype Op =
    | OpUpsert(offer: Offer)
    | OpDisplace(claimed: Option<Key>, rebind: Offer, claimant: Address, at: int, answer: Answer)
    | OpReverify(key: Key, settler: Address, now: int, reply: Answer)
    | OpReload(ownership: map<Key, seq<Address>>, verified: set<Key>, rows: seq<Row>)
    | OpReloadFailed(why: Frozen)

  function Apply(w: World, s: State, op: Op): State {
    match op
    case OpUpsert(o) => Upsert(s, o).0
    case OpDisplace(k, o, claimant, now, a) => Displace(w, s, k, o, claimant, now, a)
    case OpReverify(k, settler, now, a) => Reverify(w, s, k, settler, now, a)
    case OpReload(ownership, verified, rows) => Reload(ownership, verified, rows)
    case OpReloadFailed(why) => FRESH.(frozen := why)
  }

  function Run(w: World, ops: seq<Op>): State {
    if ops == [] then FRESH else Apply(w, Run(w, ops[..|ops| - 1]), ops[|ops| - 1])
  }

  // ---- Served payees are bound payees ----

  ghost predicate EntryServes(e: Entry, owners: seq<Address>) {
    e.boundPayTo == owners && forall a :: a in e.accepts ==> a.payTo in owners
  }

  ghost predicate Served(s: State) {
    Wf(s.entries) && forall k :: k in s.entries.at ==> EntryServes(s.entries.at[k], Owners(s, k))
  }

  ghost predicate PendingServes(s: State, p: Pending) {
    p.key in s.ownership && forall a :: a in p.candidate.accepts ==> a.payTo in s.ownership[p.key]
  }

  lemma InstallServes(s: State, k: Key, e: Entry)
    requires Served(s) && EntryServes(e, Owners(s, k))
    ensures Served(Install(s, k, e)) && Install(s, k, e).ownership == s.ownership
  {
    hide Install, EntryServes;
    InstallEffect(s, k, e);
  }

  lemma BeginUpsertServes(s: State, o: Offer)
    requires Served(s)
    ensures var (t, begun) := BeginUpsert(s, o); Served(t) && (begun.Waiting? ==> PendingServes(t, begun.pending))
  {
    hide Install;
    if Refusal(s, o).None? {
      var k, c := o.key.value, Candidate(s, o);
      assert EntryServes(c, [o.payTo.value]) || k in s.entries.at;
      if k in s.entries.at { InstallServes(s, k, c); }
    }
  }

  lemma EndUpsertServes(s: State, p: Pending)
    requires Served(s) && PendingServes(s, p)
    ensures Served(EndUpsert(s, p))
  {
    hide Install;
    InstallServes(s, p.key, p.candidate.(boundPayTo := s.ownership[p.key]));
  }

  lemma SetVerifiedServes(w: World, s: State, k: Key)
    requires Served(s)
    ensures Served(SetVerified(w, s, k))
  {
  }

  lemma EndDisplaceServes(s: State, k: Key, o: Offer, claimant: Address, now: int, a: Answer)
    requires Served(s)
    ensures var (t, d) := EndDisplace(s, k, o, claimant, now, a);
            Served(t) && (d.Rebinding? && d.begun.Waiting? ==> PendingServes(t, d.begun.pending))
  {
    hide BeginUpsert;
    if EndDisplace(s, k, o, claimant, now, a).1.Rebinding? {
      var u := s.(displaceInFlight := s.displaceInFlight - {(k, claimant)},
                  displaceState := s.displaceState[(k, claimant) := Probe(Match, now)]);
      DropKeepsWf(u.entries, k);
      assert Served(Rebound(u, k, claimant));
      BeginUpsertServes(Rebound(u, k, claimant), o);
    }
  }

  lemma {:induction false} LoadServes(rows: seq<Row>, ownership: map<Key, seq<Address>>)
    ensures var m := LoadRows(rows, ownership);
            Wf(m) && forall k :: k in m.at ==> EntryServes(m.at[k], if k in ownership then ownership[k] else [])
  {
    if rows == [] {
    } else {
      LoadServes(rows[..|rows| - 1], ownership);
    }
  }

  lemma SameEntriesServe(s: State, t: State)
    ensures s.entries == t.entries && s.ownership == t.ownership && Served(s) ==> Served(t)
  {
  }

  lemma DisplaceServes(
      w: World, s: State, key: Option<Key>, o: Offer, claimant: Address, now: int, a: Answer)
    requires Served(s)
    ensures Served(Displace(w, s, key, o, claimant, now, a))
  {
    hide EndUpsert, EndDisplace, SetVerified;
    var (t, probing) := BeginDisplace(w, s, key, claimant, now);
    SameEntriesServe(s, t);
    if probing {
      EndDisplaceServes(t, key.value, o, claimant, now, a);
      var (u, d) := EndDisplace(t, key.value, o, claimant, now, a);
      if d.Rebinding? {
        if d.begun.Waiting? { EndUpsertServes(u, d.begun.pending); }
        SetVerifiedServes(w, if d.begun.Waiting? then EndUpsert(u, d.begun.pending) else u, key.value);
      }
    }
  }

  lemma ReverifyServes(w: World, s: State, k: Key, settler: Address, now: int, a: Answer)
    requires Served(s)
    ensures Served(Reverify(w, s, k, settler, now, a))
  {
    hide SetVerified, MayReverify, Served;
    var t := BeginReverify(w, s, k, settler, now).0;
    SameEntriesServe(s, t);
    if a.Said? {
      var u := t.(verifyState := t.verifyState[k := Probe(a.verdict, now)]);
      SameEntriesServe(t, u);
      SetVerifiedServes(w, u, k);
      SameEntriesServe(SetVerified(w, u, k), Reverify(w, s, k, settler, now, a));
      SameEntriesServe(u, Reverify(w, s, k, settler, now, a));
    } else {
      SameEntriesServe(t, Reverify(w, s, k, settler, now, a));
    }
  }

  lemma ApplyServes(w: World, s: State, op: Op)
    requires Served(s)
    ensures Served(Apply(w, s, op))
  {
    hide BeginUpsert, EndUpsert, Displace, Reverify, LoadRows;
    match op
    case OpUpsert(o) =>
      BeginUpsertServes(s, o);
      var (t, begun) := BeginUpsert(s, o);
      if begun.Waiting? { EndUpsertServes(t, begun.pending); }
    case OpDisplace(k, o, claimant, now, a) => DisplaceServes(w, s, k, o, claimant, now, a);
    case OpReverify(k, settler, now, a) => ReverifyServes(w, s, k, settler, now, a);
    case OpReload(ownership, verified, rows) => LoadServes(rows, ownership);
    case OpReloadFailed(why) =>
  }

  /**
   In every run of upserts, displacements, re-proofs and loads of any stored data, every payment option served for a key
   pays one of the key's owners, and the owners shown are the binding's.
   */
  lemma {:induction false} ServedPayeesAreBound(w: World, ops: seq<Op>)
    ensures Served(Run(w, ops))
  {
    hide Apply;
    if ops == [] {
    } else {
      ServedPayeesAreBound(w, ops[..|ops| - 1]);
      ApplyServes(w, Run(w, ops[..|ops| - 1]), ops[|ops| - 1]);
    }
  }

  /** A usable settlement by someone entitled to the key: an owner of it, or anyone if it never had one. */
  ghost predicate Entitled(s: State, o: Offer) {
    && o.key.Some? && o.routable && o.payTo.Some? && o.schemaOk
    && (o.key.value in s.entries.at || o.key.value in s.ownership ==> o.payTo.value in Owners(s, o.key.value))
    && (o.key.value !in s.entries.at ==> !FrozenOnOwnership(s))
    && (o.key.value !in s.entries.at && o.key.value !in s.ownership ==>
          |s.ownership| < MAX_TOMBSTONES && o.written)
  }

  /**
   The entry a settlement leaves: fresh, with the badge it had, and with the settled option among its others unless
   twenty were already there.
   */
  ghost predicate Updated(s: State, o: Offer, e: Entry)
    requires o.key.Some? && o.payTo.Some?
  {
    var k, a := o.key.value, Accept(o.payTo.value, o.terms);
    var before := if k in s.entries.at then s.entries.at[k].accepts else [];
    && e.lastUpdated == o.at
    && (e.verifiedOwner <==> k in s.entries.at && s.entries.at[k].verifiedOwner)
    && e.accepts == (if a in before || |before| >= MAX_ACCEPTS then before else before + [a])
  }

  /**
   An upsert, exactly: it is cataloged if and only if the settlement is entitled. Cataloged, it leaves at most the cap
   of entries and every earlier binding as it was, and binds a key without owner to the settlement's recipient;
   refused, it changes no entry, binding or latch. So an evicted key comes back only for one of its owners.
   */
  lemma UpsertIsExact(s: State, o: Offer)
    requires Served(s)
    ensures var (t, r) := Upsert(s, o);
            && (r.Cataloged? <==> Entitled(s, o))
            && t.everVerified == s.everVerified
            && (r.Rejected? ==> t.entries == s.entries && t.ownership == s.ownership)
            && (r.Cataloged? ==>
                  && |t.entries.keys| <= MAX_ENTRIES
                  && t.ownership == (if o.key.value in s.entries.at || o.key.value in s.ownership then s.ownership
                                     else s.ownership[o.key.value := [o.payTo.value]])
                  && (forall k :: k in t.entries.at && k != o.key.value ==>
                        k in s.entries.at && t.entries.at[k] == s.entries.at[k])
                  && (forall k, j ::
                        k in t.entries.at && j in s.entries.at && j !in t.entries.at && j != o.key.value ==>
                          s.entries.at[j].lastUpdated <= t.entries.at[k].lastUpdated)
                  && (o.key.value in t.entries.at ==> Updated(s, o, t.entries.at[o.key.value])))
  {
    hide Install, EvictToCap;
    if Entitled(s, o) {
      var k, p, c := o.key.value, o.payTo.value, Candidate(s, o);
      if k in s.entries.at {
        InstallEffect(s, k, c);
        InstallCaps(s, k, c);
      } else {
        var u := BeginUpsert(s, o).0;
        InstallEffect(u, k, c.(boundPayTo := u.ownership[k]));
        InstallCaps(u, k, c.(boundPayTo := u.ownership[k]));
      }
    }
  }

  lemma InstallCaps(s: State, k: Key, e: Entry)
    requires Wf(s.entries)
    ensures var m := Install(s, k, e).entries;
            && |m.keys| <= MAX_ENTRIES
            && (|Put(s.entries, k, e).keys| <= MAX_ENTRIES ==> m == Put(s.entries, k, e))
            && forall i, j :: i in m.at && j in s.entries.at && j !in m.at && j != k ==>
                 s.entries.at[j].lastUpdated <= m.at[i].lastUpdated
  {
    hide EvictToCap;
    PutKeepsWf(s.entries, k, e);
    EvictionKeepsNewest(Put(s.entries, k, e), MAX_ENTRIES);
    SmallIsKept(Put(s.entries, k, e), MAX_ENTRIES);
  }

  lemma SmallIsKept(m: OrderedMap<Key, Entry>, cap: nat)
    ensures |m.keys| <= cap ==> EvictToCap(m, cap) == m
  {
  }

  ghost predicate Displaces(w: World, s: State, key: Option<Key>, o: Offer, claimant: Address, now: int, a: Answer) {
    MayDisplace(w, s, key, claimant, now) && a == Said(Match) && o.written
  }

  lemma NothingDisplaced(w: World, s: State, key: Option<Key>, o: Offer, claimant: Address, now: int, a: Answer)
    requires !Displaces(w, s, key, o, claimant, now, a)
    ensures var t := Displace(w, s, key, o, claimant, now, a);
            t.entries == s.entries && t.ownership == s.ownership && t.everVerified == s.everVerified
  {
    hide BeginUpsert, EndUpsert, SetVerified;
  }

  /** The claimant's own usable settlement for the key. */
  ghost predicate OwnClaim(key: Option<Key>, o: Offer, claimant: Address) {
    key.Some? && o.key == key && o.payTo == Some(claimant) && o.routable && o.schemaOk
  }

  /** The state in which a displacement that goes through catalogs the claimant. */
  function AfterProof(s: State, k: Key, claimant: Address, now: int): State {
    var t := s.(displaceInFlight := s.displaceInFlight + {(k, claimant)});
    Rebound(t.(displaceInFlight := t.displaceInFlight - {(k, claimant)},
               displaceState := t.displaceState[(k, claimant) := Probe(Match, now)]), k, claimant)
  }

  /** What is left when the claimant's settlement has been offered to the catalog again. */
  function Recataloged(r: State, o: Offer): State {
    var (u, begun) := BeginUpsert(r, o);
    if begun.Waiting? then EndUpsert(u, begun.pending) else u
  }

  lemma DisplaceUnfolds(w: World, s: State, key: Option<Key>, o: Offer, claimant: Address, now: int, a: Answer)
    requires Displaces(w, s, key, o, claimant, now, a)
    ensures Displace(w, s, key, o, claimant, now, a) ==
            SetVerified(w, Recataloged(AfterProof(s, key.value, claimant, now), o), key.value)
  {
    hide BeginUpsert, EndUpsert, SetVerified, Drop;
  }

  /**
   A displacement, exactly. It happens if and only if every gate lets the claimant through, the probe names it and the
   write is taken; else no binding, latch or entry changes. When it happens the claimant is the only owner, latched,
   whatever becomes of its settlement. The key is listed afterwards if and only if that settlement is the claimant's own
   and usable, with a new entry: the claimant's option its only one, the badge up if the key is spelled as it is. Else
   the old entry is gone and the proven owner unlisted.
   */
  lemma DisplacementIsExact(w: World, s: State, key: Option<Key>, o: Offer, claimant: Address, now: int, a: Answer)
    requires Served(s)
    ensures var t := Displace(w, s, key, o, claimant, now, a);
            var wins := Displaces(w, s, key, o, claimant, now, a);
            && (!wins ==> t.entries == s.entries && t.ownership == s.ownership && t.everVerified == s.everVerified)
            && (wins ==>
                  var k := key.value;
                  && t.everVerified == s.everVerified + {k}
                  && k in t.ownership && t.ownership[k] == [claimant]
                  && (o.key == key ==> t.ownership == s.ownership[k := [claimant]])
                  && (|s.entries.keys| <= MAX_ENTRIES ==> (k in t.entries.at <==> OwnClaim(key, o, claimant)))
                  && (k in t.entries.at ==>
                        && OwnClaim(key, o, claimant)
                        && t.entries.at[k] == Entry([claimant], w.canon(k) == key, [Accept(claimant, o.terms)], o.at))
                  && (o.key == key && !OwnClaim(key, o, claimant) && w.canon(k) == key ==>
                        t.entries == Drop(s.entries, k)))
  {
    hide BeginUpsert, Recataloged, Displace, Wf, SetVerified, Drop;
    if !Displaces(w, s, key, o, claimant, now, a) {
      NothingDisplaced(w, s, key, o, claimant, now, a);
    } else {
      var k := key.value;
      var r := AfterProof(s, k, claimant, now);
      DropKeepsWf(s.entries, k);
      DropDrops(s.entries, k);
      DisplaceUnfolds(w, s, key, o, claimant, now, a);
      if OwnClaim(key, o, claimant) { RebindsFresh(r, o, k, claimant); } else { RebindsNone(r, o, k, claimant); }
      BadgeOnly(w, Recataloged(r, o), k);
    }
  }

  lemma DropDrops(m: OrderedMap<Key, Entry>, k: Key)
    ensures k !in Drop(m, k).at
  {
  }

  lemma BadgeOnly(w: World, s: State, k: Key)
    ensures var t := SetVerified(w, s, k);
            && t.ownership == s.ownership && t.everVerified == s.everVerified
            && (k in t.entries.at <==> k in s.entries.at)
            && (k in s.entries.at ==>
                  t.entries.at[k] == if w.canon(k) == Some(k) then s.entries.at[k].(verifiedOwner := true)
                                     else s.entries.at[k])
            && (k !in s.entries.at && w.canon(k) == Some(k) ==> t == s)
  {
  }

  /** A settlement that is not the claimant's own or cannot be used brings no entry for the key. */
  lemma RebindsNone(r: State, o: Offer, k: Key, claimant: Address)
    requires Wf(r.entries) && k !in r.entries.at && k in r.ownership && r.ownership[k] == [claimant]
    requires !OwnClaim(Some(k), o, claimant)
    ensures var f := Recataloged(r, o);
            && k !in f.entries.at && k in f.ownership && f.ownership[k] == [claimant]
            && f.everVerified == r.everVerified
            && (o.key == Some(k) ==> f == r)
  {
    hide Install;
    if o.key != Some(k) && Refusal(r, o).None? {
      var j, c := o.key.value, Candidate(r, o);
      var u := BeginUpsert(r, o).0;
      if j in r.entries.at {
        InstallEffect(r, j, c);
      } else {
        InstallEffect(u, j, c.(boundPayTo := if j in u.ownership then u.ownership[j] else [o.payTo.value]));
      }
    }
  }

  /** Cataloging the claimant in a state where it is the owner and the key has no entry. */
  lemma RebindsFresh(r: State, o: Offer, k: Key, claimant: Address)
    requires Wf(r.entries) && k !in r.entries.at && k in r.ownership && r.ownership[k] == [claimant]
    requires o.key == Some(k) && o.payTo == Some(claimant) && o.routable && o.schemaOk && !FrozenOnOwnership(r)
    ensures var f := Recataloged(r, o);
            && f == r.(entries := f.entries)
            && (|r.entries.keys| < MAX_ENTRIES ==> k in f.entries.at)
            && (k in f.entries.at ==>
                  f.entries.at[k] == Entry([claimant], false, [Accept(claimant, o.terms)], o.at))
  {
    hide EvictToCap, Install;
    assert [] + [Accept(claimant, o.terms)] == [Accept(claimant, o.terms)];
    var e := Entry([claimant], false, [Accept(claimant, o.terms)], o.at);
    assert Candidate(r, o) == e;
    InstallEffect(r, k, e);
    InstallCaps(r, k, e);
  }

  /**
   A re-proof, exactly. Without the gates nothing changes; through them the verdict is noted, no binding and no payment
   option changes whatever it is, and on a match, and only then, the entry is badged and the key latched.
   */
  lemma ReverifyIsExact(w: World, s: State, k: Key, settler: Address, now: int, a: Answer)
    requires Served(s) && w.canon(k) == Some(k)
    ensures var t := Reverify(w, s, k, settler, now, a);
            var probed := MayReverify(w, s, k, settler, now);
            && (!probed ==> t == s)
            && t.ownership == s.ownership && t.entries.keys == s.entries.keys && t.verifyInFlight == s.verifyInFlight
            && (probed ==>
                  && k in t.verifyState
                  && t.verifyState[k] == Probe(if a.Said? then a.verdict else Unverifiable, now)
                  && t.everVerified == (if a == Said(Match) then s.everVerified + {k} else s.everVerified)
                  && t.entries.at == (if a == Said(Match)
                                      then s.entries.at[k := s.entries.at[k].(verifiedOwner := true)]
                                      else s.entries.at))
  {
    var t := Reverify(w, s, k, settler, now, a);
    if MayReverify(w, s, k, settler, now) {
      assert s.verifyInFlight + {k} - {k} == s.verifyInFlight;
    }
  }
}
