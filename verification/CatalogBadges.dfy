/**
 When a served badge means a proof. The badge is written to the entry of a key that is spelled again, so it is sound
 exactly for keys the spelling leaves alone.
 */
module CatalogBadges {
  import opened Basics
  import opened OrderedMaps
  import opened Catalog
  import opened CatalogRuns

  ghost predicate BadgesLatched(s: State) {
    forall k :: k in s.entries.at && s.entries.at[k].verifiedOwner ==> k in s.everVerified
  }

  predicate Respelled(w: World, k: Key) {
    w.canon(k).Some? && w.canon(k).value != k
  }

  /** Some key that may be probed is spelled again as another key of the set. */
  ghost predicate Aliased(w: World, keys: set<Key>) {
    exists k :: k in keys && !w.templated(k) && Respelled(w, k) && w.canon(k).value in keys
  }

  ghost predicate OffersWithin(e: Event, keys: set<Key>) {
    && (e.CallUpsert? && e.offer.key.Some? ==> e.offer.key.value in keys)
    && (e.CallDisplace? && e.rebind.key.Some? ==> e.rebind.key.value in keys)
  }

  ghost predicate TaskWithin(w: World, t: Task, keys: set<Key>) {
    match t
    case Upserting(p, proven) => proven.Some? ==> !w.templated(proven.value)
    case Badging(k) => !w.templated(k)
    case Reverifying(k, _, _) => !w.templated(k)
    case BootQueue(ks) => forall k :: k in ks ==> !w.templated(k)
    case BootProbing(k) => !w.templated(k)
    case Displacing(k, o, _, _) => !w.templated(k) && (o.key.Some? ==> o.key.value in keys)
    case _ => true
  }

  ghost predicate KeysWithin(s: State, keys: set<Key>) {
    (forall k :: k in s.ownership ==> k in keys) && (forall k :: k in s.entries.at ==> k in keys)
  }

  ghost predicate BadgeInv(w: World, m: Machine, keys: set<Key>) {
    && Inv(m)
    && BadgesLatched(m.s)
    && KeysWithin(m.s, keys)
    && (forall t :: t in m.tasks ==> TaskWithin(w, t, keys))
  }

  lemma InstallBadges(s: State, k: Key, e: Entry)
    requires Sound(s) && BadgesLatched(s) && (e.verifiedOwner ==> k in s.everVerified)
    ensures BadgesLatched(Install(s, k, e))
  {
    hide Install;
    InstallEffect(s, k, e);
  }

  lemma BeginUpsertBadges(s: State, o: Offer, keys: set<Key>)
    requires Sound(s) && BadgesLatched(s) && KeysWithin(s, keys)
    requires o.key.Some? ==> o.key.value in keys
    ensures BadgesLatched(BeginUpsert(s, o).0)
    ensures KeysWithin(BeginUpsert(s, o).0, keys)
  {
    hide Install;
    if Refusal(s, o).None? && o.key.value in s.entries.at {
      InstallBadges(s, o.key.value, Candidate(s, o));
      InstallEffect(s, o.key.value, Candidate(s, o));
    }
  }

  lemma SetVerifiedBadges(w: World, s: State, k: Key, keys: set<Key>)
    requires Sound(s) && BadgesLatched(s) && KeysWithin(s, keys)
    requires !Aliased(w, keys) && k in keys && !w.templated(k)
    ensures var t := SetVerified(w, s, k);
            && t.ownership == s.ownership && t.everVerified == s.everVerified && KeysWithin(t, keys)
            && forall j :: j in t.entries.at && t.entries.at[j].verifiedOwner ==> j == k || j in t.everVerified
  {
  }

  lemma EndReverifyBadges(w: World, s: State, k: Key, at: int, a: Answer, keys: set<Key>)
    requires Sound(s) && BadgesLatched(s) && KeysWithin(s, keys) && !Aliased(w, keys) && k in keys && !w.templated(k)
    ensures var t := EndReverify(w, s, k, at, a); BadgesLatched(t) && KeysWithin(t, keys)
  {
    hide SetVerified;
    if a.Said? { SetVerifiedBadges(w, s.(verifyState := s.verifyState[k := Probe(a.verdict, at)]), k, keys); }
  }

  lemma EndBootProbeBadges(w: World, s: State, k: Key, now: int, a: Answer, keys: set<Key>)
    requires Sound(s) && BadgesLatched(s) && KeysWithin(s, keys) && !Aliased(w, keys) && k in keys && !w.templated(k)
    requires k in s.everVerified
    ensures var t := EndBootProbe(w, s, k, now, a); BadgesLatched(t) && KeysWithin(t, keys)
  {
    hide SetVerified;
    if a.Said? { SetVerifiedBadges(w, s.(verifyState := s.verifyState[k := Probe(a.verdict, now)]), k, keys); }
  }

  lemma EndDisplaceBadges(s: State, k: Key, o: Offer, claimant: Address, at: int, a: Answer, keys: set<Key>)
    requires Sound(s) && BadgesLatched(s) && KeysWithin(s, keys) && k in keys && (o.key.Some? ==> o.key.value in keys)
    ensures var t := EndDisplace(s, k, o, claimant, at, a).0; BadgesLatched(t) && KeysWithin(t, keys)
  {
    hide BeginUpsert;
    if EndDisplace(s, k, o, claimant, at, a).1.Rebinding? {
      var u := s.(displaceInFlight := s.displaceInFlight - {(k, claimant)},
                  displaceState := s.displaceState[(k, claimant) := Probe(Match, at)]);
      DropKeepsWf(u.entries, k);
      BeginUpsertBadges(Rebound(u, k, claimant), o, keys);
    }
  }

  lemma EndUpsertBadges(s: State, p: Pending, keys: set<Key>)
    requires Sound(s) && BadgesLatched(s) && KeysWithin(s, keys) && p.key in s.ownership && !p.candidate.verifiedOwner
    ensures var t := EndUpsert(s, p); BadgesLatched(t) && KeysWithin(t, keys)
  {
    hide Install;
    InstallBadges(s, p.key, p.candidate.(boundPayTo := s.ownership[p.key]));
    InstallEffect(s, p.key, p.candidate.(boundPayTo := s.ownership[p.key]));
  }

  lemma ContinueBadges(w: World, m: Machine, i: nat, a: Answer, now: int, keys: set<Key>)
    requires BadgeInv(w, m, keys) && !Aliased(w, keys) && i < |m.tasks|
    ensures var n := Continue(w, m, i, a, now);
            BadgesLatched(n.s) && KeysWithin(n.s, keys)
  {
    hide SetVerified, EndUpsert, EndReverify, EndBootProbe, EndDisplace, Sound;
    assert TaskOk(m.s, m.tasks[i]) && TaskWithin(w, m.tasks[i], keys);
    assert forall k :: k in m.s.everVerified ==> k in m.s.ownership by { LatchedIsBound(m.s); }
    match m.tasks[i]
    case Upserting(p, proven) => EndUpsertBadges(m.s, p, keys);
    case Badging(k) => SetVerifiedBadges(w, m.s, k, keys);
    case Reverifying(k, asked, at) => EndReverifyBadges(w, m.s, k, at, a, keys);
    case BootProbing(k) => EndBootProbeBadges(w, m.s, k, now, a, keys);
    case Displacing(k, o, claimant, at) => EndDisplaceBadges(m.s, k, o, claimant, at, a, keys);
    case _ =>
  }

  lemma LatchedIsBound(s: State)
    requires Sound(s)
    ensures forall k :: k in s.everVerified ==> k in s.ownership
  {
  }

  lemma TasksWithin(w: World, m: Machine, e: Event, keys: set<Key>)
    requires BadgeInv(w, m, keys) && OffersWithin(e, keys)
    ensures forall t :: t in Step(w, m, e).tasks ==> TaskWithin(w, t, keys)
  {
    hide BeginUpsert, SetVerified, EndUpsert, EndReverify, EndBootProbe, EndDisplace;
    if e.Resume? && e.task < |m.tasks| {
      assert TaskWithin(w, m.tasks[e.task], keys);
    }
  }

  lemma StepBadges(w: World, m: Machine, e: Event, keys: set<Key>)
    requires BadgeInv(w, m, keys) && !Aliased(w, keys) && OffersWithin(e, keys)
    ensures BadgeInv(w, Step(w, m, e), keys)
  {
    hide Continue, BeginUpsert;
    StepKeeps(w, m, e);
    TasksWithin(w, m, e, keys);
    match e
    case CallUpsert(o) => BeginUpsertBadges(m.s, o, keys);
    case Resume(i, a, now) => if i < |m.tasks| { ContinueBadges(w, m, i, a, now, keys); }
    case _ =>
  }

  /** Unless a probed key is spelled again as another offered key, every badge ever served stands on a proof. */
  lemma {:induction false} BadgesAreProven(w: World, start: Machine, run: seq<Event>, keys: set<Key>)
    requires BadgeInv(w, start, keys) && !Aliased(w, keys) && forall e :: e in run ==> OffersWithin(e, keys)
    ensures BadgeInv(w, Exec(w, start, run), keys)
  {
    hide Step;
    if run == [] {
    } else {
      BadgesAreProven(w, start, run[..|run| - 1], keys);
      StepBadges(w, Exec(w, start, run[..|run| - 1]), run[|run| - 1], keys);
    }
  }

  // ---- And when one is ----

  function OfferOf(k: Key): Offer {
    Offer(Some(k), true, Some("owner"), "terms", true, true, 0)
  }

  function EntryOf(verified: bool): Entry {
    Entry(["owner"], verified, [Accept("owner", "terms")], 0)
  }

  /** Cataloging a key nobody owns, in a small catalog: the binding first, the entry after the wait. */
  lemma CatalogedFresh(w: World, m: Machine, k: Key)
    requires k !in m.s.ownership && k !in m.s.entries.at
    requires |m.s.ownership| < 10 && |m.s.entries.keys| < 10 && m.s.frozen == NotFrozen
    ensures var n := Step(w, Step(w, m, CallUpsert(OfferOf(k))), Resume(|m.tasks|, Threw, 0));
            && n.s == m.s.(ownership := m.s.ownership[k := ["owner"]],
                           entries := OrderedMap(m.s.entries.keys + [k], m.s.entries.at[k := EntryOf(false)]))
            && n.tasks == m.tasks + [Finished]
  {
    var o := OfferOf(k);
    var p := Pending(k, "owner", EntryOf(false));
    assert [] + [Accept("owner", "terms")] == [Accept("owner", "terms")];
    assert Candidate(m.s, o) == EntryOf(false);
    var mid := Step(w, m, CallUpsert(o));
    assert mid == Machine(m.s.(ownership := m.s.ownership[k := ["owner"]]), m.tasks + [Upserting(p, None)]);
  }

  /** Two keys cataloged, the first probed: the badge lands on the second, which was never proven. */
  lemma AliasMisplacesBadge(w: World, k: Key) returns (run: seq<Event>)
    requires !w.templated(k) && Respelled(w, k)
    ensures forall e :: e in run ==> OffersWithin(e, {k, w.canon(k).value})
    ensures var s, c := Exec(w, BLANK, run).s, w.canon(k).value;
            c in s.entries.at && s.entries.at[c].verifiedOwner && c !in s.everVerified
  {
    hide Step;
    var c := w.canon(k).value;
    var e1, e2, e3 := CallUpsert(OfferOf(k)), Resume(0, Threw, 0), CallUpsert(OfferOf(c));
    var e4, e5, e6 := Resume(1, Threw, 0), CallReverify(k, "owner", 0), Resume(2, Said(Match), 0);
    run := [e1, e2, e3, e4, e5, e6];
    ExecSnoc(w, BLANK, [], e1);
    ExecSnoc(w, BLANK, [e1], e2);
    ExecSnoc(w, BLANK, [e1, e2], e3);
    ExecSnoc(w, BLANK, [e1, e2, e3], e4);
    ExecSnoc(w, BLANK, [e1, e2, e3, e4], e5);
    ExecSnoc(w, BLANK, [e1, e2, e3, e4, e5], e6);
    assert [] + [e1] == [e1] && [e1] + [e2] == [e1, e2] && [e1, e2] + [e3] == [e1, e2, e3]
           && [e1, e2, e3] + [e4] == [e1, e2, e3, e4] && [e1, e2, e3, e4] + [e5] == [e1, e2, e3, e4, e5]
           && [e1, e2, e3, e4, e5] + [e6] == run;
    CatalogedFresh(w, Exec(w, BLANK, []), k);
    var m2 := Exec(w, BLANK, [e1, e2]);
    CatalogedFresh(w, m2, c);
    ProbeMisplaces(w, Exec(w, BLANK, [e1, e2, e3, e4]), k);
  }

  lemma ProbeMisplaces(w: World, m: Machine, k: Key)
    requires !w.templated(k) && Respelled(w, k) && k in m.s.entries.at && m.s.entries.at[k] == EntryOf(false)
    requires w.canon(k).value in m.s.entries.at && w.canon(k).value !in m.s.everVerified
    requires k !in m.s.verifyInFlight && k !in m.s.verifyState
    ensures var n := Step(w, Step(w, m, CallReverify(k, "owner", 0)), Resume(|m.tasks|, Said(Match), 0));
            && var c := w.canon(k).value;
               c in n.s.entries.at && n.s.entries.at[c].verifiedOwner && c !in n.s.everVerified
  {
    var mid := Step(w, m, CallReverify(k, "owner", 0));
    assert mid.tasks[|m.tasks|] == Reverifying(k, ["owner"], 0);
  }

  ghost predicate BadgesLatchedIn(w: World, start: Machine, run: seq<Event>, keys: set<Key>) {
    BadgeInv(w, start, keys) && (forall e :: e in run ==> OffersWithin(e, keys)) ==>
      BadgesLatched(Exec(w, start, run).s)
  }

  /**
   Exactly when a badge means a proof. In every interleaving over a set of keys each badged entry's key is proven, if
   and only if no key of the set that may be probed is spelled again as another key of the set.
   */
  lemma BadgesAreProvenExactly(w: World, keys: set<Key>)
    ensures (forall start, run :: BadgesLatchedIn(w, start, run, keys)) <==> !Aliased(w, keys)
  {
    hide Exec;
    if Aliased(w, keys) {
      var k :| k in keys && !w.templated(k) && Respelled(w, k) && w.canon(k).value in keys;
      var run := AliasMisplacesBadge(w, k);
      assert !BadgesLatchedIn(w, BLANK, run, keys);
    } else {
      forall start, run ensures BadgesLatchedIn(w, start, run, keys) {
        if BadgeInv(w, start, keys) && forall e :: e in run ==> OffersWithin(e, keys) {
          BadgesAreProven(w, start, run, keys);
        }
      }
    }
  }
}
