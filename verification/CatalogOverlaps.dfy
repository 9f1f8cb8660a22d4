/**
 Which overlaps of the waiting methods can make the catalog serve a payee who is no owner: exactly a displacement that
 goes through while a first catalog of its key waits.
 */
module CatalogOverlaps {
  import opened Basics
  import opened OrderedMaps
  import opened Catalog
  import opened CatalogRuns
  import opened CatalogServing
  import opened Sorting

  /** Served payees are owners, and what waits to be cataloged will still pay owners. */
  ghost predicate PayeeInv(m: Machine) {
    Inv(m) && Served(m.s) && forall t :: t in m.tasks && t.Upserting? ==> PendingServes(m.s, t.pending)
  }

  /** A displacement goes through while a first catalog of its key waits. */
  ghost predicate Overlaps(m: Machine, e: Event) {
    && e.Resume? && e.task < |m.tasks| && e.answer == Said(Match) && m.tasks[e.task].Displacing?
    && m.tasks[e.task].key !in m.s.everVerified && m.tasks[e.task].offer.written
    && exists t :: t in m.tasks && t.Upserting? && t.pending.key == m.tasks[e.task].key
  }

  // ---- What holds of waiting calls in any case ----

  /** A first catalog has an option to offer, and whoever is being probed for a key not proven is not its owner. */
  ghost predicate HasStanding(s: State, t: Task) {
    match t
    case Upserting(p, _) => p.candidate.accepts != []
    case Displacing(k, _, claimant, _) => k in s.everVerified || (k in s.ownership && claimant !in s.ownership[k])
    case _ => true
  }

  ghost predicate AllStand(m: Machine) {
    forall t :: t in m.tasks ==> HasStanding(m.s, t)
  }

  lemma StandingKept(s: State, t: State, x: Task)
    requires Keeps(s, t) && HasStanding(s, x)
    ensures HasStanding(t, x)
  {
  }

  lemma BegunHasStanding(s: State, o: Offer)
    ensures var begun := BeginUpsert(s, o).1; begun.Waiting? ==> begun.pending.candidate.accepts != []
  {
    hide EvictToCap, Put;
  }

  lemma RebindingHasStanding(s: State, k: Key, o: Offer, claimant: Address, now: int, a: Answer)
    ensures var d := EndDisplace(s, k, o, claimant, now, a).1;
            d.Rebinding? && d.begun.Waiting? ==> d.begun.pending.candidate.accepts != []
  {
    hide BeginUpsert;
    if EndDisplace(s, k, o, claimant, now, a).1.Rebinding? {
      var u := s.(displaceInFlight := s.displaceInFlight - {(k, claimant)},
                  displaceState := s.displaceState[(k, claimant) := Probe(Match, now)]);
      BegunHasStanding(Rebound(u, k, claimant), o);
    }
  }

  /** Every task after a step was there before it, or is the new or changed one. */
  lemma NewTasksStand(w: World, m: Machine, e: Event, x: Task)
    requires Inv(m) && x in Step(w, m, e).tasks && x !in m.tasks
    ensures HasStanding(Step(w, m, e).s, x)
  {
    hide BeginUpsert, EndDisplace, SetVerified, EndUpsert, EndReverify, EndBootProbe;
    match e
    case CallUpsert(o) => BegunHasStanding(m.s, o);
    case Resume(i, a, now) =>
      if i < |m.tasks| && m.tasks[i].Displacing? {
        var t := m.tasks[i];
        RebindingHasStanding(m.s, t.key, t.offer, t.claimant, t.at, a);
      }
    case _ =>
  }

  lemma StepKeepsStanding(w: World, m: Machine, e: Event)
    requires Inv(m) && AllStand(m)
    ensures AllStand(Step(w, m, e))
  {
    hide Step, HasStanding;
    StepKeeps(w, m, e);
    forall x | x in Step(w, m, e).tasks ensures HasStanding(Step(w, m, e).s, x) {
      if x in m.tasks { StandingKept(m.s, Step(w, m, e).s, x); } else { NewTasksStand(w, m, e, x); }
    }
  }

  lemma {:induction false} AlwaysStands(w: World, start: Machine, run: seq<Event>)
    requires Inv(start) && AllStand(start)
    ensures AllStand(Exec(w, start, run))
  {
    hide Step;
    if run == [] {
    } else {
      AlwaysStands(w, start, run[..|run| - 1]);
      ReachableInv(w, start, run[..|run| - 1]);
      StepKeepsStanding(w, Exec(w, start, run[..|run| - 1]), run[|run| - 1]);
    }
  }

  // ---- Without an overlap ----

  lemma SetVerifiedBinds(w: World, s: State, k: Key)
    ensures SetVerified(w, s, k).ownership == s.ownership
  {
  }

  ghost predicate TasksServe(s: State, tasks: seq<Task>) {
    forall t :: t in tasks && t.Upserting? ==> PendingServes(s, t.pending)
  }

  lemma ContinueServes(w: World, m: Machine, i: nat, a: Answer, now: int)
    requires PayeeInv(m) && i < |m.tasks| && !Overlaps(m, Resume(i, a, now)) && !m.tasks[i].Displacing?
    ensures var n := Continue(w, m, i, a, now); Served(n.s) && TasksServe(n.s, n.tasks)
  {
    hide EvictToCap, Served, SetVerified;
    var n := Continue(w, m, i, a, now);
    assert TaskOk(m.s, m.tasks[i]);
    match m.tasks[i]
    case Upserting(p, proven) => EndUpsertServes(m.s, p);
    case Badging(k) => SetVerifiedServes(w, m.s, k); SetVerifiedBinds(w, m.s, k);
    case Reverifying(k, asked, at) =>
      if a.Said? {
        var u := m.s.(verifyState := m.s.verifyState[k := Probe(a.verdict, at)]);
        SetVerifiedBinds(w, u, k);
        VerdictServes(w, m.s, u, k, n.s);
      } else { SameEntriesServe(m.s, n.s); }
    case BootProbing(k) =>
      if a.Said? {
        var u := m.s.(verifyState := m.s.verifyState[k := Probe(a.verdict, now)]);
        SetVerifiedBinds(w, u, k);
        VerdictServes(w, m.s, u, k, n.s);
      } else { SameEntriesServe(m.s, n.s); }
    case _ => SameEntriesServe(m.s, n.s);
  }

  /** A verdict changes no binding and no option, badge or not. */
  lemma VerdictServes(w: World, s: State, u: State, k: Key, t: State)
    requires Served(s) && u.entries == s.entries && u.ownership == s.ownership && t.ownership == u.ownership
    requires t.entries == u.entries || t.entries == SetVerified(w, u, k).entries
    ensures Served(t)
  {
    hide SetVerified, Served;
    SameEntriesServe(s, u);
    SetVerifiedServes(w, u, k);
    SetVerifiedBinds(w, u, k);
    SameEntriesServe(SetVerified(w, u, k), t);
    SameEntriesServe(u, t);
  }

  /** A displacement that ends: unless it goes through, no binding changes. */
  lemma DisplacedServes(w: World, m: Machine, i: nat, a: Answer, now: int)
    requires PayeeInv(m) && i < |m.tasks| && m.tasks[i].Displacing? && !Overlaps(m, Resume(i, a, now))
    ensures var n := Continue(w, m, i, a, now); Served(n.s) && TasksServe(n.s, n.tasks)
  {
    hide EndDisplace, Served;
    var t, n := m.tasks[i], Continue(w, m, i, a, now);
    assert TaskOk(m.s, t);
    EndDisplaceServes(m.s, t.key, t.offer, t.claimant, t.at, a);
    EndDisplaceBinds(m.s, t.key, t.offer, t.claimant, t.at, a);
    forall x | x in n.tasks && x.Upserting? ensures PendingServes(n.s, x.pending) {
      if x in m.tasks { assert PendingServes(m.s, x.pending); }
    }
  }

  lemma SafeStepServes(w: World, m: Machine, e: Event)
    requires PayeeInv(m) && !Overlaps(m, e)
    ensures PayeeInv(Step(w, m, e))
  {
    hide BeginUpsert, Continue, Served;
    StepKeeps(w, m, e);
    match e
    case CallUpsert(o) =>
      BeginUpsertServes(m.s, o);
      BeginUpsertBinds(m.s, o);
    case Resume(i, a, now) =>
      if i < |m.tasks| {
        if m.tasks[i].Displacing? { DisplacedServes(w, m, i, a, now); } else { ContinueServes(w, m, i, a, now); }
      }
    case _ => SameEntriesServe(m.s, Step(w, m, e).s);
  }

  // ---- With one ----

  /** Going through, the displacement makes the claimant the only owner, whatever then becomes of its own settlement. */
  lemma OverlapRebinds(w: World, m: Machine, e: Event)
    requires Inv(m) && Overlaps(m, e)
    ensures var t, n := m.tasks[e.task], Step(w, m, e);
            && t.key in n.s.ownership && n.s.ownership[t.key] == [t.claimant]
            && |n.tasks| == |m.tasks| && forall j :: 0 <= j < |m.tasks| && j != e.task ==> n.tasks[j] == m.tasks[j]
  {
    hide BeginUpsert;
    var t := m.tasks[e.task];
    var u := m.s.(displaceInFlight := m.s.displaceInFlight - {(t.key, t.claimant)},
                  displaceState := m.s.displaceState[(t.key, t.claimant) := Probe(Match, t.at)]);
    BeginUpsertBinds(Rebound(u, t.key, t.claimant), t.offer);
  }

  /** Some option of the entry pays another than this owner. */
  ghost predicate PaysStranger(e: Entry, owner: Address) {
    exists a :: a in e.accepts && a.payTo != owner
  }

  /** The waiting catalog pays somebody else. */
  lemma WaitingPaysAnother(m: Machine, e: Event, p: Pending)
    requires PayeeInv(m) && AllStand(m) && Overlaps(m, e) && p.key == m.tasks[e.task].key
    requires exists x :: x in m.tasks && x.Upserting? && x.pending == p
    ensures PaysStranger(p.candidate, m.tasks[e.task].claimant)
  {
    var x :| x in m.tasks && x.Upserting? && x.pending == p;
    assert HasStanding(m.s, x) && HasStanding(m.s, m.tasks[e.task]) && TaskOk(m.s, m.tasks[e.task]);
    var a := p.candidate.accepts[0];
    assert a in p.candidate.accepts;
  }

  /** One step keeps served payees owners if and only if it is no overlap. */
  lemma StepServesExactly(w: World, m: Machine, e: Event)
    requires PayeeInv(m) && AllStand(m)
    ensures PayeeInv(Step(w, m, e)) <==> !Overlaps(m, e)
  {
    hide Step, Served;
    if !Overlaps(m, e) {
      SafeStepServes(w, m, e);
    } else {
      var x :| x in m.tasks && x.Upserting? && x.pending.key == m.tasks[e.task].key;
      var j :| 0 <= j < |m.tasks| && m.tasks[j] == x;
      OverlapRebinds(w, m, e);
      WaitingPaysAnother(m, e, x.pending);
      var n := Step(w, m, e);
      assert n.tasks[j] == x && x in n.tasks;
      assert !PendingServes(n.s, x.pending);
    }
  }

  ghost predicate NoOverlaps(w: World, start: Machine, run: seq<Event>) {
    forall i :: 0 <= i < |run| ==> !Overlaps(Exec(w, start, run[..i]), run[i])
  }

  ghost predicate AlwaysServes(w: World, start: Machine, run: seq<Event>) {
    forall n :: 0 <= n <= |run| ==> PayeeInv(Exec(w, start, run[..n]))
  }

  lemma AlwaysServesLast(w: World, start: Machine, run: seq<Event>)
    requires run != []
    ensures AlwaysServes(w, start, run) <==> AlwaysServes(w, start, run[..|run| - 1]) && PayeeInv(Exec(w, start, run))
  {
    hide Exec, PayeeInv;
    var prefix := run[..|run| - 1];
    assert run[..|run|] == run;
    assert forall n :: 0 <= n <= |prefix| ==> prefix[..n] == run[..n];
    if AlwaysServes(w, start, run) {
      forall n | 0 <= n <= |prefix| ensures PayeeInv(Exec(w, start, prefix[..n])) {
        assert PayeeInv(Exec(w, start, run[..n]));
      }
    }
    if AlwaysServes(w, start, prefix) && PayeeInv(Exec(w, start, run)) {
      forall n | 0 <= n <= |run| ensures PayeeInv(Exec(w, start, run[..n])) {
        if n < |run| { assert PayeeInv(Exec(w, start, prefix[..n])); }
      }
    }
  }

  lemma NoOverlapsLast(w: World, start: Machine, run: seq<Event>)
    requires run != []
    ensures NoOverlaps(w, start, run) <==>
            NoOverlaps(w, start, run[..|run| - 1]) && !Overlaps(Exec(w, start, run[..|run| - 1]), run[|run| - 1])
  {
    hide Exec, Overlaps;
    var prefix := run[..|run| - 1];
    assert forall i :: 0 <= i < |prefix| ==> prefix[..i] == run[..i] && prefix[i] == run[i];
    if NoOverlaps(w, start, prefix) && !Overlaps(Exec(w, start, prefix), run[|run| - 1]) {
      forall i | 0 <= i < |run| ensures !Overlaps(Exec(w, start, run[..i]), run[i]) {
        if i < |prefix| { assert !Overlaps(Exec(w, start, prefix[..i]), prefix[i]); }
      }
    }
    if NoOverlaps(w, start, run) {
      forall i | 0 <= i < |prefix| ensures !Overlaps(Exec(w, start, prefix[..i]), prefix[i]) {
        assert !Overlaps(Exec(w, start, run[..i]), run[i]);
      }
      assert !Overlaps(Exec(w, start, run[..|run| - 1]), run[|run| - 1]);
    }
  }

  lemma ServesSoFar(w: World, start: Machine, run: seq<Event>)
    requires AlwaysServes(w, start, run)
    ensures PayeeInv(Exec(w, start, run))
  {
    assert run[..|run|] == run;
  }

  /**
   Served payees under interleaving, exactly: at every moment of a run all that is served, and all that waits to be,
   pays owners, if and only if in the whole run no displacement goes through while a first catalog of its key waits.
   */
  lemma {:induction false} ServedExactlyWithoutOverlaps(w: World, start: Machine, run: seq<Event>)
    requires PayeeInv(start) && AllStand(start)
    ensures AlwaysServes(w, start, run) <==> NoOverlaps(w, start, run)
  {
    assert Inv(start);
    hide Step, PayeeInv, Overlaps, AlwaysServes, NoOverlaps;
    if run == [] {
      NothingServed(w, start);
    } else {
      var prefix := run[..|run| - 1];
      ServedExactlyWithoutOverlaps(w, start, prefix);
      AlwaysServesLast(w, start, run);
      NoOverlapsLast(w, start, run);
      AlwaysStands(w, start, prefix);
      if AlwaysServes(w, start, prefix) {
        ServesSoFar(w, start, prefix);
        StepServesExactly(w, Exec(w, start, prefix), run[|run| - 1]);
      }
    }
  }

  lemma NothingServed(w: World, start: Machine)
    requires PayeeInv(start) && AllStand(start)
    ensures AlwaysServes(w, start, []) && NoOverlaps(w, start, [])
  {
    var none: seq<Event> := [];
    assert none[..0] == [];
  }

  // ---- What an overlap leads to ----

  /**
   With an overlap, as soon as the waiting catalog goes on, an entry that it leaves pays somebody under the binding of
   the claimant, who is proven.
   */
  lemma OverlapServesAnUnboundPayee(w: World, m: Machine, e: Event, j: nat, when: int)
    requires PayeeInv(m) && AllStand(m) && Overlaps(m, e)
    requires j < |m.tasks| && m.tasks[j].Upserting? && m.tasks[j].pending.key == m.tasks[e.task].key
    ensures var t, s := m.tasks[e.task], Step(w, Step(w, m, e), Resume(j, Threw, when)).s;
            t.key in s.entries.at ==>
              s.entries.at[t.key].boundPayTo == [t.claimant] && PaysStranger(s.entries.at[t.key], t.claimant)
  {
    hide BeginUpsert, EvictToCap;
    var t, p := m.tasks[e.task], m.tasks[j].pending;
    OverlapRebinds(w, m, e);
    WaitingPaysAnother(m, e, p);
    StepKeeps(w, m, e);
    var n := Step(w, m, e);
    InstallEffect(n.s, p.key, p.candidate.(boundPayTo := [t.claimant]));
  }

  // ---- Whether it lasts ----

  /** What the displacement still has to catalog is the claimant's own and usable. */
  ghost predicate Usable(m: Machine, t: Task)
    requires t.Displacing?
  {
    OwnClaim(Some(t.key), t.offer, t.claimant) && !FrozenOnOwnership(m.s)
  }

  /**
   The displacement waits to catalog the claimant if its settlement is usable, and to raise the badge if it is not.
   */
  lemma OverlapGoesOn(w: World, m: Machine, e: Event)
    requires Inv(m) && Overlaps(m, e) && m.tasks[e.task].offer.key == Some(m.tasks[e.task].key)
    ensures var t, n := m.tasks[e.task], Step(w, m, e);
            && |n.tasks| == |m.tasks|
            && n.tasks[e.task] == if !Usable(m, t) then Badging(t.key)
                                  else Upserting(Pending(t.key, t.claimant,
                                                 Entry([t.claimant], false, [Accept(t.claimant, t.offer.terms)],
                                                       t.offer.at)), Some(t.key))
  {
    hide EvictToCap;
    var t := m.tasks[e.task];
    assert [] + [Accept(t.claimant, t.offer.terms)] == [Accept(t.claimant, t.offer.terms)];
  }

  /**
   Whether the stranger outlasts the displacement, exactly. The displacement goes on right behind the catalog that
   waited. An entry that is then there shows the claimant as the owner, and pays a stranger if and only if the
   claimant's own settlement is refused; it then carries the claimant's badge too, if the key is spelled as it is.
   Otherwise the claimant's option is the only one.
   */
  lemma StrangerLastsExactly(w: World, m: Machine, e: Event, j: nat, when: int, after: int)
    requires PayeeInv(m) && AllStand(m) && Overlaps(m, e) && m.tasks[e.task].offer.key == Some(m.tasks[e.task].key)
    requires j < |m.tasks| && m.tasks[j].Upserting? && m.tasks[j].pending.key == m.tasks[e.task].key
    ensures var t := m.tasks[e.task];
            var s := Step(w, Step(w, Step(w, m, e), Resume(j, Threw, when)), Resume(e.task, Threw, after)).s;
            t.key in s.entries.at ==>
              var entry := s.entries.at[t.key];
              && entry.boundPayTo == [t.claimant]
              && (PaysStranger(entry, t.claimant) <==> !Usable(m, t))
              && (Usable(m, t) ==> entry.accepts == [Accept(t.claimant, t.offer.terms)])
              && (!Usable(m, t) && w.canon(t.key) == Some(t.key) ==> entry.verifiedOwner)
  {
    hide Step, EvictToCap, Served, PayeeInv, AllStand, Usable, Overlaps;
    PayeeIsInv(m);
    OverlapIsDisplacement(m, e);
    var t, n := m.tasks[e.task], Step(w, m, e);
    OverlapGoesOn(w, m, e);
    OverlapRebinds(w, m, e);
    OverlapServesAnUnboundPayee(w, m, e, j, when);
    StepKeeps(w, m, e);
    var u := Step(w, n, Resume(j, Threw, when));
    StepKeeps(w, n, Resume(j, Threw, when));
    OthersWait(w, n, j, e.task, when);
    if Usable(m, t) { CatalogsClaimant(w, u, e.task, after); } else { BadgesOnly(w, u, e.task, after); }
  }

  lemma PayeeIsInv(m: Machine)
    requires PayeeInv(m)
    ensures Inv(m)
  {
  }

  lemma OverlapIsDisplacement(m: Machine, e: Event)
    requires Overlaps(m, e)
    ensures e.Resume? && e.task < |m.tasks| && m.tasks[e.task].Displacing?
  {
  }

  /** A waiting catalog that goes on changes no binding and no other task. */
  lemma OthersWait(w: World, m: Machine, j: nat, i: nat, when: int)
    requires j < |m.tasks| && i < |m.tasks| && i != j && m.tasks[j].Upserting?
    ensures var n := Step(w, m, Resume(j, Threw, when));
            n.tasks[i] == m.tasks[i] && |n.tasks| == |m.tasks| && n.s.ownership == m.s.ownership
  {
    hide EvictToCap;
  }

  lemma CatalogsClaimant(w: World, m: Machine, i: nat, when: int)
    requires Inv(m) && i < |m.tasks| && m.tasks[i].Upserting?
    ensures var p, s := m.tasks[i].pending, Step(w, m, Resume(i, Threw, when)).s;
            p.key in s.entries.at ==> s.entries.at[p.key] == p.candidate.(boundPayTo := Owners(m.s, p.key))
  {
    hide Install;
    var p := m.tasks[i].pending;
    assert TaskOk(m.s, m.tasks[i]);
    InstallEffect(m.s, p.key, p.candidate.(boundPayTo := m.s.ownership[p.key]));
  }

  lemma BadgesOnly(w: World, m: Machine, i: nat, when: int)
    requires i < |m.tasks| && m.tasks[i].Badging?
    ensures var k, s := m.tasks[i].key, Step(w, m, Resume(i, Threw, when)).s;
            && (k in s.entries.at <==> k in m.s.entries.at)
            && (k in s.entries.at ==>
                  && s.entries.at[k].boundPayTo == m.s.entries.at[k].boundPayTo
                  && s.entries.at[k].accepts == m.s.entries.at[k].accepts
                  && (w.canon(k) == Some(k) ==> s.entries.at[k].verifiedOwner))
  {
  }

  // ---- How an overlap comes about ----

  /** The catalog is full and `k` has its oldest entry. */
  ghost predicate Oldest(s: State, k: Key) {
    && |s.entries.keys| == MAX_ENTRIES && k in s.entries.at
    && forall j :: j in s.entries.at && j != k ==> s.entries.at[k].lastUpdated < s.entries.at[j].lastUpdated
  }

  /** Putting one more entry into a full catalog drops the oldest one, if the new one is newer, and no other. */
  lemma OldestGoes(s: State, k: Key, other: Key, e: Entry)
    requires Wf(s.entries) && Oldest(s, k) && other !in s.entries.at && s.entries.at[k].lastUpdated < e.lastUpdated
    ensures var t := Install(s, other, e);
            && |t.entries.keys| == MAX_ENTRIES && t == s.(entries := t.entries)
            && k !in t.entries.at && other in t.entries.at && t.entries.at[other] == e
  {
    hide EvictToCap;
    var full := Put(s.entries, other, e);
    PutKeepsWf(s.entries, other, e);
    EvictionKeepsNewest(full, MAX_ENTRIES);
    var left := EvictToCap(full, MAX_ENTRIES);
    InstallEffect(s, other, e);
    SomeoneLeft(full, left);
    var j :| j in full.at && j !in left.at;
    assert forall x :: x in left.at ==> full.at[j].lastUpdated <= full.at[x].lastUpdated;
    OnlyOneLeft(full, left, k, other);
  }

  lemma SomeoneLeft(full: OrderedMap<Key, Entry>, left: OrderedMap<Key, Entry>)
    requires Wf(full) && Wf(left) && |left.keys| < |full.keys|
    ensures exists j :: j in full.at && j !in left.at
  {
    var a, b := set j | j in full.keys, set j | j in left.keys;
    SizeOfDistinct(full.keys);
    SizeOfDistinct(left.keys);
    if forall j :: j in full.at ==> j in left.at {
      assert a <= b;
      SubsetSize(a, b);
    }
  }

  lemma OnlyOneLeft(full: OrderedMap<Key, Entry>, left: OrderedMap<Key, Entry>, x: Key, y: Key)
    requires Wf(full) && Wf(left) && |full.keys| <= |left.keys| + 1 && forall j :: j in left.at ==> j in full.at
    requires x in full.at && y in full.at && x != y
    ensures x in left.at || y in left.at
  {
    var a, b := set j | j in full.keys, set j | j in left.keys;
    SizeOfDistinct(full.keys);
    SizeOfDistinct(left.keys);
    if x !in left.at && y !in left.at {
      assert b + {x, y} <= a && |b + {x, y}| == |b| + 2;
      SubsetSize(b + {x, y}, a);
    }
  }

  /** A usable settlement for `k` by `p`. */
  ghost predicate Settles(o: Offer, k: Key, p: Address) {
    o.key == Some(k) && o.payTo == Some(p) && o.routable && o.schemaOk
  }

  /**
   Then one of the key's unproven owners settles again and its first catalog waits; and the probe, whose answer is
   already there, is next to go on. That is an overlap, in any state that the catalog can reach.
   */
  lemma EvictedKeyOverlaps(w: World, m: Machine, i: nat, o: Offer, p: Address, now: int)
    requires Inv(m) && AllStand(m) && i < |m.tasks| && m.tasks[i].Displacing? && m.tasks[i].offer.written
    requires var k := m.tasks[i].key;
             && k !in m.s.everVerified && k !in m.s.entries.at
             && k in m.s.ownership && p in m.s.ownership[k] && Settles(o, k, p)
    requires !FrozenOnOwnership(m.s)
    ensures var n := Step(w, m, CallUpsert(o));
            && Overlaps(n, Resume(i, Said(Match), now))
            && |n.tasks| == |m.tasks| + 1 && n.tasks[|m.tasks|].Upserting?
            && n.tasks[|m.tasks|].pending.key == m.tasks[i].key
  {
    hide Candidate;
    var n := Step(w, m, CallUpsert(o));
    assert n.tasks[i] == m.tasks[i] && n.tasks[|m.tasks|] in n.tasks;
  }

  /** A newcomer to a full catalog stays if it is newer than somebody there. */
  lemma NewcomerStays(s: State, k: Key, other: Key, e: Entry)
    requires Wf(s.entries) && |s.entries.keys| <= MAX_ENTRIES && k !in s.entries.at
    requires other in s.entries.at && s.entries.at[other].lastUpdated < e.lastUpdated
    ensures k in Install(s, k, e).entries.at
  {
    hide EvictToCap;
    var full := Put(s.entries, k, e);
    PutKeepsWf(s.entries, k, e);
    EvictionKeepsNewest(full, MAX_ENTRIES);
    OnlyOneLeft(full, EvictToCap(full, MAX_ENTRIES), k, other);
  }

  /**
   Call `i` probes for a key whose entry is the oldest of a full catalog; call `x` is about to catalog another key.
   */
  ghost predicate AboutToEvict(m: Machine, i: nat, x: nat) {
    && i < |m.tasks| && m.tasks[i].Displacing? && m.tasks[i].offer.written
    && x < |m.tasks| && m.tasks[x].Upserting?
    && var k, p := m.tasks[i].key, m.tasks[x].pending;
    && Oldest(m.s, k) && k !in m.s.everVerified && !FrozenOnOwnership(m.s)
    && k in m.s.ownership && p.key !in m.s.entries.at && p.key in m.s.ownership
    && m.s.entries.at[k].lastUpdated < p.candidate.lastUpdated
  }

  lemma EvictsUnderTheProbe(w: World, m: Machine, i: nat, x: nat, when: int)
    requires Inv(m) && AboutToEvict(m, i, x)
    ensures var n, k, p := Step(w, m, Resume(x, Threw, when)), m.tasks[i].key, m.tasks[x].pending;
            && |n.tasks| == |m.tasks| && n.tasks[i] == m.tasks[i] && k !in n.s.entries.at
            && p.key in n.s.entries.at && n.s.entries.at[p.key].lastUpdated == p.candidate.lastUpdated
            && |n.s.entries.keys| == MAX_ENTRIES && n.s == m.s.(entries := n.s.entries)
  {
    hide EvictToCap, Put;
    var p := m.tasks[x].pending;
    OldestGoes(m.s, m.tasks[i].key, p.key, p.candidate.(boundPayTo := m.s.ownership[p.key]));
  }

  /** Going through, a displacement of a key without entry leaves the other entries as they were. */
  lemma OverlapKeepsEntries(w: World, m: Machine, e: Event)
    requires Inv(m) && Overlaps(m, e) && m.tasks[e.task].key !in m.s.entries.at
    requires m.tasks[e.task].offer.key == Some(m.tasks[e.task].key)
    ensures Step(w, m, e).s.entries == m.s.entries
  {
    var t := m.tasks[e.task];
    WithoutRemovesOne(m.s.entries.keys, t.key);
    assert m.s.entries.at - {t.key} == m.s.entries.at;
    hide EvictToCap, Put, Candidate, Without;
  }

  /**
   The whole story, from any state the catalog can reach: a first catalog evicts the entry of a key under probe, one of
   the key's unproven owners settles again and waits, the probe names the claimant, and the one that waited goes on.
   The entry then served shows the proven owner and takes payments for somebody else. When the displacement goes on in
   its turn, it rewrites that entry for the claimant; but if the claimant's own settlement is refused, the stranger
   stays, under the claimant's name and badge.
   */
  lemma StrangerIsServed(w: World, m: Machine, i: nat, x: nat, o: Offer, p: Address, now: int)
    requires PayeeInv(m) && AllStand(m) && AboutToEvict(m, i, x) && m.tasks[i].offer.key == Some(m.tasks[i].key)
    requires p in m.s.ownership[m.tasks[i].key] && Settles(o, m.tasks[i].key, p)
    requires m.tasks[x].pending.candidate.lastUpdated < o.at
    ensures var t := m.tasks[i];
            var n := Step(w, Step(w, m, Resume(x, Threw, now)), CallUpsert(o));
            var waited := Step(w, Step(w, n, Resume(i, Said(Match), now)), Resume(|m.tasks|, Threw, now));
            var s := Step(w, waited, Resume(i, Threw, now)).s;
            && t.key in waited.s.entries.at && PaysStranger(waited.s.entries.at[t.key], t.claimant)
            && t.key in s.entries.at && s.entries.at[t.key].boundPayTo == [t.claimant]
            && (PaysStranger(s.entries.at[t.key], t.claimant) <==> !OwnClaim(Some(t.key), t.offer, t.claimant))
            && (PaysStranger(s.entries.at[t.key], t.claimant) && w.canon(t.key) == Some(t.key) ==>
                  s.entries.at[t.key].verifiedOwner)
  {
    hide Step, Served, HasStanding;
    var t := m.tasks[i];
    var m1 := Step(w, m, Resume(x, Threw, now));
    SafeStepServes(w, m, Resume(x, Threw, now));
    StepKeepsStanding(w, m, Resume(x, Threw, now));
    EvictsUnderTheProbe(w, m, i, x, now);
    var m2 := Step(w, m1, CallUpsert(o));
    EvictedKeyOverlaps(w, m1, i, o, p, now);
    SafeStepServes(w, m1, CallUpsert(o));
    StepKeepsStanding(w, m1, CallUpsert(o));
    SettledAgain(w, m1, i, o, p);
    LeavesStranger(w, m2, i, |m.tasks|, m.tasks[x].pending.key, now);
  }

  /** From the overlap on: what the entry is after the catalog that waited, and after the displacement. */
  lemma LeavesStranger(w: World, m: Machine, i: nat, j: nat, other: Key, now: int)
    requires PayeeInv(m) && AllStand(m) && Overlaps(m, Resume(i, Said(Match), now)) && !FrozenOnOwnership(m.s)
    requires m.tasks[i].offer.key == Some(m.tasks[i].key) && m.tasks[i].key !in m.s.entries.at
    requires j < |m.tasks| && m.tasks[j].Upserting? && m.tasks[j].pending.key == m.tasks[i].key
    requires |m.s.entries.keys| <= MAX_ENTRIES && other in m.s.entries.at
    requires m.s.entries.at[other].lastUpdated < m.tasks[j].pending.candidate.lastUpdated
    ensures var t, waited := m.tasks[i], Step(w, Step(w, m, Resume(i, Said(Match), now)), Resume(j, Threw, now));
            var s := Step(w, waited, Resume(i, Threw, now)).s;
            && t.key in waited.s.entries.at && PaysStranger(waited.s.entries.at[t.key], t.claimant)
            && t.key in s.entries.at && s.entries.at[t.key].boundPayTo == [t.claimant]
            && (PaysStranger(s.entries.at[t.key], t.claimant) <==> !OwnClaim(Some(t.key), t.offer, t.claimant))
            && (PaysStranger(s.entries.at[t.key], t.claimant) && w.canon(t.key) == Some(t.key) ==>
                  s.entries.at[t.key].verifiedOwner)
  {
    hide Step, PayeeInv, AllStand, Overlaps, OwnClaim;
    PayeeIsInv(m);
    var e := Resume(i, Said(Match), now);
    OverlapIsDisplacement(m, e);
    var t, n := m.tasks[i], Step(w, m, e);
    OverlapServesAnUnboundPayee(w, m, e, j, now);
    OverlapKeepsEntries(w, m, e);
    OverlapRebinds(w, m, e);
    OverlapGoesOn(w, m, e);
    StepKeeps(w, m, e);
    WaitedGoesOn(w, n, j, t.key, other, now);
    OthersWait(w, n, j, i, now);
    StepKeeps(w, n, Resume(j, Threw, now));
    ListedStaysListed(w, Step(w, n, Resume(j, Threw, now)), i, t.key, now);
    StrangerLastsExactly(w, m, e, j, now, now);
  }

  lemma ListedStaysListed(w: World, m: Machine, i: nat, k: Key, when: int)
    requires Inv(m) && i < |m.tasks| && k in m.s.entries.at && |m.s.entries.keys| <= MAX_ENTRIES
    requires m.tasks[i] == Badging(k) || (m.tasks[i].Upserting? && m.tasks[i].pending.key == k)
    ensures k in Step(w, m, Resume(i, Threw, when)).s.entries.at
  {
    hide Install, Wf;
    if m.tasks[i].Upserting? {
      assert TaskOk(m.s, m.tasks[i]);
      InstallCaps(m.s, k, m.tasks[i].pending.candidate.(boundPayTo := m.s.ownership[k]));
    }
  }

  lemma SettledAgain(w: World, m: Machine, i: nat, o: Offer, p: Address)
    requires Inv(m) && i < |m.tasks| && m.tasks[i].Displacing? && !FrozenOnOwnership(m.s)
    requires var k := m.tasks[i].key;
             k !in m.s.entries.at && k in m.s.ownership && p in m.s.ownership[k] && Settles(o, k, p)
    ensures var n := Step(w, m, CallUpsert(o));
            && n.s == m.s && |n.tasks| == |m.tasks| + 1 && n.tasks[i] == m.tasks[i]
            && n.tasks[|m.tasks|].Upserting? && n.tasks[|m.tasks|].pending.key == m.tasks[i].key
            && n.tasks[|m.tasks|].pending.candidate.lastUpdated == o.at
  {
  }

  lemma WaitedGoesOn(w: World, m: Machine, j: nat, k: Key, other: Key, now: int)
    requires Inv(m) && j < |m.tasks| && m.tasks[j].Upserting? && m.tasks[j].pending.key == k
    requires |m.s.entries.keys| <= MAX_ENTRIES && k !in m.s.entries.at && other in m.s.entries.at
    requires m.s.entries.at[other].lastUpdated < m.tasks[j].pending.candidate.lastUpdated
    ensures var s := Step(w, m, Resume(j, Threw, now)).s; k in s.entries.at && |s.entries.keys| <= MAX_ENTRIES
  {
    hide EvictToCap, Put, Install;
    assert TaskOk(m.s, m.tasks[j]);
    InstallCaps(m.s, k, m.tasks[j].pending.candidate.(boundPayTo := m.s.ownership[k]));
    NewcomerStays(m.s, k, other, m.tasks[j].pending.candidate.(boundPayTo := m.s.ownership[k]));
  }
}
