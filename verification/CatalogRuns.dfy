/**
 The catalog without a store, with its asynchronous methods interleaved at every wait: calls arrive at any moment, and
 whatever waits goes on at any moment, with any verdict from its probe.
 */
module CatalogRuns {
  import opened Basics
  import opened OrderedMaps
  import opened Catalog

  /** A call that waits, with what it remembers. */
  datatype Task =
    | Finished
    /** A first catalog; `proven` is the key to badge afterwards when a displacement runs it. */
    | Upserting(pending: Pending, proven: Option<Key>)
    | Badging(key: Key)
    | Reverifying(key: Key, asked: seq<Address>, at: int)
    | Leaving(key: Key)
    | BootQueue(keys: seq<Key>)
    | BootProbing(key: Key)
    | Displacing(key: Key, offer: Offer, claimant: Address, at: int)

  datatype Machine = Machine(s: State, tasks: seq<Task>)

  datatype Event =
    | CallUpsert(offer: Offer)
    | CallReverify(key: Key, settler: Address, now: int)
    | CallBoot
    | CallDisplace(claimed: Option<Key>, rebind: Offer, claimant: Address, at: int)
    | Resume(task: nat, answer: Answer, when: int)

  const FRESH: State := State(OrderedMap([], map[]), map[], {}, NotFrozen, map[], {}, map[], {})

  /** A process that has just started, without a store. */
  const BLANK: Machine := Machine(FRESH, [])

  function Step(w: World, m: Machine, e: Event): Machine {
    match e
    case CallUpsert(o) =>
      var (t, begun) := BeginUpsert(m.s, o);
      Machine(t, m.tasks + if begun.Waiting? then [Upserting(begun.pending, None)] else [])
    case CallReverify(k, settler, now) =>
      var (t, probing) := BeginReverify(w, m.s, k, settler, now);
      Machine(t, m.tasks + if probing then [Reverifying(k, m.s.entries.at[k].boundPayTo, now)] else [])
    case CallBoot => Machine(m.s, m.tasks + [BootQueue(BootCandidates(w, m.s, m.s.entries.keys))])
    case CallDisplace(k, o, claimant, now) =>
      var (t, probing) := BeginDisplace(w, m.s, k, claimant, now);
      Machine(t, m.tasks + if probing then [Displacing(k.value, o, claimant, now)] else [])
    case Resume(i, a, now) => if i < |m.tasks| then Continue(w, m, i, a, now) else m
  }

  function Continue(w: World, m: Machine, i: nat, a: Answer, now: int): Machine
    requires i < |m.tasks|
  {
    match m.tasks[i]
    case Finished => m
    case Upserting(p, proven) =>
      Machine(EndUpsert(m.s, p), m.tasks[i := if proven.Some? then Badging(proven.value) else Finished])
    case Badging(k) => Machine(SetVerified(w, m.s, k), m.tasks[i := Finished])
    case Reverifying(k, asked, at) =>
      Machine(EndReverify(w, m.s, k, at, a), m.tasks[i := if a == Said(Match) then Leaving(k) else Finished])
    case Leaving(k) => Machine(LeaveReverify(m.s, k), m.tasks[i := Finished])
    case BootQueue(ks) =>
      if ks == [] then Machine(m.s, m.tasks[i := Finished])
      else
        var (t, probing) := BeginBootProbe(m.s, ks[0]);
        Machine(t, m.tasks[i := BootQueue(ks[1..])] + if probing then [BootProbing(ks[0])] else [])
    case BootProbing(k) => Machine(EndBootProbe(w, m.s, k, now, a), m.tasks[i := Finished])
    case Displacing(k, o, claimant, at) =>
      var (t, d) := EndDisplace(m.s, k, o, claimant, at, a);
      var next :=
        if d.NotDisplaced? then Finished
        else if d.begun.Waiting? then Upserting(d.begun.pending, Some(k)) else Badging(k);
      Machine(t, m.tasks[i := next])
  }

  /** A run from any state a process can be in: one just started, one that has loaded its store, or one at work. */
  function Exec(w: World, start: Machine, run: seq<Event>): Machine {
    if run == [] then start else Step(w, Exec(w, start, run[..|run| - 1]), run[|run| - 1])
  }

  lemma ExecSnoc(w: World, start: Machine, run: seq<Event>, e: Event)
    ensures Exec(w, start, run + [e]) == Step(w, Exec(w, start, run), e)
  {
    assert (run + [e])[..|run|] == run;
  }

  // ---- What every stretch keeps ----

  function Owners(s: State, k: Key): seq<Address> {
    if k in s.ownership then s.ownership[k] else []
  }

  /** A stored entry without a binding has no owners; every other has its key's. */
  ghost predicate Sound(s: State) {
    && Wf(s.entries)
    && (forall k :: k in s.entries.at ==> s.entries.at[k].boundPayTo == Owners(s, k))
    && (forall k :: k in s.everVerified ==> k in s.ownership)
  }

  /**
   No key is unbound, no latch undone, no latched owner changed, no owner changed without latching, and no key without
   a binding cataloged.
   */
  ghost predicate Keeps(s: State, t: State) {
    && (forall k :: k in s.ownership ==> k in t.ownership && (t.ownership[k] == s.ownership[k] || k in t.everVerified))
    && (forall k :: k in s.everVerified ==> k in t.everVerified)
    && (forall k :: k in s.everVerified && k in s.ownership ==> t.ownership[k] == s.ownership[k])
    && (forall k :: k in t.entries.at ==> k in s.entries.at || k in t.ownership)
  }

  ghost predicate TaskOk(s: State, t: Task) {
    match t
    case Finished => true
    case Upserting(p, proven) =>
      p.key in s.ownership && !p.candidate.verifiedOwner && (proven.Some? ==> proven.value in s.everVerified)
    case Badging(k) => k in s.everVerified
    case Reverifying(k, asked, _) => k in s.ownership && (k in s.everVerified || s.ownership[k] == asked)
    case Leaving(k) => k in s.everVerified
    case BootQueue(ks) => forall k :: k in ks ==> k in s.everVerified
    case BootProbing(k) => k in s.everVerified
    case Displacing(k, _, _, _) => k in s.ownership
  }

  ghost predicate Inv(m: Machine) {
    Sound(m.s) && forall t :: t in m.tasks ==> TaskOk(m.s, t)
  }

  lemma InstallEffect(s: State, k: Key, e: Entry)
    requires Wf(s.entries)
    ensures var t := Install(s, k, e);
            && Wf(t.entries) && t == s.(entries := t.entries)
            && forall j :: j in t.entries.at ==>
                 if j == k then t.entries.at[j] == e
                 else j in s.entries.at && t.entries.at[j] == s.entries.at[j]
  {
    hide EvictToCap;
    PutKeepsWf(s.entries, k, e);
    EvictionKeepsNewest(Put(s.entries, k, e), MAX_ENTRIES);
  }

  /** One entry changed, under its key's owners: nothing else does. */
  lemma InstallKeeps(s: State, k: Key, e: Entry)
    requires Sound(s) && (k in s.entries.at || k in s.ownership) && e.boundPayTo == Owners(s, k)
    ensures Sound(Install(s, k, e)) && Keeps(s, Install(s, k, e))
  {
    hide Install;
    InstallEffect(s, k, e);
  }

  lemma BindKeeps(s: State, k: Key, p: Address, written: bool)
    requires Sound(s) && k !in s.entries.at
    ensures var (t, bound) := BindOwnership(s, k, p, written);
            Sound(t) && Keeps(s, t) && (bound ==> k in t.ownership)
  {
  }

  lemma BeginUpsertKeeps(s: State, o: Offer)
    requires Sound(s)
    ensures var (t, begun) := BeginUpsert(s, o);
            Sound(t) && Keeps(s, t) && (begun.Waiting? ==> TaskOk(t, Upserting(begun.pending, None)))
  {
    hide Install, BindOwnership, Keeps;
    FlightsKeep(s, s);
    if Refusal(s, o).None? {
      var k := o.key.value;
      if k in s.entries.at { InstallKeeps(s, k, Candidate(s, o)); } else { BindKeeps(s, k, o.payTo.value, o.written); }
    }
  }

  lemma EndUpsertKeeps(s: State, p: Pending)
    requires Sound(s) && p.key in s.ownership
    ensures Sound(EndUpsert(s, p)) && Keeps(s, EndUpsert(s, p))
  {
    InstallKeeps(s, p.key, p.candidate.(boundPayTo := s.ownership[p.key]));
  }

  lemma SetVerifiedKeeps(w: World, s: State, k: Key)
    requires Sound(s)
    ensures Sound(SetVerified(w, s, k)) && Keeps(s, SetVerified(w, s, k))
  {
  }

  lemma EndReverifyKeeps(w: World, s: State, k: Key, now: int, a: Answer)
    requires Sound(s) && k in s.ownership
    ensures Sound(EndReverify(w, s, k, now, a)) && Keeps(s, EndReverify(w, s, k, now, a))
    ensures a == Said(Match) ==> k in EndReverify(w, s, k, now, a).everVerified
  {
    if a.Said? { SetVerifiedKeeps(w, s.(verifyState := s.verifyState[k := Probe(a.verdict, now)]), k); }
  }

  lemma EndBootProbeKeeps(w: World, s: State, k: Key, now: int, a: Answer)
    requires Sound(s)
    ensures Sound(EndBootProbe(w, s, k, now, a)) && Keeps(s, EndBootProbe(w, s, k, now, a))
  {
    if a.Said? {
      hide SetVerified, Sound, Keeps;
      var u := s.(verifyState := s.verifyState[k := Probe(a.verdict, now)]);
      FlightsKeep(s, u);
      SetVerifiedKeeps(w, u, k);
      FlightsKeep(u, u);
      var t := if a == Said(Match) then SetVerified(w, u, k) else u;
      SameBindingsKeep(s, u, t, EndBootProbe(w, s, k, now, a));
    } else {
      FlightsKeep(s, EndBootProbe(w, s, k, now, a));
    }
  }

  ghost predicate SameBindings(s: State, t: State) {
    s.entries == t.entries && s.ownership == t.ownership && s.everVerified == t.everVerified
  }

  lemma SameBindingsKeep(s: State, u: State, t: State, v: State)
    requires SameBindings(s, u) && SameBindings(t, v) && Sound(t) && Keeps(u, t)
    ensures Sound(v) && Keeps(s, v)
  {
  }

  lemma EndDisplaceKeeps(s: State, k: Key, o: Offer, claimant: Address, now: int, a: Answer)
    requires Sound(s) && k in s.ownership
    ensures var (t, d) := EndDisplace(s, k, o, claimant, now, a);
            && Sound(t) && Keeps(s, t)
            && (d.Rebinding? ==> k in t.everVerified)
            && (d.Rebinding? && d.begun.Waiting? ==> TaskOk(t, Upserting(d.begun.pending, Some(k))))
  {
    hide BeginUpsert;
    var (t, d) := EndDisplace(s, k, o, claimant, now, a);
    if d.Rebinding? {
      var u := s.(displaceInFlight := s.displaceInFlight - {(k, claimant)},
                  displaceState := s.displaceState[(k, claimant) := Probe(Match, now)]);
      var r := Rebound(u, k, claimant);
      DropKeepsWf(u.entries, k);
      assert Sound(r);
      BeginUpsertKeeps(r, o);
      assert k in r.everVerified;
    }
  }

  lemma TasksKept(s: State, t: State, tasks: seq<Task>)
    requires Keeps(s, t) && forall x :: x in tasks ==> TaskOk(s, x)
    ensures forall x :: x in tasks ==> TaskOk(t, x)
  {
  }

  lemma Appended(s: State, tasks: seq<Task>, more: seq<Task>)
    requires forall x :: x in tasks ==> TaskOk(s, x)
    requires forall x :: x in more ==> TaskOk(s, x)
    ensures forall x :: x in tasks + more ==> TaskOk(s, x)
  {
  }

  lemma Replaced(s: State, tasks: seq<Task>, i: nat, next: Task)
    requires i < |tasks| && TaskOk(s, next) && forall x :: x in tasks ==> TaskOk(s, x)
    ensures forall x :: x in tasks[i := next] ==> TaskOk(s, x)
  {
  }

  lemma ContinueKeeps(w: World, m: Machine, i: nat, a: Answer, now: int)
    requires Inv(m) && i < |m.tasks|
    ensures Inv(Continue(w, m, i, a, now)) && Keeps(m.s, Continue(w, m, i, a, now).s)
  {
    hide EndUpsert, SetVerified, EndReverify, EndBootProbe, EndDisplace;
    var n := Continue(w, m, i, a, now);
    assert TaskOk(m.s, m.tasks[i]);
    match m.tasks[i]
    case Finished =>
    case Upserting(p, proven) =>
      EndUpsertKeeps(m.s, p);
      TasksKept(m.s, n.s, m.tasks);
      Replaced(n.s, m.tasks, i, n.tasks[i]);
    case Badging(k) =>
      SetVerifiedKeeps(w, m.s, k);
      TasksKept(m.s, n.s, m.tasks);
      Replaced(n.s, m.tasks, i, Finished);
    case Reverifying(k, asked, at) =>
      EndReverifyKeeps(w, m.s, k, at, a);
      TasksKept(m.s, n.s, m.tasks);
      Replaced(n.s, m.tasks, i, n.tasks[i]);
    case Leaving(k) =>
      TasksKept(m.s, n.s, m.tasks);
      Replaced(n.s, m.tasks, i, Finished);
    case BootQueue(ks) =>
      TasksKept(m.s, n.s, m.tasks);
      if ks == [] {
        Replaced(n.s, m.tasks, i, Finished);
      } else {
        Replaced(n.s, m.tasks, i, BootQueue(ks[1..]));
        var more := if BeginBootProbe(m.s, ks[0]).1 then [BootProbing(ks[0])] else [];
        Appended(n.s, m.tasks[i := BootQueue(ks[1..])], more);
      }
    case BootProbing(k) =>
      EndBootProbeKeeps(w, m.s, k, now, a);
      TasksKept(m.s, n.s, m.tasks);
      Replaced(n.s, m.tasks, i, Finished);
    case Displacing(k, o, claimant, at) =>
      EndDisplaceKeeps(m.s, k, o, claimant, at, a);
      var (t, d) := EndDisplace(m.s, k, o, claimant, at, a);
      assert n.s == t;
      assert d.NotDisplaced? ==> n.tasks[i] == Finished;
      assert d.Rebinding? && d.begun.Waiting? ==> n.tasks[i] == Upserting(d.begun.pending, Some(k));
      assert d.Rebinding? && d.begun.Done? ==> n.tasks[i] == Badging(k);
      TasksKept(m.s, n.s, m.tasks);
      Replaced(n.s, m.tasks, i, n.tasks[i]);
  }

  lemma FlightsKeep(s: State, t: State)
    requires Sound(s) && SameBindings(s, t)
    ensures Sound(t) && Keeps(s, t)
  {
  }

  /** What a call leaves waiting is in order. */
  lemma NewTasksOk(w: World, m: Machine, e: Event)
    requires Sound(m.s) && (e.CallReverify? || e.CallBoot? || e.CallDisplace?)
    ensures var n := Step(w, m, e);
            |n.tasks| >= |m.tasks| && forall x :: x in n.tasks[|m.tasks|..] ==> TaskOk(m.s, x)
  {
    hide Wf;
  }

  lemma StepKeeps(w: World, m: Machine, e: Event)
    requires Inv(m)
    ensures Inv(Step(w, m, e)) && Keeps(m.s, Step(w, m, e).s)
  {
    hide BeginUpsert, Continue, Sound, Keeps, TaskOk;
    var n := Step(w, m, e);
    match e
    case CallUpsert(o) =>
      BeginUpsertKeeps(m.s, o);
      TasksKept(m.s, n.s, m.tasks);
      Appended(n.s, m.tasks, n.tasks[|m.tasks|..]);
    case Resume(i, a, now) =>
      if i < |m.tasks| { ContinueKeeps(w, m, i, a, now); } else { FlightsKeep(m.s, n.s); }
    case _ =>
      FlightsKeep(m.s, n.s);
      NewTasksOk(w, m, e);
      TasksKept(m.s, n.s, m.tasks);
      TasksKept(m.s, n.s, n.tasks[|m.tasks|..]);
      Appended(n.s, m.tasks, n.tasks[|m.tasks|..]);
  }

  lemma {:induction false} ReachableInv(w: World, start: Machine, run: seq<Event>)
    requires Inv(start)
    ensures Inv(Exec(w, start, run))
  {
    hide Step;
    if run == [] {
    } else {
      ReachableInv(w, start, run[..|run| - 1]);
      StepKeeps(w, Exec(w, start, run[..|run| - 1]), run[|run| - 1]);
    }
  }

  // ---- The main results ----

  /**
   In every interleaving an entry's owners are its key's owners, and an entry whose key has no binding was there at the
   start.
   */
  lemma EntriesMatchOwnership(w: World, start: Machine, run: seq<Event>, k: Key)
    requires Inv(start)
    ensures var s := Exec(w, start, run).s;
            k in s.entries.at ==>
              s.entries.at[k].boundPayTo == Owners(s, k) && (k in s.ownership || k in start.s.entries.at)
  {
    hide Step;
    ReachableInv(w, start, run);
    KeepsOverRun(w, start, run, 0);
    assert run[..0] == [];
  }

  lemma {:induction false} KeepsOverRun(w: World, start: Machine, run: seq<Event>, n: nat)
    requires Inv(start) && n <= |run|
    ensures Keeps(Exec(w, start, run[..n]).s, Exec(w, start, run).s)
  {
    hide Step;
    if n == |run| {
      assert run[..n] == run;
    } else {
      var prefix := run[..|run| - 1];
      assert prefix[..n] == run[..n];
      KeepsOverRun(w, start, prefix, n);
      ReachableInv(w, start, prefix);
      StepKeeps(w, Exec(w, start, prefix), run[|run| - 1]);
    }
  }

  /** The latch is for good: in every interleaving, a key once proven stays proven and keeps its owner list for ever. */
  lemma LatchIsForGood(w: World, start: Machine, run: seq<Event>, n: nat, k: Key)
    requires Inv(start) && n <= |run|
    ensures var s, t := Exec(w, start, run[..n]).s, Exec(w, start, run).s;
            k in s.everVerified ==>
              k in t.everVerified && k in s.ownership && k in t.ownership && t.ownership[k] == s.ownership[k]
  {
    hide Step;
    ReachableInv(w, start, run[..n]);
    KeepsOverRun(w, start, run, n);
  }

  /**
   A key once bound has an owner for ever, however often its entry is evicted, and changes hands at most once: an owner
   list that differs from an earlier one is latched, and is the key's owner list at every later moment.
   */
  lemma ChangesHandsOnce(w: World, start: Machine, run: seq<Event>, i: nat, j: nat, k: Key)
    requires Inv(start) && i <= j <= |run| && k in Exec(w, start, run[..i]).s.ownership
    ensures var s, t, u := Exec(w, start, run[..i]).s, Exec(w, start, run[..j]).s, Exec(w, start, run).s;
            && k in t.ownership && k in u.ownership
            && (t.ownership[k] != s.ownership[k] ==> k in t.everVerified && u.ownership[k] == t.ownership[k])
  {
    hide Step;
    assert run[..j][..i] == run[..i];
    KeepsOverRun(w, start, run[..j], i);
    KeepsOverRun(w, start, run, j);
  }

  // ---- How a binding or a latch can come about ----

  ghost predicate BindsOffered(before: map<Key, seq<Address>>, after: map<Key, seq<Address>>, o: Offer) {
    || after == before
    || (o.key.Some? && o.payTo.Some? && o.key.value !in before && after == before[o.key.value := [o.payTo.value]])
  }

  lemma BeginUpsertBinds(s: State, o: Offer)
    ensures var t := BeginUpsert(s, o).0;
            t.everVerified == s.everVerified && BindsOffered(s.ownership, t.ownership, o)
  {
    hide EvictToCap, Put, Candidate;
  }

  lemma EndDisplaceBinds(s: State, k: Key, o: Offer, claimant: Address, now: int, a: Answer)
    ensures var t := EndDisplace(s, k, o, claimant, now, a).0;
            || (t.everVerified == s.everVerified && t.ownership == s.ownership)
            || (&& a == Said(Match) && k !in s.everVerified && o.written && t.everVerified == s.everVerified + {k}
                && BindsOffered(s.ownership[k := [claimant]], t.ownership, o))
  {
    hide BeginUpsert;
    if EndDisplace(s, k, o, claimant, now, a).1.Rebinding? {
      var u := s.(displaceInFlight := s.displaceInFlight - {(k, claimant)},
                  displaceState := s.displaceState[(k, claimant) := Probe(Match, now)]);
      BeginUpsertBinds(Rebound(u, k, claimant), o);
    }
  }

  /** Which events touch the bindings and the latch, and how. */
  lemma StepBinds(w: World, m: Machine, e: Event)
    ensures var s, t := m.s, Step(w, m, e).s;
            || (t.everVerified == s.everVerified && t.ownership == s.ownership)
            || (e.CallUpsert? && t.everVerified == s.everVerified && BindsOffered(s.ownership, t.ownership, e.offer))
            || (e.Resume? && e.task < |m.tasks| && e.answer == Said(Match)
                && match m.tasks[e.task]
                   case Reverifying(k, _, _) =>
                     t.ownership == s.ownership && t.everVerified == s.everVerified + {k}
                   case Displacing(k, o, claimant, _) =>
                     && k !in s.everVerified && t.everVerified == s.everVerified + {k}
                     && BindsOffered(s.ownership[k := [claimant]], t.ownership, o)
                   case _ => false)
  {
    hide BeginUpsert, EndDisplace, EvictToCap, Put, BindsOffered;
    match e
    case CallUpsert(o) => BeginUpsertBinds(m.s, o);
    case Resume(i, a, now) =>
      if i < |m.tasks| && m.tasks[i].Displacing? {
        var t := m.tasks[i];
        EndDisplaceBinds(m.s, t.key, t.offer, t.claimant, t.at, a);
      }
    case _ =>
  }

  /** Event `e` is the end of a displacement probe for `k` that named the claimant. */
  ghost predicate ProvesClaim(m: Machine, e: Event, k: Key) {
    && e.Resume? && e.task < |m.tasks| && e.answer == Said(Match)
    && m.tasks[e.task].Displacing? && m.tasks[e.task].key == k
  }

  /** Event `e` is the end of a probe that asked about the owners `k` has now, and was answered with a match. */
  ghost predicate ProvesOwner(m: Machine, e: Event, k: Key) {
    && e.Resume? && e.task < |m.tasks| && e.answer == Said(Match)
    && m.tasks[e.task].Reverifying? && m.tasks[e.task].key == k
    && k in m.s.ownership && m.tasks[e.task].asked == m.s.ownership[k]
  }

  ghost predicate NewlyLatched(s: State, t: State, k: Key) {
    k in t.everVerified && k !in s.everVerified
  }

  /**
   Proof, and nothing else, moves or latches a binding. An owner list changes only when the resource itself named the
   claimant and the key was never proven, and then it is the claimant alone; and a key becomes proven only that way or
   when the resource named the very owners the key has at that moment, however long the probe took.
   */
  lemma OnlyProofMovesOwners(w: World, m: Machine, e: Event, k: Key)
    requires Inv(m) && k in m.s.ownership
    ensures var t := Step(w, m, e).s;
            && (k in t.ownership && t.ownership[k] != m.s.ownership[k] ==>
                  ProvesClaim(m, e, k) && k !in m.s.everVerified && t.ownership[k] == [m.tasks[e.task].claimant])
            && (NewlyLatched(m.s, t, k) ==> ProvesClaim(m, e, k) || ProvesOwner(m, e, k))
  {
    hide Step;
    StepBinds(w, m, e);
    if e.Resume? && e.task < |m.tasks| {
      assert TaskOk(m.s, m.tasks[e.task]);
    }
  }

  /** A key gets its first owner from a settlement offered for it, and that settlement's recipient is the only owner. */
  lemma FirstOwnerIsFirstSettler(w: World, m: Machine, e: Event, k: Key)
    requires Inv(m) && k !in m.s.ownership && k in Step(w, m, e).s.ownership
    ensures exists o: Offer :: OfferedBy(m, e, o) && o.key == Some(k) && o.payTo.Some?
                            && Step(w, m, e).s.ownership[k] == [o.payTo.value]
  {
    hide Step;
    StepBinds(w, m, e);
    if e.CallUpsert? {
      assert OfferedBy(m, e, e.offer);
    } else if e.Resume? && e.task < |m.tasks| {
      assert TaskOk(m.s, m.tasks[e.task]);
      if m.tasks[e.task].Displacing? { assert OfferedBy(m, e, m.tasks[e.task].offer); }
    }
  }

  ghost predicate OfferedBy(m: Machine, e: Event, o: Offer) {
    || (e.CallUpsert? && e.offer == o)
    || (e.Resume? && e.task < |m.tasks| && m.tasks[e.task].Displacing? && m.tasks[e.task].offer == o)
  }
}
