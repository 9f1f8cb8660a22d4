/** How much a settlement can make the facilitator probe: one probe at a time, and a cooldown between two. */
module CatalogProbes {
  import opened Basics
  import opened Catalog
  import opened CatalogRuns

  /** The tags present are exactly the set, each once. */
  ghost predicate Tracks<K(!new)>(tags: seq<Option<K>>, inFlight: set<K>) {
    && (forall i, j :: 0 <= i < j < |tags| && tags[i].Some? ==> tags[i] != tags[j])
    && (forall k :: k in inFlight <==> Some(k) in tags)
  }

  lemma TracksAdded<K(!new)>(tags: seq<Option<K>>, inFlight: set<K>, k: K)
    requires Tracks(tags, inFlight) && k !in inFlight
    ensures Tracks(tags + [Some(k)], inFlight + {k})
  {
    var r := tags + [Some(k)];
    assert r[|tags|] == Some(k);
    forall j ensures j in inFlight + {k} <==> Some(j) in r {
      if Some(j) in tags {
        var i :| 0 <= i < |tags| && tags[i] == Some(j);
        assert r[i] == Some(j);
      }
    }
  }

  lemma TracksIdle<K(!new)>(tags: seq<Option<K>>, inFlight: set<K>)
    requires Tracks(tags, inFlight)
    ensures Tracks(tags + [None], inFlight)
  {
    var r := tags + [None];
    forall j ensures j in inFlight <==> Some(j) in r {
      if Some(j) in tags {
        var i :| 0 <= i < |tags| && tags[i] == Some(j);
        assert r[i] == Some(j);
      }
    }
  }

  lemma TracksRemoved<K(!new)>(tags: seq<Option<K>>, inFlight: set<K>, i: nat, k: K)
    requires Tracks(tags, inFlight) && i < |tags| && tags[i] == Some(k)
    ensures Tracks(tags[i := None], inFlight - {k})
  {
    var r := tags[i := None];
    forall j ensures j in inFlight - {k} <==> Some(j) in r {
      if j in inFlight - {k} {
        var x :| 0 <= x < |tags| && tags[x] == Some(j);
        assert r[x] == Some(j);
      }
    }
  }

  function VerifyTag(t: Task): Option<Key> {
    match t
    case Reverifying(k, _, _) => Some(k)
    case Leaving(k) => Some(k)
    case BootProbing(k) => Some(k)
    case _ => None
  }

  function ClaimTag(t: Task): Option<(Key, Address)> {
    match t
    case Displacing(k, _, claimant, _) => Some((k, claimant))
    case _ => None
  }

  function VerifyTags(tasks: seq<Task>): (r: seq<Option<Key>>)
    ensures |r| == |tasks| && forall i :: 0 <= i < |r| ==> r[i] == VerifyTag(tasks[i])
  {
    if tasks == [] then [] else [VerifyTag(tasks[0])] + VerifyTags(tasks[1..])
  }

  function ClaimTags(tasks: seq<Task>): (r: seq<Option<(Key, Address)>>)
    ensures |r| == |tasks| && forall i :: 0 <= i < |r| ==> r[i] == ClaimTag(tasks[i])
  {
    if tasks == [] then [] else [ClaimTag(tasks[0])] + ClaimTags(tasks[1..])
  }

  ghost predicate Tracked(m: Machine) {
    Tracks(VerifyTags(m.tasks), m.s.verifyInFlight) && Tracks(ClaimTags(m.tasks), m.s.displaceInFlight)
  }

  lemma TrackedAppend(m: Machine, t: State, x: Task)
    requires Tracked(m)
    requires t.verifyInFlight == m.s.verifyInFlight + (if VerifyTag(x).Some? then {VerifyTag(x).value} else {})
    requires t.displaceInFlight == m.s.displaceInFlight + (if ClaimTag(x).Some? then {ClaimTag(x).value} else {})
    requires VerifyTag(x).Some? ==> VerifyTag(x).value !in m.s.verifyInFlight
    requires ClaimTag(x).Some? ==> ClaimTag(x).value !in m.s.displaceInFlight
    ensures Tracked(Machine(t, m.tasks + [x]))
  {
    var vs, cs := VerifyTags(m.tasks), ClaimTags(m.tasks);
    assert VerifyTags(m.tasks + [x]) == vs + [VerifyTag(x)];
    assert ClaimTags(m.tasks + [x]) == cs + [ClaimTag(x)];
    match VerifyTag(x) {
      case Some(k) => TracksAdded(vs, m.s.verifyInFlight, k);
      case None => TracksIdle(vs, m.s.verifyInFlight);
    }
    match ClaimTag(x) {
      case Some(k) => TracksAdded(cs, m.s.displaceInFlight, k);
      case None => TracksIdle(cs, m.s.displaceInFlight);
    }
  }

  /** A waiting call goes on: its tag is kept, or dropped together with its flight. */
  ghost predicate GoesOn<K>(tag: Option<K>, next: Option<K>, inFlight: set<K>, left: set<K>) {
    || (next == tag && left == inFlight)
    || (tag.Some? && next.None? && left == inFlight - {tag.value})
  }

  lemma TracksOn<K(!new)>(tags: seq<Option<K>>, inFlight: set<K>, i: nat, next: Option<K>, left: set<K>)
    requires Tracks(tags, inFlight) && i < |tags| && GoesOn(tags[i], next, inFlight, left)
    ensures Tracks(tags[i := next], left)
  {
    if next == tags[i] {
      assert tags[i := next] == tags;
    } else {
      TracksRemoved(tags, inFlight, i, tags[i].value);
    }
  }

  lemma TrackedUpdate(m: Machine, t: State, i: nat, x: Task)
    requires Tracked(m) && i < |m.tasks|
    requires GoesOn(VerifyTag(m.tasks[i]), VerifyTag(x), m.s.verifyInFlight, t.verifyInFlight)
    requires GoesOn(ClaimTag(m.tasks[i]), ClaimTag(x), m.s.displaceInFlight, t.displaceInFlight)
    ensures Tracked(Machine(t, m.tasks[i := x]))
  {
    hide GoesOn, Tracks, VerifyTag, ClaimTag;
    var vs, cs := VerifyTags(m.tasks), ClaimTags(m.tasks);
    assert VerifyTags(m.tasks[i := x]) == vs[i := VerifyTag(x)];
    assert ClaimTags(m.tasks[i := x]) == cs[i := ClaimTag(x)];
    TracksOn(vs, m.s.verifyInFlight, i, VerifyTag(x), t.verifyInFlight);
    TracksOn(cs, m.s.displaceInFlight, i, ClaimTag(x), t.displaceInFlight);
  }

  lemma BeginUpsertFlights(s: State, o: Offer)
    ensures var t := BeginUpsert(s, o).0;
            && t.verifyInFlight == s.verifyInFlight && t.displaceInFlight == s.displaceInFlight
            && t.verifyState == s.verifyState && t.displaceState == s.displaceState
  {
    hide EvictToCap;
  }

  /** What is noted of an answer: a probe that throws has said nothing either way. */
  function VerdictOf(a: Answer): Verdict {
    if a.Said? then a.verdict else Unverifiable
  }

  lemma EndDisplaceFlights(s: State, k: Key, o: Offer, claimant: Address, now: int, a: Answer)
    ensures var t := EndDisplace(s, k, o, claimant, now, a).0;
            && t.verifyInFlight == s.verifyInFlight && t.displaceInFlight == s.displaceInFlight - {(k, claimant)}
            && t.verifyState == s.verifyState
            && t.displaceState == s.displaceState[(k, claimant) := Probe(VerdictOf(a), now)]
  {
    hide BeginUpsert;
    var u := s.(displaceInFlight := s.displaceInFlight - {(k, claimant)},
                displaceState := s.displaceState[(k, claimant) := Probe(VerdictOf(a), now)]);
    BeginUpsertFlights(Rebound(u, k, claimant), o);
  }

  lemma StepTracks(w: World, m: Machine, e: Event)
    requires Tracked(m)
    ensures Tracked(Step(w, m, e))
  {
    hide BeginUpsert, EndDisplace, EvictToCap, Tracked;
    var n := Step(w, m, e);
    match e
    case CallUpsert(o) =>
      BeginUpsertFlights(m.s, o);
      var begun := BeginUpsert(m.s, o).1;
      if begun.Waiting? { TrackedAppend(m, n.s, Upserting(begun.pending, None)); } else { TrackedIdle(m, n.s); }
    case CallReverify(k, settler, now) =>
      if MayReverify(w, m.s, k, settler, now) {
        TrackedAppend(m, n.s, Reverifying(k, m.s.entries.at[k].boundPayTo, now));
      } else {
        TrackedIdle(m, n.s);
      }
    case CallBoot => TrackedAppend(m, n.s, BootQueue(BootCandidates(w, m.s, m.s.entries.keys)));
    case CallDisplace(k, o, claimant, now) =>
      if MayDisplace(w, m.s, k, claimant, now) {
        TrackedAppend(m, n.s, Displacing(k.value, o, claimant, now));
      } else {
        TrackedIdle(m, n.s);
      }
    case Resume(i, a, now) => if i < |m.tasks| { ContinueTracks(w, m, i, a, now); }
  }

  lemma TrackedIdle(m: Machine, t: State)
    requires Tracked(m) && t.verifyInFlight == m.s.verifyInFlight && t.displaceInFlight == m.s.displaceInFlight
    ensures Tracked(Machine(t, m.tasks + []))
  {
    assert m.tasks + [] == m.tasks;
  }

  lemma ContinueTracks(w: World, m: Machine, i: nat, a: Answer, now: int)
    requires Tracked(m) && i < |m.tasks|
    ensures Tracked(Continue(w, m, i, a, now))
  {
    hide EndDisplace, EvictToCap, Tracked;
    var n := Continue(w, m, i, a, now);
    match m.tasks[i]
    case Finished =>
    case BootQueue(ks) =>
      if ks == [] {
        TrackedUpdate(m, n.s, i, Finished);
      } else {
        TrackedUpdate(m, m.s, i, BootQueue(ks[1..]));
        var mid := Machine(m.s, m.tasks[i := BootQueue(ks[1..])]);
        if BeginBootProbe(m.s, ks[0]).1 { TrackedAppend(mid, n.s, BootProbing(ks[0])); } else { TrackedIdle(mid, n.s); }
      }
    case Displacing(k, o, claimant, at) =>
      EndDisplaceFlights(m.s, k, o, claimant, at, a);
      TrackedUpdate(m, n.s, i, n.tasks[i]);
    case _ => TrackedUpdate(m, n.s, i, n.tasks[i]);
  }

  lemma {:induction false} AlwaysTracked(w: World, start: Machine, run: seq<Event>)
    requires Tracked(start)
    ensures Tracked(Exec(w, start, run))
  {
    hide Step;
    if run == [] {
    } else {
      AlwaysTracked(w, start, run[..|run| - 1]);
      StepTracks(w, Exec(w, start, run[..|run| - 1]), run[|run| - 1]);
    }
  }

  /** In every interleaving, two calls that probe the same key, or the same key for the same claimant, never overlap. */
  lemma OneProbeAtATime(w: World, start: Machine, run: seq<Event>, i: nat, j: nat)
    requires Tracked(start)
    requires var tasks := Exec(w, start, run).tasks; i < |tasks| && j < |tasks| && i != j
    ensures var a, b := Exec(w, start, run).tasks[i], Exec(w, start, run).tasks[j];
            && (VerifyTag(a).Some? ==> VerifyTag(a) != VerifyTag(b))
            && (ClaimTag(a).Some? ==> ClaimTag(a) != ClaimTag(b))
  {
    AlwaysTracked(w, start, run);
    var m := Exec(w, start, run);
    var x, y := if i < j then i else j, if i < j then j else i;
    assert VerifyTags(m.tasks)[x].Some? ==> VerifyTags(m.tasks)[x] != VerifyTags(m.tasks)[y];
    assert ClaimTags(m.tasks)[x].Some? ==> ClaimTags(m.tasks)[x] != ClaimTags(m.tasks)[y];
  }

  // ---- Spacing ----

  function TimeOf(e: Event): Option<int> {
    match e
    case CallReverify(_, _, now) => Some(now)
    case CallDisplace(_, _, _, at) => Some(at)
    case Resume(_, _, when) => Some(when)
    case _ => None
  }

  /** The clock does not go back. */
  ghost predicate Clocked(run: seq<Event>) {
    forall i, j :: 0 <= i < j < |run| && TimeOf(run[i]).Some? && TimeOf(run[j]).Some? ==>
      TimeOf(run[i]).value <= TimeOf(run[j]).value
  }

  /** Event `i` starts a probe of `k`. */
  ghost predicate StartsProbe(w: World, start: Machine, run: seq<Event>, i: nat, k: Key) {
    && i < |run| && run[i].CallReverify? && run[i].key == k
    && MayReverify(w, Exec(w, start, run[..i]).s, k, run[i].settler, run[i].now)
  }

  /** Every probe of `k` under way started at `t0` or later, and one is under way or its verdict was noted since. */
  ghost predicate ProbedSince(m: Machine, k: Key, t0: int) {
    && (forall x :: x in m.tasks && x.Reverifying? && x.key == k ==> x.at >= t0)
    && ((k in m.s.verifyState && m.s.verifyState[k].at >= t0)
        || exists x :: x in m.tasks && x.Reverifying? && x.key == k)
  }

  lemma StepProbedSince(w: World, m: Machine, e: Event, k: Key, t0: int)
    requires ProbedSince(m, k, t0) && (TimeOf(e).Some? ==> TimeOf(e).value >= t0)
    ensures ProbedSince(Step(w, m, e), k, t0)
  {
    hide BeginUpsert, EndDisplace, EvictToCap, MayReverify, MayDisplace, BootCandidates;
    var n := Step(w, m, e);
    if e.CallUpsert? { BeginUpsertFlights(m.s, e.offer); }
    if e.Resume? && e.task < |m.tasks| && m.tasks[e.task].Displacing? {
      var t := m.tasks[e.task];
      EndDisplaceFlights(m.s, t.key, t.offer, t.claimant, t.at, e.answer);
    }
    if i: nat :| i < |m.tasks| && m.tasks[i].Reverifying? && m.tasks[i].key == k {
      ProbeGoesOn(w, m, e, i);
      if !(e.Resume? && e.task == i) { assert n.tasks[i] == m.tasks[i]; }
    }
  }

  /** A probe under way stays under way until it is resumed, and then its verdict is noted. */
  lemma ProbeGoesOn(w: World, m: Machine, e: Event, i: nat)
    requires i < |m.tasks| && m.tasks[i].Reverifying?
    ensures var n, k := Step(w, m, e), m.tasks[i].key;
            if e.Resume? && e.task == i then k in n.s.verifyState && n.s.verifyState[k].at == m.tasks[i].at
            else i < |n.tasks| && n.tasks[i] == m.tasks[i]
  {
    hide BeginUpsert, EndDisplace, EvictToCap, MayReverify, MayDisplace, BootCandidates;
  }

  lemma {:induction false} StillProbedSince(w: World, start: Machine, run: seq<Event>, i: nat, k: Key)
    requires Tracked(start)
    requires StartsProbe(w, start, run, i, k) && Clocked(run)
    ensures ProbedSince(Exec(w, start, run), k, run[i].now)
  {
    hide Step, MayReverify;
    var prefix, e := run[..|run| - 1], run[|run| - 1];
    if i == |run| - 1 {
      AlwaysTracked(w, start, prefix);
      JustStarted(w, Exec(w, start, prefix), k, e.settler, e.now);
    } else {
      assert prefix[..i] == run[..i];
      StillProbedSince(w, start, prefix, i, k);
      StepProbedSince(w, Exec(w, start, prefix), e, k, run[i].now);
    }
  }

  lemma NoneUnderWay(m: Machine, k: Key)
    requires Tracked(m) && k !in m.s.verifyInFlight
    ensures forall x :: x in m.tasks && x.Reverifying? ==> x.key != k
  {
    forall x | x in m.tasks && x.Reverifying? ensures x.key != k {
      var i :| 0 <= i < |m.tasks| && m.tasks[i] == x;
      assert VerifyTags(m.tasks)[i] == Some(x.key);
    }
  }

  lemma JustStarted(w: World, m: Machine, k: Key, settler: Address, now: int)
    requires Tracked(m) && MayReverify(w, m.s, k, settler, now)
    ensures ProbedSince(Step(w, m, CallReverify(k, settler, now)), k, now)
  {
    NoneUnderWay(m, k);
    var n := Step(w, m, CallReverify(k, settler, now));
    assert n.tasks[|m.tasks|].Reverifying?;
  }

  /**
   However many settlements trigger it and however they interleave, two settlement-triggered probes of one key start at
   least the shortest cooldown apart.
   */
  lemma ProbesAreSpaced(w: World, start: Machine, run: seq<Event>, i: nat, j: nat, k: Key)
    requires Tracked(start)
    requires i < j && StartsProbe(w, start, run, i, k) && StartsProbe(w, start, run, j, k) && Clocked(run)
    ensures run[j].now - run[i].now >= COOLDOWN_TIMEOUT
  {
    hide Step;
    assert run[..j][..i] == run[..i];
    StillProbedSince(w, start, run[..j], i, k);
    AlwaysTracked(w, start, run[..j]);
    NoneUnderWay(Exec(w, start, run[..j]), k);
  }
}
