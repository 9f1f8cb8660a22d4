/**
 How far apart two probes in a row start: by the cooldown of the first one's verdict, for probes of a key and for
 probes of a key on behalf of one claimant.
 */
module CatalogSpacing {
  import opened Basics
  import opened Catalog
  import opened CatalogRuns
  import opened CatalogProbes

  /** What a cooldown is kept for. */
  datatype Subject = OfKey(key: Key) | OfClaim(claimed: Key, claimant: Address)

  /** The call is out probing the subject. */
  predicate Probing(t: Task, g: Subject) {
    match g
    case OfKey(k) => (t.Reverifying? || t.BootProbing?) && t.key == k
    case OfClaim(k, c) => t.Displacing? && t.key == k && t.claimant == c
  }

  /** The last verdict noted for the subject. */
  function Noted(s: State, g: Subject): Option<Probe> {
    match g
    case OfKey(k) => if k in s.verifyState then Some(s.verifyState[k]) else None
    case OfClaim(k, c) => if (k, c) in s.displaceState then Some(s.displaceState[(k, c)]) else None
  }

  predicate CoolingFor(p: Option<Probe>, now: int) {
    p.Some? && now - p.value.at < CooldownFor(p.value.verdict)
  }

  /** The event starts a probe of the subject. */
  ghost predicate Starts(w: World, m: Machine, e: Event, g: Subject) {
    var n := Step(w, m, e);
    |n.tasks| > |m.tasks| && Probing(n.tasks[|m.tasks|], g)
  }

  /** A settlement starts a probe of the subject, at this time. */
  ghost predicate SettlementStarts(w: World, m: Machine, e: Event, g: Subject, now: int) {
    match g
    case OfKey(k) => e.CallReverify? && e.key == k && e.now == now && MayReverify(w, m.s, k, e.settler, now)
    case OfClaim(k, c) =>
      e.CallDisplace? && e.claimed == Some(k) && e.claimant == c && e.at == now && MayDisplace(w, m.s, Some(k), c, now)
  }

  ghost predicate NoneBut(m: Machine, x: nat, g: Subject) {
    forall y :: 0 <= y < |m.tasks| && y != x ==> !Probing(m.tasks[y], g)
  }

  lemma GateReadsTheNote(w: World, m: Machine, e: Event, g: Subject, now: int)
    requires SettlementStarts(w, m, e, g, now)
    ensures !CoolingFor(Noted(m.s, g), now)
  {
  }

  lemma NoneProbing(m: Machine, g: Subject)
    requires Tracked(m)
    requires if g.OfKey? then g.key !in m.s.verifyInFlight else (g.claimed, g.claimant) !in m.s.displaceInFlight
    ensures forall y :: 0 <= y < |m.tasks| ==> !Probing(m.tasks[y], g)
  {
    forall y | 0 <= y < |m.tasks| ensures !Probing(m.tasks[y], g) {
      assert VerifyTags(m.tasks)[y] in VerifyTags(m.tasks);
      assert ClaimTags(m.tasks)[y] in ClaimTags(m.tasks);
    }
  }

  /** A settlement's probe starts alone. */
  lemma StartsAlone(w: World, m: Machine, e: Event, g: Subject, now: int)
    requires Tracked(m) && SettlementStarts(w, m, e, g, now)
    ensures var n, x := Step(w, m, e), |m.tasks|;
            && |n.tasks| == x + 1 && Probing(n.tasks[x], g) && NoneBut(n, x, g)
            && !n.tasks[x].BootProbing? && n.tasks[x].at == now
  {
    hide Tracked;
    NoneProbing(m, g);
  }

  /** What one event does to a probe that is out, and to the note, when it starts no other. */
  lemma StepNotes(w: World, m: Machine, e: Event, g: Subject, x: nat)
    requires x < |m.tasks| && NoneBut(m, x, g) && !Starts(w, m, e, g)
    ensures var n := Step(w, m, e);
            && |n.tasks| >= |m.tasks| && NoneBut(n, x, g)
            && (e.Resume? && e.task == x && Probing(m.tasks[x], g) && !m.tasks[x].BootProbing? ==>
                  !Probing(n.tasks[x], g) && Noted(n.s, g) == Some(Probe(VerdictOf(e.answer), m.tasks[x].at)))
            && (!(e.Resume? && e.task == x) ==> n.tasks[x] == m.tasks[x])
            && (!(e.Resume? && e.task == x && Probing(m.tasks[x], g)) ==> Noted(n.s, g) == Noted(m.s, g))
            && (!Probing(m.tasks[x], g) ==> !Probing(n.tasks[x], g))
  {
    hide BeginUpsert, EndDisplace, EvictToCap, MayReverify, MayDisplace, BootCandidates;
    match e
    case CallUpsert(o) => BeginUpsertFlights(m.s, o);
    case Resume(i, a, now) =>
      if i < |m.tasks| {
        ContinueAlone(w, m, i, a, now, g, x);
        ContinueNotes(w, m, i, a, now, g, x);
      }
    case _ =>
  }

  lemma ContinueAlone(w: World, m: Machine, i: nat, a: Answer, now: int, g: Subject, x: nat)
    requires x < |m.tasks| && i < |m.tasks| && NoneBut(m, x, g) && !Starts(w, m, Resume(i, a, now), g)
    ensures var n := Continue(w, m, i, a, now);
            && |n.tasks| >= |m.tasks| && NoneBut(n, x, g)
            && (i != x ==> n.tasks[x] == m.tasks[x])
            && (!Probing(m.tasks[x], g) ==> !Probing(n.tasks[x], g))
  {
    hide EndDisplace, EvictToCap, EndUpsert, EndReverify, SetVerified;
    assert i != x ==> !Probing(m.tasks[i], g);
  }

  lemma ContinueNotes(w: World, m: Machine, i: nat, a: Answer, now: int, g: Subject, x: nat)
    requires x < |m.tasks| && i < |m.tasks| && NoneBut(m, x, g) && !Starts(w, m, Resume(i, a, now), g)
    ensures var n := Continue(w, m, i, a, now);
            && |n.tasks| >= |m.tasks|
            && (i == x && Probing(m.tasks[x], g) && !m.tasks[x].BootProbing? ==>
                  !Probing(n.tasks[x], g) && Noted(n.s, g) == Some(Probe(VerdictOf(a), m.tasks[x].at)))
            && (!(i == x && Probing(m.tasks[x], g)) ==> Noted(n.s, g) == Noted(m.s, g))
  {
    hide EndDisplace, EvictToCap;
    assert i != x ==> !Probing(m.tasks[i], g);
    if m.tasks[i].Displacing? {
      var t := m.tasks[i];
      EndDisplaceFlights(m.s, t.key, t.offer, t.claimant, t.at, a);
    }
  }

  /** From event `i` on, with no other probe of the subject in between, its probe is out or its verdict is the note. */
  lemma {:induction false} OutOrNoted(w: World, start: Machine, run: seq<Event>, i: nat, g: Subject, now: int)
    returns (r: nat)
    requires Tracked(start)
    requires i < |run| && SettlementStarts(w, Exec(w, start, run[..i]), run[i], g, now)
    requires forall x :: i < x < |run| ==> !Starts(w, Exec(w, start, run[..x]), run[x], g)
    ensures var m, x := Exec(w, start, run), |Exec(w, start, run[..i]).tasks|;
            && x < |m.tasks| && NoneBut(m, x, g)
            && ((Probing(m.tasks[x], g) && !m.tasks[x].BootProbing? && m.tasks[x].at == now)
                || (!Probing(m.tasks[x], g) && i < r < |run| && run[r].Resume? && run[r].task == x
                    && Noted(m.s, g) == Some(Probe(VerdictOf(run[r].answer), now))))
  {
    hide Step, Starts, SettlementStarts, Noted;
    var prefix, e := run[..|run| - 1], run[|run| - 1];
    r := 0;
    if i == |run| - 1 {
      AlwaysTracked(w, start, prefix);
      StartsAlone(w, Exec(w, start, prefix), e, g, now);
    } else {
      assert prefix[..i] == run[..i];
      assert forall x :: 0 <= x < |prefix| ==> prefix[..x] == run[..x] && prefix[x] == run[x];
      r := OutOrNoted(w, start, prefix, i, g, now);
      var m, x := Exec(w, start, prefix), |Exec(w, start, run[..i]).tasks|;
      assert !Starts(w, Exec(w, start, run[..|run| - 1]), run[|run| - 1], g);
      StepNotes(w, m, e, g, x);
      if e.Resume? && e.task == x && Probing(m.tasks[x], g) { r := |run| - 1; }
    }
  }

  /**
   Spacing by verdict. When two settlements start probes of one key, or of one key for one claimant, and no other such
   probe starts in between, the first was answered before the second, and they start at least that verdict's cooldown
   apart: a day after a mismatch, a minute after a timeout, a quarter of an hour after anything else.
   */
  lemma ProbesAreSpacedByVerdict(w: World, start: Machine, run: seq<Event>, i: nat, j: nat, g: Subject,
                                t0: int, t1: int) returns (r: nat)
    requires Tracked(start) && i < j < |run|
    requires SettlementStarts(w, Exec(w, start, run[..i]), run[i], g, t0)
    requires SettlementStarts(w, Exec(w, start, run[..j]), run[j], g, t1)
    requires forall x :: i < x < j ==> !Starts(w, Exec(w, start, run[..x]), run[x], g)
    ensures i < r < j && run[r].Resume? && run[r].task == |Exec(w, start, run[..i]).tasks|
    ensures t1 - t0 >= CooldownFor(VerdictOf(run[r].answer))
  {
    hide Step, Starts, Exec;
    var so := run[..j];
    assert so[..i] == run[..i] && so[i] == run[i];
    assert forall x :: 0 <= x < j ==> so[..x] == run[..x] && so[x] == run[x];
    r := OutOrNoted(w, start, so, i, g, t0);
    GateReadsTheNote(w, Exec(w, start, so), run[j], g, t1);
    AlwaysTracked(w, start, so);
    NoneProbing(Exec(w, start, so), g);
  }
}
