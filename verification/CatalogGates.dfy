/**
 What the catalog lets through and what it refuses, in terms of owners, proofs, waiting calls and times: when a probe
 starts and when it may not, what a boot probe does, and that every refusal of a settlement is true.
 */
module CatalogGates {
  import opened Basics
  import opened OrderedMaps
  import opened Catalog
  import opened CatalogRuns
  import opened CatalogProbes
  import opened CatalogServing

  /** How long a verdict is left alone, in milliseconds: a day, a minute, or a quarter of an hour. */
  function Rest(v: Verdict): int {
    match v
    case Mismatch => 24 * 60 * 60 * 1000
    case Timeout => 60 * 1000
    case _ => 15 * 60 * 1000
  }

  ghost predicate Rested(p: Option<Probe>, now: int) {
    p.None? || now - p.value.at >= Rest(p.value.verdict)
  }

  function NoteOf(s: State, k: Key): Option<Probe> {
    if k in s.verifyState then Some(s.verifyState[k]) else None
  }

  function ClaimNoteOf(s: State, k: Key, claimant: Address): Option<Probe> {
    if (k, claimant) in s.displaceState then Some(s.displaceState[(k, claimant)]) else None
  }

  lemma CooldownIsRest(v: Verdict)
    ensures CooldownFor(v) == Rest(v)
  {
  }

  /** A call is out asking about the key for this claimant. */
  ghost predicate ClaimOut(m: Machine, k: Key, claimant: Address) {
    exists t :: t in m.tasks && t.Displacing? && t.key == k && t.claimant == claimant
  }

  /** A call is out asking about the key for its owners, or has yet to write down what it was told. */
  ghost predicate ProbeOut(m: Machine, k: Key) {
    exists t :: t in m.tasks && (t.Reverifying? || t.Leaving? || t.BootProbing?) && t.key == k
  }

  lemma ClaimOutIsInFlight(m: Machine, k: Key, claimant: Address)
    requires Tracked(m)
    ensures ClaimOut(m, k, claimant) <==> (k, claimant) in m.s.displaceInFlight
  {
    hide VerifyTags, VerifyTag;
    var tags := ClaimTags(m.tasks);
    if t :| t in m.tasks && t.Displacing? && t.key == k && t.claimant == claimant {
      var i :| 0 <= i < |m.tasks| && m.tasks[i] == t;
      assert tags[i] == Some((k, claimant));
    }
    if (k, claimant) in m.s.displaceInFlight {
      var i :| 0 <= i < |tags| && tags[i] == Some((k, claimant));
      assert m.tasks[i] in m.tasks;
    }
  }

  lemma ProbeOutIsInFlight(m: Machine, k: Key)
    requires Tracked(m)
    ensures ProbeOut(m, k) <==> k in m.s.verifyInFlight
  {
    hide ClaimTags, ClaimTag;
    var tags := VerifyTags(m.tasks);
    if t :| t in m.tasks && (t.Reverifying? || t.Leaving? || t.BootProbing?) && t.key == k {
      var i :| 0 <= i < |m.tasks| && m.tasks[i] == t;
      assert tags[i] == Some(k);
    }
    if k in m.s.verifyInFlight {
      var i :| 0 <= i < |tags| && tags[i] == Some(k);
      assert m.tasks[i] in m.tasks;
    }
  }

  /** Whether a claimant may be asked about: it is not yet an owner of a listed key that has owners and no proof. */
  ghost predicate MayClaim(w: World, m: Machine, k: Key, claimant: Address, now: int) {
    && k in m.s.entries.at && k !in m.s.everVerified && !w.templated(k)
    && Owners(m.s, k) != [] && claimant != "" && claimant !in Owners(m.s, k)
    && m.s.frozen != OwnershipUnreachable && m.s.frozen != OwnershipInvalid
    && !ClaimOut(m, k, claimant) && Rested(ClaimNoteOf(m.s, k, claimant), now)
  }

  /**
   A displacement probe starts if and only if the claimant may be asked about; then it waits, and nothing else changes
   but the mark that it is out. Otherwise the call changes nothing at all.
   */
  lemma ClaimStartsExactly(w: World, m: Machine, key: Option<Key>, o: Offer, claimant: Address, now: int)
    requires Inv(m) && Tracked(m)
    ensures Step(w, m, CallDisplace(key, o, claimant, now)) ==
            if key.Some? && MayClaim(w, m, key.value, claimant, now)
            then Machine(m.s.(displaceInFlight := m.s.displaceInFlight + {(key.value, claimant)}),
                         m.tasks + [Displacing(key.value, o, claimant, now)])
            else m
  {
    hide Tracked, Wf, CooldownFor, Rest;
    if key.Some? {
      ClaimOutIsInFlight(m, key.value, claimant);
      var note := ClaimNoteOf(m.s, key.value, claimant);
      if note.Some? { CooldownIsRest(note.value.verdict); }
    }
    assert m.tasks + [] == m.tasks;
  }

  /** Whether an owner's settlement may have the key asked about: it is listed without a badge. */
  ghost predicate MayAsk(w: World, m: Machine, k: Key, settler: Address, now: int) {
    && k in m.s.entries.at && !m.s.entries.at[k].verifiedOwner && !w.templated(k)
    && settler != "" && settler in Owners(m.s, k)
    && !ProbeOut(m, k) && Rested(NoteOf(m.s, k), now)
  }

  /** A probe for the owners of a key starts if and only if one of them settles and the key may be asked about. */
  lemma ProbeStartsExactly(w: World, m: Machine, k: Key, settler: Address, now: int)
    requires Inv(m) && Tracked(m)
    ensures Step(w, m, CallReverify(k, settler, now)) ==
            if MayAsk(w, m, k, settler, now)
            then Machine(m.s.(verifyInFlight := m.s.verifyInFlight + {k}),
                         m.tasks + [Reverifying(k, Owners(m.s, k), now)])
            else m
  {
    hide Tracked, Wf, CooldownFor, Rest;
    ProbeOutIsInFlight(m, k);
    var note := NoteOf(m.s, k);
    if note.Some? { CooldownIsRest(note.value.verdict); }
    assert m.tasks + [] == m.tasks;
  }

  /** A boot pass asks about every key that was proven, is listed without a badge and is not asked about already. */
  lemma BootAsksExactly(w: World, m: Machine, k: Key)
    requires Inv(m) && Tracked(m)
    ensures var n := Step(w, m, CallBoot);
            && n.s == m.s && |n.tasks| == |m.tasks| + 1 && n.tasks[|m.tasks|].BootQueue?
            && (k in n.tasks[|m.tasks|].keys <==>
                  && k in m.s.entries.at && k in m.s.everVerified && !m.s.entries.at[k].verifiedOwner
                  && Owners(m.s, k) != [] && !w.templated(k) && !ProbeOut(m, k))
  {
    hide Tracked;
    ProbeOutIsInFlight(m, k);
  }

  /**
   The queue of a boot pass goes through its keys one by one, and probes each that is still listed without a badge.
   */
  lemma BootProbeStartsExactly(w: World, m: Machine, i: nat, now: int)
    requires Tracked(m) && i < |m.tasks| && m.tasks[i].BootQueue? && m.tasks[i].keys != []
    ensures var ks, n := m.tasks[i].keys, Step(w, m, Resume(i, Threw, now));
            var starts := ks[0] in m.s.entries.at && !m.s.entries.at[ks[0]].verifiedOwner && !ProbeOut(m, ks[0]);
            && n.tasks == m.tasks[i := BootQueue(ks[1..])] + (if starts then [BootProbing(ks[0])] else [])
            && n.s == if starts then m.s.(verifyInFlight := m.s.verifyInFlight + {ks[0]}) else m.s
  {
    hide Tracked;
    ProbeOutIsInFlight(m, m.tasks[i].keys[0]);
  }

  /**
   What a boot probe does when it is answered: the verdict is noted, the badge goes up on a match and only then, the key
   may be asked about again, and no binding, latch or option changes. A probe that throws notes nothing.
   */
  lemma BootProbeIsExact(w: World, s: State, k: Key, now: int, a: Answer)
    requires w.canon(k) == Some(k)
    ensures var t := EndBootProbe(w, s, k, now, a);
            && t.ownership == s.ownership && t.everVerified == s.everVerified && t.frozen == s.frozen
            && t.displaceState == s.displaceState && t.displaceInFlight == s.displaceInFlight
            && t.verifyInFlight == s.verifyInFlight - {k}
            && t.verifyState == (if a.Said? then s.verifyState[k := Probe(a.verdict, now)] else s.verifyState)
            && t.entries == (if a == Said(Match) && k in s.entries.at
                             then OrderedMap(s.entries.keys, s.entries.at[k := s.entries.at[k].(verifiedOwner := true)])
                             else s.entries)
  {
  }

  /** Every refusal of a settlement names a cause that holds. */
  lemma RefusalsAreTrue(s: State, o: Offer)
    requires Served(s)
    ensures var outcome := Upsert(s, o).1;
            outcome.Rejected? ==>
              match outcome.reason
              case InvalidToolName => o.key.None?
              case UnroutableUrl => !o.routable
              case InvalidPayTo => o.payTo.None?
              case TombstoneMismatch =>
                && o.key.Some? && o.payTo.Some? && o.key.value !in s.entries.at && o.key.value in s.ownership
                && o.payTo.value !in s.ownership[o.key.value]
              case UnboundPayTo =>
                && o.key.Some? && o.payTo.Some? && o.key.value in s.entries.at
                && o.payTo.value !in Owners(s, o.key.value)
              case SchemaFailed => !o.schemaOk
              case BindingRefused =>
                && o.key.Some? && o.key.value !in s.entries.at
                && (|| s.frozen == OwnershipUnreachable || s.frozen == OwnershipInvalid
                    || (o.key.value !in s.ownership && (|s.ownership| >= 100000 || !o.written)))
  {
    hide Candidate, Install;
  }
}
