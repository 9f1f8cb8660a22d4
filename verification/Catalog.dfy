/**
 The discovery catalog: who owns a key, which payment options it serves, and when a proof of ownership may change that.
 A method that waits is written as one function for each stretch between two waits.
 */
module Catalog {
  import opened Basics
  import opened OrderedMaps
  import opened Sorting

  type Key = string
  type Address = string

  const MAX_ACCEPTS: nat := 20
  const MAX_ENTRIES: nat := 10000
  const MAX_TOMBSTONES: nat := 100000
  const COOLDOWN_MISMATCH: int := 86400000
  const COOLDOWN_UNVERIFIABLE: int := 900000
  const COOLDOWN_TIMEOUT: int := 60000

  /** How this host spells a key again when it is given one, if it can, and which keys are route templates. */
  datatype World = World(canon: Key -> Option<Key>, templated: Key -> bool)

  /** `terms` stands for the scheme, network, asset and amount of a payment option. */
  datatype Accept = Accept(payTo: Address, terms: string)
  datatype Entry = Entry(boundPayTo: seq<Address>, verifiedOwner: bool, accepts: seq<Accept>, lastUpdated: int)

  datatype Verdict = Match | Mismatch | Unverifiable | Timeout
  datatype Answer = Said(verdict: Verdict) | Threw
  datatype Probe = Probe(verdict: Verdict, at: int)
  datatype Frozen = NotFrozen | OwnershipUnreachable | OwnershipInvalid | TombstoneCap

  datatype State = State(
    entries: OrderedMap<Key, Entry>,
    /** The tombstones: a key's owners, kept when its entry is evicted. */
    ownership: map<Key, seq<Address>>,
    /** The one-way latch. */
    everVerified: set<Key>,
    frozen: Frozen,
    verifyState: map<Key, Probe>,
    verifyInFlight: set<Key>,
    displaceState: map<(Key, Address), Probe>,
    displaceInFlight: set<(Key, Address)>)

  /**
   One settled payment offered to the catalog. No key means an unusable tool name, no payTo an unusable identity;
   `written` says whether the store, if there is one, takes the write that makes a new binding durable.
   */
  datatype Offer = Offer(
    key: Option<Key>, routable: bool, payTo: Option<Address>, terms: string, schemaOk: bool, written: bool, at: int)

  datatype Reason =
    | InvalidToolName | UnroutableUrl | InvalidPayTo | TombstoneMismatch | UnboundPayTo | SchemaFailed | BindingRefused
  datatype Outcome = Cataloged(first: bool) | Rejected(reason: Reason)

  // ---- Eviction ----

  function Age(at: map<Key, Entry>, k: Key): int {
    if k in at then at[k].lastUpdated else 0
  }

  function ByAge(at: map<Key, Entry>): (Key, Key) -> bool {
    (a: Key, b: Key) => Age(at, a) <= Age(at, b)
  }

  function EvictToCap(m: OrderedMap<Key, Entry>, cap: nat): OrderedMap<Key, Entry> {
    var byAge := Sort(m.keys, ByAge(m.at));
    if |m.keys| <= cap then m else DropAll(m, byAge[..|m.keys| - cap])
  }

  lemma OldestFirst(m: OrderedMap<Key, Entry>, n: nat, k: Key, j: Key)
    requires Wf(m) && n <= |m.keys| && k in m.at && j in m.at
    requires var byAge := Sort(m.keys, ByAge(m.at)); k !in byAge[..n] && j in byAge[..n]
    ensures m.at[j].lastUpdated <= m.at[k].lastUpdated
  {
    var le := ByAge(m.at);
    var byAge := Sort(m.keys, le);
    SortSorts(m.keys, le);
    SameMultisetSameElements(m.keys, byAge);
    var x :| 0 <= x < n && byAge[x] == j;
    assert k in byAge;
    var y :| 0 <= y < |byAge| && byAge[y] == k;
    assert forall z :: 0 <= z < n ==> byAge[..n][z] == byAge[z];
    assert le(byAge[x], byAge[y]);
  }

  /** Eviction keeps the newest: at most the cap is left, unchanged, and nothing dropped is newer than anything kept. */
  lemma EvictionKeepsNewest(m: OrderedMap<Key, Entry>, cap: nat)
    requires Wf(m)
    ensures var r := EvictToCap(m, cap);
            && Wf(r) && |r.keys| == (if |m.keys| <= cap then |m.keys| else cap)
            && (forall k :: k in r.at ==> k in m.at && r.at[k] == m.at[k])
            && (forall k, j :: k in r.at && j in m.at && j !in r.at ==> m.at[j].lastUpdated <= m.at[k].lastUpdated)
  {
    hide Sort, DropAll;
    if |m.keys| > cap {
      var byAge := Sort(m.keys, ByAge(m.at));
      SortSorts(m.keys, ByAge(m.at));
      SameMultisetDistinct(m.keys, byAge);
      SameMultisetSameElements(m.keys, byAge);
      var n := |m.keys| - cap;
      DropAllDrops(m, byAge[..n]);
      var r := DropAll(m, byAge[..n]);
      forall k, j | k in r.at && j in m.at && j !in r.at ensures m.at[j].lastUpdated <= m.at[k].lastUpdated {
        OldestFirst(m, n, k, j);
      }
    }
  }

  // ---- Upsert ----

  /** Why a settlement is refused before any binding is tried, in the order of the checks. */
  function Refusal(s: State, o: Offer): Option<Reason> {
    if o.key.None? then Some(InvalidToolName)
    else if !o.routable then Some(UnroutableUrl)
    else if o.payTo.None? then Some(InvalidPayTo)
    else
      var k, p := o.key.value, o.payTo.value;
      if k !in s.entries.at && k in s.ownership && p !in s.ownership[k] then Some(TombstoneMismatch)
      else if k in s.entries.at && p !in s.entries.at[k].boundPayTo then Some(UnboundPayTo)
      else if !o.schemaOk then Some(SchemaFailed)
      else None
  }

  function AddAccept(accepts: seq<Accept>, a: Accept): seq<Accept> {
    if a in accepts || |accepts| >= MAX_ACCEPTS then accepts else accepts + [a]
  }

  function Candidate(s: State, o: Offer): Entry
    requires o.key.Some? && o.payTo.Some?
  {
    var k, a := o.key.value, Accept(o.payTo.value, o.terms);
    if k in s.entries.at then
      var e := s.entries.at[k];
      Entry(e.boundPayTo, e.verifiedOwner, AddAccept(e.accepts, a), o.at)
    else Entry([o.payTo.value], false, AddAccept([], a), o.at)
  }

  function Install(s: State, k: Key, e: Entry): State {
    s.(entries := EvictToCap(Put(s.entries, k, e), MAX_ENTRIES))
  }

  function BindOwnership(s: State, k: Key, p: Address, written: bool): (State, bool) {
    if k in s.ownership then (s, true)
    else if |s.ownership| >= MAX_TOMBSTONES then (s.(frozen := TombstoneCap), false)
    else if !written then (s, false)
    else (s.(ownership := s.ownership[k := [p]]), true)
  }

  predicate FrozenOnOwnership(s: State) {
    s.frozen == OwnershipUnreachable || s.frozen == OwnershipInvalid
  }

  /** What a first catalog still has to do when the binding is established. */
  datatype Pending = Pending(key: Key, payTo: Address, candidate: Entry)
  datatype Begun = Done(outcome: Outcome) | Waiting(pending: Pending)

  function BeginUpsert(s: State, o: Offer): (State, Begun) {
    var refusal := Refusal(s, o);
    if refusal.Some? then (s, Done(Rejected(refusal.value)))
    else
      var k, p, c := o.key.value, o.payTo.value, Candidate(s, o);
      if k in s.entries.at then (Install(s, k, c), Done(Cataloged(false)))
      else if FrozenOnOwnership(s) then (s, Done(Rejected(BindingRefused)))
      else
        var (t, bound) := BindOwnership(s, k, p, o.written);
        if bound then (t, Waiting(Pending(k, p, c))) else (t, Done(Rejected(BindingRefused)))
  }

  function EndUpsert(s: State, p: Pending): State {
    var bound := if p.key in s.ownership then s.ownership[p.key] else [p.payTo];
    Install(s, p.key, p.candidate.(boundPayTo := bound))
  }

  // ---- Verification ----

  function CooldownFor(v: Verdict): int {
    match v
    case Mismatch => COOLDOWN_MISMATCH
    case Timeout => COOLDOWN_TIMEOUT
    case _ => COOLDOWN_UNVERIFIABLE
  }

  predicate CoolingDown<K>(probes: map<K, Probe>, k: K, now: int) {
    k in probes && now - probes[k].at < CooldownFor(probes[k].verdict)
  }

  /** The badge goes to the entry of the key spelled again, if there is one. */
  function SetVerified(w: World, s: State, k: Key): State {
    var c := w.canon(k);
    if c.None? || c.value !in s.entries.at then s
    else s.(entries := Put(s.entries, c.value, s.entries.at[c.value].(verifiedOwner := true)))
  }

  predicate MayReverify(w: World, s: State, k: Key, settler: Address, now: int) {
    && k in s.entries.at
    && !s.entries.at[k].verifiedOwner
    && s.entries.at[k].boundPayTo != []
    && settler != "" && settler in s.entries.at[k].boundPayTo
    && !w.templated(k)
    && k !in s.verifyInFlight
    && !CoolingDown(s.verifyState, k, now)
  }

  function BeginReverify(w: World, s: State, k: Key, settler: Address, now: int): (State, bool) {
    if MayReverify(w, s, k, settler, now) then (s.(verifyInFlight := s.verifyInFlight + {k}), true) else (s, false)
  }

  /** After the probe. On a match the key stays in flight until the latch is written. */
  function EndReverify(w: World, s: State, k: Key, now: int, a: Answer): State {
    match a
    case Threw =>
      s.(verifyState := s.verifyState[k := Probe(Unverifiable, now)], verifyInFlight := s.verifyInFlight - {k})
    case Said(v) =>
      var t := s.(verifyState := s.verifyState[k := Probe(v, now)]);
      if v == Match then
        var u := SetVerified(w, t, k);
        u.(everVerified := u.everVerified + {k})
      else t.(verifyInFlight := t.verifyInFlight - {k})
  }

  function LeaveReverify(s: State, k: Key): State {
    s.(verifyInFlight := s.verifyInFlight - {k})
  }

  predicate BootCandidate(w: World, s: State, k: Key) {
    && k in s.entries.at && k in s.everVerified && !s.entries.at[k].verifiedOwner
    && s.entries.at[k].boundPayTo != [] && !w.templated(k) && k !in s.verifyInFlight
  }

  function BootCandidates(w: World, s: State, keys: seq<Key>): (r: seq<Key>)
    ensures forall k :: k in r <==> k in keys && BootCandidate(w, s, k)
  {
    if keys == [] then []
    else
      var rest := BootCandidates(w, s, keys[1..]);
      assert keys == [keys[0]] + keys[1..];
      if BootCandidate(w, s, keys[0]) then [keys[0]] + rest else rest
  }

  function BeginBootProbe(s: State, k: Key): (State, bool) {
    if k !in s.entries.at || s.entries.at[k].verifiedOwner || k in s.verifyInFlight then (s, false)
    else (s.(verifyInFlight := s.verifyInFlight + {k}), true)
  }

  function EndBootProbe(w: World, s: State, k: Key, now: int, a: Answer): State {
    var t :=
      match a
      case Threw => s
      case Said(v) =>
        var u := s.(verifyState := s.verifyState[k := Probe(v, now)]);
        if v == Match then SetVerified(w, u, k) else u;
    t.(verifyInFlight := t.verifyInFlight - {k})
  }

  // ---- Displacement, when no rotation is authorized ----

  predicate MayDisplace(w: World, s: State, key: Option<Key>, claimant: Address, now: int) {
    && key.Some?
    && var k := key.value;
    && k in s.entries.at
    && claimant != ""
    && claimant !in s.entries.at[k].boundPayTo
    && k !in s.everVerified
    && s.entries.at[k].boundPayTo != []
    && !w.templated(k)
    && !FrozenOnOwnership(s)
    && (k, claimant) !in s.displaceInFlight
    && !CoolingDown(s.displaceState, (k, claimant), now)
  }

  function BeginDisplace(w: World, s: State, key: Option<Key>, claimant: Address, now: int): (State, bool) {
    if MayDisplace(w, s, key, claimant, now)
    then (s.(displaceInFlight := s.displaceInFlight + {(key.value, claimant)}), true) else (s, false)
  }

  datatype Displacement = NotDisplaced | Rebinding(begun: Begun)

  /** After the probe: note the verdict, look at the latch again, move the binding, and catalog the claimant anew. */
  function EndDisplace(s: State, k: Key, o: Offer, claimant: Address, now: int, a: Answer): (State, Displacement) {
    var verdict := if a.Said? then a.verdict else Unverifiable;
    var t := s.(displaceInFlight := s.displaceInFlight - {(k, claimant)},
                displaceState := s.displaceState[(k, claimant) := Probe(verdict, now)]);
    if verdict != Match || k in t.everVerified || !o.written then (t, NotDisplaced)
    else
      var (u, begun) := BeginUpsert(Rebound(t, k, claimant), o);
      (u, Rebinding(begun))
  }

  /** The binding is the claimant's, latched, and the old entry is gone. */
  function Rebound(s: State, k: Key, claimant: Address): State {
    s.(ownership := s.ownership[k := [claimant]],
       everVerified := s.everVerified + {k},
       entries := Drop(s.entries, k))
  }
}
