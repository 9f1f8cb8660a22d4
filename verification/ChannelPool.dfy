/**
 The channel pool: a fixed set of lanes, each available, in use or disabled. A lane is exclusive while its settlement
 runs, if releases and re-enablings keep a discipline that is stated here exactly.
 */
module ChannelPool {
  import opened Basics
  import opened Sorting

  type Address = string

  /** `available` in insertion order, as the pool hands lanes out. */
  datatype State = State(available: seq<Address>, inUse: set<Address>, disabled: set<Address>)

  /** A set keeps an element it already has in its place. */
  function Added(xs: seq<Address>, a: Address): seq<Address> {
    if a in xs then xs else xs + [a]
  }

  function Acquire(s: State): (State, Option<Address>) {
    if s.available == [] then (s, None)
    else (s.(available := Without(s.available, s.available[0]), inUse := s.inUse + {s.available[0]}),
          Some(s.available[0]))
  }

  function Release(s: State, a: Address): State {
    if a !in s.available && a !in s.inUse && a !in s.disabled then s
    else if a in s.disabled then s
    else s.(inUse := s.inUse - {a}, available := Added(s.available, a))
  }

  function Disable(s: State, a: Address): State {
    State(Without(s.available, a), s.inUse - {a}, s.disabled + {a})
  }

  function Enable(s: State, a: Address): State {
    if a !in s.disabled then s
    else s.(disabled := s.disabled - {a}, available := Added(s.available, a))
  }

  // ---- Runs: every acquisition is a numbered hold ----

  /** The pool, the lane each hold got, and the holds already released. */
  datatype World = World(members: set<Address>, pool: State, holds: seq<Address>, released: set<nat>)

  datatype Event =
    | DoAcquire
    | DoRelease(hold: nat)
    | DoDisable(lane: Address)
    | DoEnable(lane: Address)

  predicate Outstanding(w: World, hold: nat) {
    hold < |w.holds| && hold !in w.released
  }

  ghost predicate Held(w: World, lane: Address) {
    exists i: nat :: Outstanding(w, i) && w.holds[i] == lane
  }

  function Step(w: World, e: Event): World {
    match e
    case DoAcquire =>
      var (pool, lane) := Acquire(w.pool);
      if lane.None? then w else w.(pool := pool, holds := w.holds + [lane.value])
    case DoRelease(hold) =>
      if hold >= |w.holds| then w
      else w.(pool := Release(w.pool, w.holds[hold]), released := w.released + {hold})
    case DoDisable(lane) => w.(pool := Disable(w.pool, lane))
    case DoEnable(lane) => w.(pool := Enable(w.pool, lane))
  }

  /** The three sets share no lane and make up exactly the lanes the pool was built with. */
  ghost predicate Partition(w: World) {
    && Distinct(w.pool.available)
    && (set a | a in w.pool.available) !! w.pool.inUse
    && (set a | a in w.pool.available) !! w.pool.disabled
    && w.pool.inUse !! w.pool.disabled
    && (set a | a in w.pool.available) + w.pool.inUse + w.pool.disabled == w.members
  }

  /** No lane is held twice, none that is held is on offer, and every lane in use is held. */
  ghost predicate Exclusive(w: World) {
    && (forall i: nat, j: nat :: Outstanding(w, i) && Outstanding(w, j) && w.holds[i] == w.holds[j] ==> i == j)
    && (forall i: nat :: Outstanding(w, i) ==> w.holds[i] !in w.pool.available)
    && (forall a :: a in w.pool.inUse ==> Held(w, a))
    && (forall i: nat :: i < |w.holds| ==> w.holds[i] in w.members)
  }

  ghost predicate Good(w: World) {
    Partition(w) && Exclusive(w) && forall i :: i in w.released ==> i < |w.holds|
  }

  /**
   What callers must check before an event: only members are disabled; a hold is released a second time only while its
   lane is not in use; and a disabled lane is enabled only once nobody holds it.
   */
  ghost predicate Allowed(w: World, e: Event) {
    match e
    case DoAcquire => true
    case DoRelease(hold) => hold in w.released && hold < |w.holds| ==> w.holds[hold] !in w.pool.inUse
    case DoDisable(lane) => lane in w.members
    case DoEnable(lane) => lane in w.pool.disabled ==> !Held(w, lane)
  }

  /** A lane handed out is held by nobody at that moment. */
  lemma AcquireKeepsGood(w: World)
    requires Good(w)
    ensures Good(Step(w, DoAcquire))
    ensures w.pool.available != [] ==> !Held(w, w.pool.available[0])
  {
    if w.pool.available != [] {
      WithoutRemovesOne(w.pool.available, w.pool.available[0]);
      var t, a := Step(w, DoAcquire), w.pool.available[0];
      var n := |w.holds|;
      assert forall i: nat :: i < n ==> t.holds[i] == w.holds[i];
      assert forall i: nat :: i < n ==> (Outstanding(t, i) <==> Outstanding(w, i));
      assert Outstanding(t, n) && t.holds[n] == a;
      forall x | x in t.pool.inUse ensures Held(t, x) {
        if x != a {
          var i: nat :| Outstanding(w, i) && w.holds[i] == x;
          assert Outstanding(t, i) && t.holds[i] == x;
        }
      }
      assert (set x | x in w.pool.available) == (set x | x in t.pool.available) + {a};
    }
  }

  lemma ReleaseIsExact(w: World, hold: nat)
    requires Good(w)
    ensures Good(Step(w, DoRelease(hold))) <==> Allowed(w, DoRelease(hold))
  {
    if hold < |w.holds| {
      var t, a := Step(w, DoRelease(hold)), w.holds[hold];
      assert forall i: nat :: Outstanding(t, i) <==> Outstanding(w, i) && i != hold;
      if Allowed(w, DoRelease(hold)) {
        forall x | x in t.pool.inUse ensures Held(t, x) {
          var i: nat :| Outstanding(w, i) && w.holds[i] == x;
          assert Outstanding(t, i) && t.holds[i] == x;
        }
        forall i: nat | Outstanding(t, i) ensures t.holds[i] !in t.pool.available {
          assert Outstanding(w, i);
        }
        PartitionAfterRelease(w, t, a);
      } else {
        var i: nat :| Outstanding(w, i) && w.holds[i] == a;
        assert Outstanding(t, i) && t.holds[i] in t.pool.available;
      }
    }
  }

  lemma PartitionAfterRelease(w: World, t: World, a: Address)
    requires Partition(w) && t.members == w.members && t.pool == Release(w.pool, a)
    ensures Partition(t)
  {
    if t.pool != w.pool {
      assert (set x | x in t.pool.available) == (set x | x in w.pool.available) + {a};
    }
  }

  lemma DisableIsExact(w: World, lane: Address)
    requires Good(w)
    ensures Good(Step(w, DoDisable(lane))) <==> Allowed(w, DoDisable(lane))
  {
    var t := Step(w, DoDisable(lane));
    WithoutRemovesOne(w.pool.available, lane);
    assert forall i: nat :: Outstanding(t, i) <==> Outstanding(w, i);
    assert (set x | x in t.pool.available) == (set x | x in w.pool.available) - {lane};
    forall x | x in t.pool.inUse ensures Held(t, x) {
      var i: nat :| Outstanding(w, i) && w.holds[i] == x;
      assert Outstanding(t, i) && t.holds[i] == x;
    }
    if lane !in w.members { assert lane in t.pool.disabled; }
  }

  lemma EnableIsExact(w: World, lane: Address)
    requires Good(w)
    ensures Good(Step(w, DoEnable(lane))) <==> Allowed(w, DoEnable(lane))
  {
    var t := Step(w, DoEnable(lane));
    assert forall i: nat :: Outstanding(t, i) <==> Outstanding(w, i);
    forall x | x in t.pool.inUse ensures Held(t, x) {
      var i: nat :| Outstanding(w, i) && w.holds[i] == x;
      assert Outstanding(t, i) && t.holds[i] == x;
    }
    if lane in w.pool.disabled {
      assert (set x | x in t.pool.available) == (set x | x in w.pool.available) + {lane};
      if Held(w, lane) {
        var i: nat :| Outstanding(w, i) && w.holds[i] == lane;
        assert Outstanding(t, i) && t.holds[i] in t.pool.available;
      }
    }
  }

  /** The discipline is exact: from a good state an event leads to a good state if and only if it is allowed. */
  lemma DisciplineIsExact(w: World, e: Event)
    requires Good(w)
    ensures Good(Step(w, e)) <==> Allowed(w, e)
  {
    match e
    case DoAcquire => AcquireKeepsGood(w);
    case DoRelease(hold) => ReleaseIsExact(w, hold);
    case DoDisable(lane) => DisableIsExact(w, lane);
    case DoEnable(lane) => EnableIsExact(w, lane);
  }

  function Built(addresses: seq<Address>): World {
    World((set a | a in addresses), State(Deduplicated(addresses), {}, {}), [], {})
  }

  /** A set built from a list keeps the first occurrence of each element. */
  function Deduplicated(xs: seq<Address>): (r: seq<Address>)
    ensures Distinct(r) && forall x :: x in r <==> x in xs
  {
    if xs == [] then []
    else
      var last := xs[|xs| - 1];
      assert xs == xs[..|xs| - 1] + [last];
      Added(Deduplicated(xs[..|xs| - 1]), last)
  }

  function Exec(addresses: seq<Address>, run: seq<Event>): World {
    if run == [] then Built(addresses) else Step(Exec(addresses, run[..|run| - 1]), run[|run| - 1])
  }

  ghost predicate Disciplined(addresses: seq<Address>, run: seq<Event>) {
    forall n :: 0 <= n < |run| ==> Allowed(Exec(addresses, run[..n]), run[n])
  }

  ghost predicate AlwaysGood(addresses: seq<Address>, run: seq<Event>) {
    forall n :: 0 <= n <= |run| ==> Good(Exec(addresses, run[..n]))
  }

  lemma BuiltIsGood(addresses: seq<Address>)
    ensures Good(Built(addresses))
  {
    assert (set a | a in Deduplicated(addresses)) == (set a | a in addresses);
  }

  lemma AlwaysGoodLast(addresses: seq<Address>, run: seq<Event>)
    requires run != []
    ensures AlwaysGood(addresses, run) <==>
            AlwaysGood(addresses, run[..|run| - 1]) && Good(Exec(addresses, run))
  {
    hide Exec, Good;
    var prefix := run[..|run| - 1];
    assert run[..|run|] == run && forall n :: 0 <= n <= |prefix| ==> prefix[..n] == run[..n];
    if AlwaysGood(addresses, run) {
      forall n | 0 <= n <= |prefix| ensures Good(Exec(addresses, prefix[..n])) {
        assert Good(Exec(addresses, run[..n]));
      }
    }
    if AlwaysGood(addresses, prefix) && Good(Exec(addresses, run)) {
      forall n | 0 <= n <= |run| ensures Good(Exec(addresses, run[..n])) {
        if n < |run| { assert Good(Exec(addresses, prefix[..n])); }
      }
    }
  }

  lemma DisciplinedLast(addresses: seq<Address>, run: seq<Event>)
    requires run != []
    ensures Disciplined(addresses, run) <==>
            Disciplined(addresses, run[..|run| - 1]) && Allowed(Exec(addresses, run[..|run| - 1]), run[|run| - 1])
  {
    hide Exec, Allowed;
    var prefix := run[..|run| - 1];
    assert forall n :: 0 <= n < |prefix| ==> prefix[..n] == run[..n] && prefix[n] == run[n];
    if Disciplined(addresses, run) {
      forall n | 0 <= n < |prefix| ensures Allowed(Exec(addresses, prefix[..n]), prefix[n]) {
        assert Allowed(Exec(addresses, run[..n]), run[n]);
      }
      assert Allowed(Exec(addresses, run[..|run| - 1]), run[|run| - 1]);
    }
    if Disciplined(addresses, prefix) && Allowed(Exec(addresses, prefix), run[|run| - 1]) {
      forall n | 0 <= n < |run| ensures Allowed(Exec(addresses, run[..n]), run[n]) {
        if n < |prefix| { assert Allowed(Exec(addresses, prefix[..n]), prefix[n]); }
      }
    }
  }

  /**
   Exclusive lanes, exactly: throughout a run the sets partition the lanes and no lane is held twice, if and only if the
   run keeps the discipline.
   */
  lemma {:induction false} LanesAreExclusiveExactly(addresses: seq<Address>, run: seq<Event>)
    ensures AlwaysGood(addresses, run) <==> Disciplined(addresses, run)
  {
    if run == [] {
      assert run[..0] == [];
      BuiltIsGood(addresses);
    } else {
      hide AlwaysGood, Disciplined, Good, Allowed, Step;
      var prefix := run[..|run| - 1];
      LanesAreExclusiveExactly(addresses, prefix);
      AlwaysGoodLast(addresses, run);
      DisciplinedLast(addresses, run);
      if AlwaysGood(addresses, prefix) {
        GoodSoFar(addresses, prefix);
        DisciplineIsExact(Exec(addresses, prefix), run[|run| - 1]);
      }
    }
  }

  lemma GoodSoFar(addresses: seq<Address>, run: seq<Event>)
    requires AlwaysGood(addresses, run)
    ensures Good(Exec(addresses, run))
  {
    assert run[..|run|] == run;
  }

  /** In particular, at the end of every disciplined run. */
  lemma LanesAreExclusive(addresses: seq<Address>, run: seq<Event>)
    requires Disciplined(addresses, run)
    ensures Good(Exec(addresses, run))
  {
    LanesAreExclusiveExactly(addresses, run);
    GoodSoFar(addresses, run);
  }

  // ---- The first lanes ----

  /** Where a lane first stands in the configured list. */
  function FirstAt(xs: seq<Address>, a: Address): (n: nat)
    ensures n <= |xs| && (n < |xs| ==> xs[n] == a) && forall i :: 0 <= i < n ==> xs[i] != a
  {
    if xs == [] then 0 else if xs[0] == a then 0 else 1 + FirstAt(xs[1..], a)
  }

  lemma FirstAtStays(xs: seq<Address>, x: Address, a: Address)
    requires a in xs
    ensures FirstAt(xs + [x], a) == FirstAt(xs, a) < |xs|
  {
    var n, m := FirstAt(xs, a), FirstAt(xs + [x], a);
    assert forall i :: 0 <= i < |xs| ==> (xs + [x])[i] == xs[i];
    var i :| 0 <= i < |xs| && xs[i] == a;
    assert n <= i;
    assert (xs + [x])[n] == a;
  }

  /** At first the lanes are free in the order in which they were configured, each once. */
  lemma {:induction false} ConfiguredOrder(xs: seq<Address>, i: nat, j: nat)
    requires i < j < |Deduplicated(xs)|
    ensures var r := Deduplicated(xs); FirstAt(xs, r[i]) < FirstAt(xs, r[j])
  {
    if xs == [] {
    } else {
      var init, last := xs[..|xs| - 1], xs[|xs| - 1];
      var before, r := Deduplicated(init), Deduplicated(xs);
      assert xs == init + [last] && r == Added(before, last);
      assert before[i] in before;
      FirstAtStays(init, last, before[i]);
      if j < |before| {
        ConfiguredOrder(init, i, j);
        assert before[j] in before;
        FirstAtStays(init, last, before[j]);
      } else {
        assert r[j] == last && last !in init;
        assert FirstAt(xs, last) == |init|;
      }
    }
  }

  // ---- Who gets which lane ----

  /** The pool is exhausted exactly when every lane is held or disabled. */
  lemma ExhaustedExactly(w: World)
    requires Good(w)
    ensures Acquire(w.pool).1.None? <==> forall a :: a in w.members ==> Held(w, a) || a in w.pool.disabled
  {
    var free := set a | a in w.pool.available;
    assert forall a :: a in w.members <==> a in free + w.pool.inUse + w.pool.disabled;
    if w.pool.available != [] {
      var a := w.pool.available[0];
      assert a in free && a in w.members && !Held(w, a) && a !in w.pool.disabled;
    }
  }

  /** A hold released for the first time leaves its lane free, behind all others that are, unless it is disabled. */
  lemma ReleaseFrees(w: World, hold: nat)
    requires Good(w) && Outstanding(w, hold)
    ensures var t, a := Step(w, DoRelease(hold)), w.holds[hold];
            && !Held(t, a) && t.pool.disabled == w.pool.disabled
            && t.pool.available == if a in w.pool.disabled then w.pool.available else w.pool.available + [a]
  {
    var t, a := Step(w, DoRelease(hold)), w.holds[hold];
    assert forall i: nat :: Outstanding(t, i) <==> Outstanding(w, i) && i != hold;
    var free := set x | x in w.pool.available;
    assert a in free + w.pool.inUse + w.pool.disabled;
  }

  /** After how many events the lane last became free; -1 if it was free from the start. */
  ghost function FreeSince(addresses: seq<Address>, run: seq<Event>, a: Address): int {
    if run == [] then -1
    else
      var prefix := run[..|run| - 1];
      if a in Exec(addresses, run).pool.available && a !in Exec(addresses, prefix).pool.available then |run|
      else FreeSince(addresses, prefix, a)
  }

  lemma {:induction false} FreeSinceIsPast(addresses: seq<Address>, run: seq<Event>, a: Address)
    ensures FreeSince(addresses, run, a) <= |run|
  {
    if run == [] {
    } else {
      FreeSinceIsPast(addresses, run[..|run| - 1], a);
    }
  }

  /** An event leaves the free lanes in their order, and at most puts one behind them. */
  ghost predicate QueueMoves(before: seq<Address>, after: seq<Address>) {
    || after == before
    || (exists a :: after == Without(before, a))
    || (exists a :: a !in before && after == before + [a])
  }

  lemma StepMovesQueue(w: World, e: Event)
    ensures QueueMoves(w.pool.available, Step(w, e).pool.available)
  {
    match e
    case DoAcquire =>
      if w.pool.available != [] {
        assert Step(w, e).pool.available == Without(w.pool.available, w.pool.available[0]);
      }
    case DoRelease(hold) =>
      if hold < |w.holds| && w.holds[hold] !in w.pool.available {
        var a := w.holds[hold];
        assert Step(w, e).pool.available == w.pool.available || Step(w, e).pool.available == w.pool.available + [a];
      }
    case DoDisable(lane) => assert Step(w, e).pool.available == Without(w.pool.available, lane);
    case DoEnable(lane) =>
      if lane !in w.pool.available {
        assert Step(w, e).pool.available in {w.pool.available, w.pool.available + [lane]};
      }
  }

  ghost predicate Fair(addresses: seq<Address>, run: seq<Event>, xs: seq<Address>) {
    forall i, j :: 0 <= i < j < |xs| ==>
      FreeSince(addresses, run, xs[i]) <= FreeSince(addresses, run, xs[j])
  }

  lemma {:induction false} WithoutIsFair(addresses: seq<Address>, run: seq<Event>, xs: seq<Address>, a: Address)
    requires Fair(addresses, run, xs)
    ensures Fair(addresses, run, Without(xs, a))
  {
    hide FreeSince;
    if xs == [] {
    } else {
      var init, last := xs[..|xs| - 1], xs[|xs| - 1];
      WithoutIsFair(addresses, run, init, a);
      var r := Without(init, a);
      forall i | 0 <= i < |r| ensures FreeSince(addresses, run, r[i]) <= FreeSince(addresses, run, last) {
        assert r[i] in init;
        var j :| 0 <= j < |init| && init[j] == r[i];
        assert xs[j] == r[i];
      }
    }
  }

  /** The free lanes stand in the order in which they became free. */
  lemma {:induction false} QueueIsFair(addresses: seq<Address>, run: seq<Event>)
    ensures Fair(addresses, run, Exec(addresses, run).pool.available)
  {
    if run == [] {
    } else {
      hide Step;
      var prefix := run[..|run| - 1];
      var before, after := Exec(addresses, prefix).pool.available, Exec(addresses, run).pool.available;
      QueueIsFair(addresses, prefix);
      StepMovesQueue(Exec(addresses, prefix), run[|run| - 1]);
      if a :| after == Without(before, a) {
        WithoutIsFair(addresses, prefix, before, a);
        SameSince(addresses, run, after);
      } else if after == before {
        SameSince(addresses, run, after);
      } else {
        var a :| a !in before && after == before + [a];
        SameSince(addresses, run, before);
        forall i | 0 <= i < |before| ensures FreeSince(addresses, run, before[i]) <= FreeSince(addresses, run, a) {
          FreeSinceIsPast(addresses, run, before[i]);
          assert FreeSince(addresses, run, a) == |run|;
        }
      }
    }
  }

  lemma SameSince(addresses: seq<Address>, run: seq<Event>, xs: seq<Address>)
    requires run != [] && Fair(addresses, run[..|run| - 1], xs)
    requires forall x :: x in xs ==> x in Exec(addresses, run[..|run| - 1]).pool.available
    ensures Fair(addresses, run, xs)
  {
    forall i, j | 0 <= i < j < |xs| ensures FreeSince(addresses, run, xs[i]) <= FreeSince(addresses, run, xs[j]) {
      assert xs[i] in xs && xs[j] in xs;
    }
  }

  /** First in, first out: the lane handed out is one that has been free for as long as any. */
  lemma LongestFreeGoesFirst(addresses: seq<Address>, run: seq<Event>, b: Address)
    requires b in Exec(addresses, run).pool.available
    ensures var lane := Acquire(Exec(addresses, run).pool).1;
            lane.Some? && FreeSince(addresses, run, lane.value) <= FreeSince(addresses, run, b)
  {
    hide FreeSince, Exec;
    var free := Exec(addresses, run).pool.available;
    QueueIsFair(addresses, run);
    var j :| 0 <= j < |free| && free[j] == b;
  }

  // ---- The pool object ----

  class Pool {
    var available: seq<Address>
    var inUse: set<Address>
    var disabled: set<Address>

    ghost function Abs(): State
      reads this
    {
      State(available, inUse, disabled)
    }

    constructor (addresses: seq<Address>)
      ensures Abs() == Built(addresses).pool
    {
      available, inUse, disabled := Deduplicated(addresses), {}, {};
    }

    method DoAcquire() returns (r: Option<Address>)
      modifies this
      ensures (Abs(), r) == Acquire(old(Abs()))
    {
      if available == [] { return None; }
      var address := available[0];
      available := Without(available, address);
      inUse := inUse + {address};
      return Some(address);
    }

    method DoRelease(address: Address)
      modifies this
      ensures Abs() == Release(old(Abs()), address)
    {
      if address !in available && address !in inUse && address !in disabled { return; }
      if address in disabled { return; }
      inUse := inUse - {address};
      available := Added(available, address);
    }

    method DoDisable(address: Address)
      modifies this
      ensures Abs() == Disable(old(Abs()), address)
    {
      available := Without(available, address);
      inUse := inUse - {address};
      disabled := disabled + {address};
    }

    method DoEnable(address: Address)
      modifies this
      ensures Abs() == Enable(old(Abs()), address)
    {
      if address !in disabled { return; }
      disabled := disabled - {address};
      available := Added(available, address);
    }
  }
}
