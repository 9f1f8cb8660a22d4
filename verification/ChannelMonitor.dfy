/**
 The balance monitor of the channel pool: a failure-count automaton per lane, proved against the plain history of what
 was read, and its effect on the exclusivity the pool promises.
 */
module ChannelMonitor {
  import ChannelPool
  import opened Sorting

  type Address = ChannelPool.Address

  const CONSECUTIVE_FAILURE_LIMIT: nat := 5

  /** What one balance check gave: an exception, a number that is no balance, or a balance in stroops. */
  datatype Reading = Threw | NotFinite | Stroops(amount: int)

  datatype State = State(failures: map<Address, nat>, disabledByMonitor: set<Address>, pool: ChannelPool.State)

  predicate Failed(r: Reading) {
    !r.Stroops?
  }

  predicate Healthy(r: Reading, floor: int) {
    r.Stroops? && r.amount >= floor
  }

  predicate Low(r: Reading, floor: int) {
    r.Stroops? && r.amount < floor
  }

  function FailureCount(s: State, a: Address): nat {
    if a in s.failures then s.failures[a] else 0
  }

  function RecordFailure(s: State, a: Address): State {
    var count := FailureCount(s, a) + 1;
    var t := s.(failures := s.failures[a := count]);
    if count >= CONSECUTIVE_FAILURE_LIMIT && a !in s.disabledByMonitor
    then t.(pool := ChannelPool.Disable(t.pool, a), disabledByMonitor := t.disabledByMonitor + {a})
    else t
  }

  function CheckOne(s: State, floor: int, a: Address, r: Reading): State {
    if Failed(r) then RecordFailure(s, a)
    else
      var t := s.(failures := s.failures[a := 0]);
      if r.amount < floor && a !in s.disabledByMonitor
      then t.(pool := ChannelPool.Disable(t.pool, a), disabledByMonitor := t.disabledByMonitor + {a})
      else if r.amount >= floor && a in s.disabledByMonitor
      then t.(pool := ChannelPool.Enable(t.pool, a), disabledByMonitor := t.disabledByMonitor - {a})
      else t
  }

  /** Settlements hold lanes of the pool between checks; only the monitor disables and enables. */
  datatype Event =
    | Check(lane: Address, reading: Reading)
    | Acquire
    | Release(hold: nat)

  /** The monitor, and the pool with the holds that settlements have. */
  datatype Machine = Machine(failures: map<Address, nat>, disabledByMonitor: set<Address>, world: ChannelPool.World)

  function Seen(m: Machine): State {
    State(m.failures, m.disabledByMonitor, m.world.pool)
  }

  function Step(m: Machine, floor: int, e: Event): Machine {
    match e
    case Check(a, r) =>
      var t := CheckOne(Seen(m), floor, a, r);
      Machine(t.failures, t.disabledByMonitor, m.world.(pool := t.pool))
    case Acquire => m.(world := ChannelPool.Step(m.world, ChannelPool.DoAcquire))
    case Release(hold) => m.(world := ChannelPool.Step(m.world, ChannelPool.DoRelease(hold)))
  }

  function Exec(lanes: seq<Address>, floor: int, run: seq<Event>): Machine {
    if run == [] then Machine(map[], {}, ChannelPool.Built(lanes))
    else Step(Exec(lanes, floor, run[..|run| - 1]), floor, run[|run| - 1])
  }

  /** Everything that was ever read of one lane. */
  function Readings(run: seq<Event>, a: Address): seq<Reading> {
    if run == [] then []
    else
      var last := run[|run| - 1];
      Readings(run[..|run| - 1], a) + if last.Check? && last.lane == a then [last.reading] else []
  }

  ghost predicate AllFailed(h: seq<Reading>, from: int, to: int)
    requires 0 <= from <= to <= |h|
  {
    forall j :: from <= j < to ==> Failed(h[j])
  }

  /** Reading `i` gave reason to withdraw the lane: a low balance, or the first of five failures in a row. */
  ghost predicate Alarm(h: seq<Reading>, floor: int, i: int)
    requires 0 <= i < |h|
  {
    Low(h[i], floor) || (i + CONSECUTIVE_FAILURE_LIMIT <= |h| && AllFailed(h, i, i + CONSECUTIVE_FAILURE_LIMIT))
  }

  /** Since the last healthy reading there was a low balance or five failures in a row. */
  ghost predicate ShouldBeOut(h: seq<Reading>, floor: int) {
    exists i :: 0 <= i < |h| && Alarm(h, floor, i) && forall j :: i <= j < |h| ==> !Healthy(h[j], floor)
  }

  ghost predicate TrailingFailures(h: seq<Reading>, n: nat) {
    n <= |h| && AllFailed(h, |h| - n, |h|) && (n < |h| ==> !Failed(h[|h| - n - 1]))
  }

  /** How one more reading changes whether the lane should be out. */
  lemma OneMoreReading(h: seq<Reading>, floor: int, r: Reading, n: nat)
    requires TrailingFailures(h, n)
    ensures TrailingFailures(h + [r], if Failed(r) then n + 1 else 0)
    ensures ShouldBeOut(h + [r], floor) <==>
              Low(r, floor) || (Failed(r) && (ShouldBeOut(h, floor) || n + 1 >= CONSECUTIVE_FAILURE_LIMIT))
  {
    var g := h + [r];
    assert forall j :: 0 <= j < |h| ==> g[j] == h[j];
    if Failed(r) && ShouldBeOut(h, floor) {
      var i :| 0 <= i < |h| && Alarm(h, floor, i) && forall j :: i <= j < |h| ==> !Healthy(h[j], floor);
      assert Alarm(g, floor, i);
    }
    if Failed(r) && n + 1 >= CONSECUTIVE_FAILURE_LIMIT {
      assert Alarm(g, floor, |g| - CONSECUTIVE_FAILURE_LIMIT);
    }
    if Low(r, floor) {
      assert Alarm(g, floor, |h|);
    }
    if ShouldBeOut(g, floor) && Failed(r) && n + 1 < CONSECUTIVE_FAILURE_LIMIT {
      var i :| 0 <= i < |g| && Alarm(g, floor, i) && forall j :: i <= j < |g| ==> !Healthy(g[j], floor);
      if !Low(g[i], floor) {
        forall j | i <= j < i + CONSECUTIVE_FAILURE_LIMIT ensures Failed(h[j]) {
          assert Failed(g[j]);
        }
      }
      assert i < |h| && Alarm(h, floor, i);
      forall j | i <= j < |h| ensures !Healthy(h[j], floor) {
        assert !Healthy(g[j], floor);
      }
    }
  }

  /**
   The monitor against the full history: whatever settlements do in between, a lane is disabled exactly when, since its
   last healthy reading, there was a below-floor reading or five consecutive failures.
   */
  lemma {:induction false} DisabledIffAlarmed(lanes: seq<Address>, floor: int, run: seq<Event>, a: Address)
    ensures var m, h := Exec(lanes, floor, run), Readings(run, a);
            && (a in m.world.pool.disabled <==> ShouldBeOut(h, floor))
            && (a in m.world.pool.disabled <==> a in m.disabledByMonitor)
            && TrailingFailures(h, FailureCount(Seen(m), a))
  {
    if run == [] {
    } else {
      hide ShouldBeOut, TrailingFailures, Step;
      var prefix, last := run[..|run| - 1], run[|run| - 1];
      var m, h := Exec(lanes, floor, prefix), Readings(prefix, a);
      DisabledIffAlarmed(lanes, floor, prefix, a);
      if last.Check? && last.lane == a {
        OneMoreReading(h, floor, last.reading, FailureCount(Seen(m), a));
        CheckMovesLane(m, floor, a, last.reading);
      } else {
        OthersLeaveLane(m, floor, last, a);
        assert Readings(run, a) == h;
      }
    }
  }

  lemma CheckMovesLane(m: Machine, floor: int, a: Address, r: Reading)
    requires a in m.world.pool.disabled <==> a in m.disabledByMonitor
    ensures var t := Step(m, floor, Check(a, r));
            && FailureCount(Seen(t), a) == (if Failed(r) then FailureCount(Seen(m), a) + 1 else 0)
            && (a in t.world.pool.disabled <==> a in t.disabledByMonitor)
            && (a in t.world.pool.disabled <==>
                  || Low(r, floor)
                  || (Failed(r) && (a in m.world.pool.disabled
                                    || FailureCount(Seen(m), a) + 1 >= CONSECUTIVE_FAILURE_LIMIT)))
  {
  }

  lemma OthersLeaveLane(m: Machine, floor: int, e: Event, a: Address)
    requires !(e.Check? && e.lane == a)
    ensures var t := Step(m, floor, e);
            && (a in t.world.pool.disabled <==> a in m.world.pool.disabled)
            && (a in t.disabledByMonitor <==> a in m.disabledByMonitor)
            && FailureCount(Seen(t), a) == FailureCount(Seen(m), a)
  {
  }

  /** A global outage shorter than five checks takes no lane out: failures alone leave a healthy lane as it is. */
  lemma FewFailuresAreHarmless(lanes: seq<Address>, floor: int, run: seq<Event>, a: Address)
    requires var h := Readings(run, a);
             exists k: nat :: k <= |h| && |h| - k < CONSECUTIVE_FAILURE_LIMIT && AllFailed(h, k, |h|)
                              && (k > 0 ==> Healthy(h[k - 1], floor))
    ensures a !in Exec(lanes, floor, run).world.pool.disabled
  {
    DisabledIffAlarmed(lanes, floor, run, a);
  }

  // ---- Exclusive lanes under the monitor ----

  /** A healthy reading of a lane that the monitor disabled and that somebody still holds. */
  ghost predicate ReEnablesHeld(m: Machine, floor: int, e: Event) {
    && e.Check? && Healthy(e.reading, floor)
    && e.lane in m.disabledByMonitor && ChannelPool.Held(m.world, e.lane)
  }

  /** A hold released again while its lane is in use. */
  ghost predicate ReleasesAgain(m: Machine, e: Event) {
    e.Release? && !ChannelPool.Allowed(m.world, ChannelPool.DoRelease(e.hold))
  }

  ghost predicate Breaks(m: Machine, floor: int, e: Event) {
    ReEnablesHeld(m, floor, e) || ReleasesAgain(m, e)
  }

  ghost predicate Matched(m: Machine) {
    m.disabledByMonitor == m.world.pool.disabled
  }

  ghost predicate Watched(lanes: seq<Address>, run: seq<Event>) {
    forall e :: e in run && e.Check? ==> e.lane in lanes
  }

  /** One check is at most one event of the pool. */
  lemma CheckIsPoolEvent(m: Machine, floor: int, a: Address, r: Reading)
    ensures var t := Step(m, floor, Check(a, r)).world;
            if a in m.disabledByMonitor then
              t == if Healthy(r, floor) then ChannelPool.Step(m.world, ChannelPool.DoEnable(a)) else m.world
            else t == m.world || t == ChannelPool.Step(m.world, ChannelPool.DoDisable(a))
  {
  }

  lemma StepKeepsMatched(m: Machine, floor: int, e: Event)
    requires Matched(m)
    ensures Matched(Step(m, floor, e)) && Step(m, floor, e).world.members == m.world.members
  {
  }

  /** One event under the monitor keeps lanes exclusive if and only if it is neither of the two. */
  lemma MonitoredStepIsExact(m: Machine, floor: int, e: Event)
    requires ChannelPool.Good(m.world) && Matched(m) && (e.Check? ==> e.lane in m.world.members)
    ensures ChannelPool.Good(Step(m, floor, e).world) <==> !Breaks(m, floor, e)
  {
    hide ChannelPool.Good, ChannelPool.Held;
    match e
    case Check(a, r) =>
      hide Step;
      CheckIsPoolEvent(m, floor, a, r);
      ChannelPool.DisciplineIsExact(m.world, ChannelPool.DoEnable(a));
      ChannelPool.DisciplineIsExact(m.world, ChannelPool.DoDisable(a));
    case Acquire => ChannelPool.DisciplineIsExact(m.world, ChannelPool.DoAcquire);
    case Release(hold) => ChannelPool.DisciplineIsExact(m.world, ChannelPool.DoRelease(hold));
  }

  ghost predicate NeverBreaks(lanes: seq<Address>, floor: int, run: seq<Event>) {
    forall n :: 0 <= n < |run| ==> !Breaks(Exec(lanes, floor, run[..n]), floor, run[n])
  }

  ghost predicate AlwaysExclusive(lanes: seq<Address>, floor: int, run: seq<Event>) {
    forall n :: 0 <= n <= |run| ==> ChannelPool.Good(Exec(lanes, floor, run[..n]).world)
  }

  lemma {:induction false} AlwaysMatched(lanes: seq<Address>, floor: int, run: seq<Event>)
    ensures Matched(Exec(lanes, floor, run)) && Exec(lanes, floor, run).world.members == set a | a in lanes
  {
    hide Step;
    if run == [] {
    } else {
      AlwaysMatched(lanes, floor, run[..|run| - 1]);
      StepKeepsMatched(Exec(lanes, floor, run[..|run| - 1]), floor, run[|run| - 1]);
    }
  }

  lemma AlwaysExclusiveLast(lanes: seq<Address>, floor: int, run: seq<Event>)
    requires run != []
    ensures AlwaysExclusive(lanes, floor, run) <==>
            AlwaysExclusive(lanes, floor, run[..|run| - 1]) && ChannelPool.Good(Exec(lanes, floor, run).world)
  {
    hide Exec, ChannelPool.Good;
    var prefix := run[..|run| - 1];
    assert run[..|run|] == run && forall n :: 0 <= n <= |prefix| ==> prefix[..n] == run[..n];
    if AlwaysExclusive(lanes, floor, run) {
      forall n | 0 <= n <= |prefix| ensures ChannelPool.Good(Exec(lanes, floor, prefix[..n]).world) {
        assert ChannelPool.Good(Exec(lanes, floor, run[..n]).world);
      }
    }
    if AlwaysExclusive(lanes, floor, prefix) && ChannelPool.Good(Exec(lanes, floor, run).world) {
      forall n | 0 <= n <= |run| ensures ChannelPool.Good(Exec(lanes, floor, run[..n]).world) {
        if n < |run| { assert ChannelPool.Good(Exec(lanes, floor, prefix[..n]).world); }
      }
    }
  }

  lemma NeverBreaksLast(lanes: seq<Address>, floor: int, run: seq<Event>)
    requires run != []
    ensures NeverBreaks(lanes, floor, run) <==>
            && NeverBreaks(lanes, floor, run[..|run| - 1])
            && !Breaks(Exec(lanes, floor, run[..|run| - 1]), floor, run[|run| - 1])
  {
    hide Exec, Breaks;
    var prefix := run[..|run| - 1];
    assert forall n :: 0 <= n < |prefix| ==> prefix[..n] == run[..n] && prefix[n] == run[n];
    if NeverBreaks(lanes, floor, run) {
      forall n | 0 <= n < |prefix| ensures !Breaks(Exec(lanes, floor, prefix[..n]), floor, prefix[n]) {
        assert !Breaks(Exec(lanes, floor, run[..n]), floor, run[n]);
      }
      assert !Breaks(Exec(lanes, floor, run[..|run| - 1]), floor, run[|run| - 1]);
    }
    if NeverBreaks(lanes, floor, prefix) && !Breaks(Exec(lanes, floor, prefix), floor, run[|run| - 1]) {
      forall n | 0 <= n < |run| ensures !Breaks(Exec(lanes, floor, run[..n]), floor, run[n]) {
        if n < |prefix| { assert !Breaks(Exec(lanes, floor, prefix[..n]), floor, prefix[n]); }
      }
    }
  }

  /**
   Pool and monitor together, exactly. Throughout a run in which the monitor checks lanes of the pool, the three sets
   are a partition and no lane is held twice, if and only if no hold is released again while its lane is in use and no
   healthy reading re-enables a lane that is still held. The monitor does not ask whether it is.
   */
  lemma {:induction false} MonitoredLanesAreExclusiveExactly(lanes: seq<Address>, floor: int, run: seq<Event>)
    requires Watched(lanes, run)
    ensures AlwaysExclusive(lanes, floor, run) <==> NeverBreaks(lanes, floor, run)
  {
    if run == [] {
      assert run[..0] == [];
      ChannelPool.BuiltIsGood(lanes);
    } else {
      var prefix, last := run[..|run| - 1], run[|run| - 1];
      assert last in run;
      hide AlwaysExclusive, NeverBreaks, ChannelPool.Good, Breaks, Step, Matched;
      MonitoredLanesAreExclusiveExactly(lanes, floor, prefix);
      AlwaysExclusiveLast(lanes, floor, run);
      NeverBreaksLast(lanes, floor, run);
      AlwaysMatched(lanes, floor, prefix);
      if AlwaysExclusive(lanes, floor, prefix) {
        ExclusiveSoFar(lanes, floor, prefix);
        MonitoredStepIsExact(Exec(lanes, floor, prefix), floor, last);
      }
    }
  }

  lemma ExclusiveSoFar(lanes: seq<Address>, floor: int, run: seq<Event>)
    requires AlwaysExclusive(lanes, floor, run)
    ensures ChannelPool.Good(Exec(lanes, floor, run).world)
  {
    assert run[..|run|] == run;
  }

  /** Each settlement releases its lane once. */
  ghost predicate ReleasesOnce(run: seq<Event>) {
    forall i, j :: 0 <= i < j < |run| && run[i].Release? && run[j].Release? ==> run[i].hold != run[j].hold
  }

  lemma {:induction false} ReleasedIsReleased(lanes: seq<Address>, floor: int, run: seq<Event>, hold: nat)
    requires hold in Exec(lanes, floor, run).world.released
    ensures exists i :: 0 <= i < |run| && run[i] == Release(hold)
  {
    if run == [] {
    } else {
      var prefix := run[..|run| - 1];
      if run[|run| - 1] != Release(hold) {
        StepReleases(Exec(lanes, floor, prefix), floor, run[|run| - 1], hold);
        ReleasedIsReleased(lanes, floor, prefix, hold);
        var i :| 0 <= i < |prefix| && prefix[i] == Release(hold);
        assert run[i] == Release(hold);
      }
    }
  }

  lemma StepReleases(m: Machine, floor: int, e: Event, hold: nat)
    requires e != Release(hold)
    ensures hold in Step(m, floor, e).world.released ==> hold in m.world.released
  {
  }

  /** When every settlement releases its lane once, re-enabling a held lane is the only thing that breaks it. */
  lemma OnlyReEnablingBreaks(lanes: seq<Address>, floor: int, run: seq<Event>)
    requires Watched(lanes, run) && ReleasesOnce(run)
    ensures AlwaysExclusive(lanes, floor, run) <==>
              forall n :: 0 <= n < |run| ==> !ReEnablesHeld(Exec(lanes, floor, run[..n]), floor, run[n])
  {
    hide AlwaysExclusive, ReEnablesHeld, Exec;
    MonitoredLanesAreExclusiveExactly(lanes, floor, run);
    forall n | 0 <= n < |run| ensures !ReleasesAgain(Exec(lanes, floor, run[..n]), run[n]) {
      var m := Exec(lanes, floor, run[..n]);
      if run[n].Release? && run[n].hold in m.world.released {
        ReleasedIsReleased(lanes, floor, run[..n], run[n].hold);
      }
    }
  }

  /**
   It does happen: a lane withdrawn and re-funded while its settlement is still running is handed out a second time, and
   both settlements hold it.
   */
  lemma ReEnabledLaneIsHandedOutTwice(a: Address, floor: int)
    ensures var run := [Acquire, Check(a, Stroops(floor - 1)), Check(a, Stroops(floor)), Acquire];
            var w := Exec([a], floor, run).world;
            w.holds == [a, a] && w.released == {} && ReEnablesHeld(Exec([a], floor, run[..2]), floor, run[2])
  {
    var run := [Acquire, Check(a, Stroops(floor - 1)), Check(a, Stroops(floor)), Acquire];
    assert run[..1][..0] == [] && run[..2][..1] == run[..1] && run[..3][..2] == run[..2] && run[..4] == run;
    HandOut(a, floor);
    WithdrawAndRefund(a, floor);
    hide Step;
    var started := Machine(map[], {}, ChannelPool.Built([a]));
    assert Exec([a], floor, run[..1]) == Step(started, floor, run[0]) by {
      assert Exec([a], floor, run[..0]) == started;
    }
    assert Exec([a], floor, run[..2]) == Step(Exec([a], floor, run[..1]), floor, run[1]);
    assert Exec([a], floor, run[..3]) == Step(Exec([a], floor, run[..2]), floor, run[2]);
    assert Exec([a], floor, run) == Step(Exec([a], floor, run[..3]), floor, run[3]);
    assert ChannelPool.Outstanding(Exec([a], floor, run[..2]).world, 0);
  }

  /** A pool of this one lane, held by `holds`. */
  function OneLane(a: Address, failures: map<Address, nat>, off: bool, pool: ChannelPool.State, holds: seq<Address>)
    : Machine
  {
    Machine(failures, if off then {a} else {}, ChannelPool.World({a}, pool, holds, {}))
  }

  lemma HandOut(a: Address, floor: int)
    ensures Step(Machine(map[], {}, ChannelPool.Built([a])), floor, Acquire) ==
            OneLane(a, map[], false, ChannelPool.State([], {a}, {}), [a])
    ensures Step(OneLane(a, map[a := 0], false, ChannelPool.State([a], {}, {}), [a]), floor, Acquire) ==
            OneLane(a, map[a := 0], false, ChannelPool.State([], {a}, {}), [a, a])
  {
    assert [a][..0] == [];
    assert Without([a], a) == [] && ChannelPool.Deduplicated([a]) == [a] by {
      assert Without([], a) == [] && ChannelPool.Deduplicated([]) == [];
    }
  }

  lemma WithdrawAndRefund(a: Address, floor: int)
    ensures Step(OneLane(a, map[], false, ChannelPool.State([], {a}, {}), [a]), floor, Check(a, Stroops(floor - 1))) ==
            OneLane(a, map[a := 0], true, ChannelPool.State([], {}, {a}), [a])
    ensures Step(OneLane(a, map[a := 0], true, ChannelPool.State([], {}, {a}), [a]), floor, Check(a, Stroops(floor)))
            == OneLane(a, map[a := 0], false, ChannelPool.State([a], {}, {}), [a])
  {
    assert Without([], a) == [];
  }

  class Monitor {
    const pool: ChannelPool.Pool
    const addresses: seq<Address>
    const floorStroops: int
    var failures: map<Address, nat>
    var disabledByMonitor: set<Address>
    var lastBalance: map<Address, int>
    var stopped: bool

    ghost function Abs(): State
      reads this, pool
    {
      State(failures, disabledByMonitor, pool.Abs())
    }

    constructor (pool: ChannelPool.Pool, addresses: seq<Address>, floorStroops: int)
      ensures this.pool == pool && this.addresses == addresses && this.floorStroops == floorStroops
      ensures Abs() == State(map[], {}, old(pool.Abs())) && !stopped
    {
      this.pool, this.addresses, this.floorStroops := pool, addresses, floorStroops;
      failures, disabledByMonitor, lastBalance, stopped := map[], {}, map[], false;
    }

    method DoRecordFailure(a: Address)
      modifies this`failures, this`disabledByMonitor, pool
      ensures Abs() == RecordFailure(old(Abs()), a)
    {
      var count := (if a in failures then failures[a] else 0) + 1;
      failures := failures[a := count];
      if count >= CONSECUTIVE_FAILURE_LIMIT {
        if a in disabledByMonitor { return; }
        pool.DoDisable(a);
        disabledByMonitor := disabledByMonitor + {a};
      }
    }

    method DoCheckOne(a: Address, reading: Reading)
      modifies this`failures, this`disabledByMonitor, this`lastBalance, pool
      ensures Abs() == CheckOne(old(Abs()), floorStroops, a, reading)
      ensures lastBalance == if reading.Stroops? then old(lastBalance)[a := reading.amount] else old(lastBalance)
    {
      if !reading.Stroops? {
        DoRecordFailure(a);
        return;
      }
      failures := failures[a := 0];
      lastBalance := lastBalance[a := reading.amount];
      var belowFloor := reading.amount < floorStroops;
      var isDisabled := a in disabledByMonitor;
      if belowFloor && !isDisabled {
        pool.DoDisable(a);
        disabledByMonitor := disabledByMonitor + {a};
        return;
      }
      if !belowFloor && isDisabled {
        pool.DoEnable(a);
        disabledByMonitor := disabledByMonitor - {a};
      }
    }

    /**
     One pass over the lanes in order. `answers` are what the balance source says, lane by lane, and `stops` whether
     `stop()` was called during that lane's wait: the lane is still checked, and no lane after it.
     */
    method CheckAll(answers: seq<Reading>, stops: seq<bool>)
      requires |answers| == |addresses| == |stops|
      modifies this`failures, this`disabledByMonitor, this`lastBalance, this`stopped, pool
      ensures var n := if old(stopped) then 0 else Reached(stops);
              Abs() == Pass(old(Abs()), floorStroops, addresses[..n], answers[..n])
      ensures stopped <==> old(stopped) || true in stops
    {
      for i := 0 to |addresses|
        invariant i > 0 ==> !old(stopped)
        invariant stopped <==> old(stopped) || true in stops[..i]
        invariant stopped && i > 0 ==> Reached(stops) == i
        invariant Abs() == Pass(old(Abs()), floorStroops, addresses[..i], answers[..i])
      {
        if stopped { return; }
        PassOneMore(old(Abs()), floorStroops, addresses, answers, i);
        ReachedAt(stops, i);
        DoCheckOne(addresses[i], answers[i]);
        if stops[i] { stopped := true; }
      }
      NeverStopped(stops);
    }
  }

  /** How many lanes a pass checks when it is told to stop: those up to the first whose wait `stop()` fell into. */
  function Reached(stops: seq<bool>): (n: nat)
    ensures n <= |stops| && forall i :: 0 <= i < n - 1 ==> !stops[i]
    ensures n < |stops| ==> n > 0 && stops[n - 1]
  {
    if stops == [] then 0 else if stops[0] then 1 else 1 + Reached(stops[1..])
  }

  lemma ReachedAt(stops: seq<bool>, i: nat)
    requires i < |stops| && true !in stops[..i]
    ensures stops[i] ==> Reached(stops) == i + 1
    ensures true in stops[..i + 1] <==> stops[i]
  {
    assert stops[..i + 1] == stops[..i] + [stops[i]];
    assert forall j :: 0 <= j < i ==> stops[j] == stops[..i][j];
  }

  lemma NeverStopped(stops: seq<bool>)
    ensures stops[..|stops|] == stops
    ensures true !in stops ==> Reached(stops) == |stops|
  {
  }

  lemma PassOneMore(s: State, floor: int, lanes: seq<Address>, answers: seq<Reading>, i: nat)
    requires i < |lanes| == |answers|
    ensures Pass(s, floor, lanes[..i + 1], answers[..i + 1]) ==
              CheckOne(Pass(s, floor, lanes[..i], answers[..i]), floor, lanes[i], answers[i])
  {
    hide CheckOne;
    assert lanes[..i + 1][..i] == lanes[..i] && answers[..i + 1][..i] == answers[..i];
  }

  /** A pass is the checks of its lanes, one after the other. */
  function Pass(s: State, floor: int, lanes: seq<Address>, answers: seq<Reading>): State
    requires |lanes| == |answers|
  {
    if lanes == [] then s
    else
      var n := |lanes| - 1;
      CheckOne(Pass(s, floor, lanes[..n], answers[..n]), floor, lanes[n], answers[n])
  }
}
