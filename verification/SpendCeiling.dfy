/**
 The spend ceiling, over the whole history and across restarts. A check never breaks it; an adjustment keeps it exactly
 when it raises the booked fee by no more than the smallest headroom of the windows that hold it.
 */
module SpendCeiling {
  import opened Basics
  import opened SpendPolicy
  import opened SpendHistory
  import opened SpendRestart
  import opened SpendRuns
  import opened SpendWhole

  /** No window of the spend length cost more than the ceiling. */
  ghost predicate UnderCeiling(cfg: Config, bs: seq<Booking>) {
    forall t :: CostAt(cfg, bs, t) <= cfg.ceiling
  }

  /** What the window that ends at `t` cost. */
  function CostAt(cfg: Config, bs: seq<Booking>, t: int): int {
    Cost(bs, t - cfg.spendWindow, t)
  }

  // ---- Costs ----

  lemma CostSnoc(bs: seq<Booking>, b: Booking, lo: int, hi: int)
    ensures Cost(bs + [b], lo, hi) == Cost(bs, lo, hi) + if lo < b.at <= hi then CostOf(b) else 0
  {
    assert (bs + [b])[..|bs|] == bs;
  }

  /** Rebooking shifts the cost of every window that holds the booking by the difference, and of no other. */
  lemma {:induction false} CostShifts(bs: seq<Booking>, i: nat, spend: Option<int>, lo: int, hi: int)
    requires i < |bs|
    ensures Cost(Rebooked(bs, i, spend), lo, hi) ==
            Cost(bs, lo, hi) + if lo < bs[i].at <= hi then CostOf(bs[i].(spend := spend)) - CostOf(bs[i]) else 0
  {
    var r, init := Rebooked(bs, i, spend), bs[..|bs| - 1];
    if i == |bs| - 1 {
      assert r[..|r| - 1] == init;
    } else {
      CostShifts(init, i, spend, lo, hi);
      assert r[..|r| - 1] == Rebooked(init, i, spend);
    }
  }

  ghost predicate NoNegativeCost(bs: seq<Booking>) {
    forall i :: 0 <= i < |bs| ==> CostOf(bs[i]) >= 0
  }

  lemma {:induction false} CostShrinks(bs: seq<Booking>, lo: int, hi: int, lo': int, hi': int)
    requires NoNegativeCost(bs)
    requires forall i :: 0 <= i < |bs| ==> lo' < bs[i].at <= hi' ==> lo < bs[i].at <= hi
    ensures 0 <= Cost(bs, lo', hi') <= Cost(bs, lo, hi)
  {
    if bs == [] {
    } else {
      CostShrinks(bs[..|bs| - 1], lo, hi, lo', hi');
    }
  }

  // ---- One check ----

  function InForceEntries(bs: seq<Booking>, cutoff: int): seq<Entry> {
    if bs == [] then []
    else
      var last := bs[|bs| - 1];
      InForceEntries(bs[..|bs| - 1], cutoff) + if InForce(last, cutoff) then [EntryOf(last)] else []
  }

  lemma {:induction false} InForceContents(bs: seq<Booking>, cutoff: int)
    ensures forall e :: e in InForceEntries(bs, cutoff) <==> e.at > cutoff && Recorded(bs, e)
  {
    if bs == [] {
    } else {
      hide Recorded;
      var init, last := bs[..|bs| - 1], bs[|bs| - 1];
      InForceContents(init, cutoff);
      assert bs == init + [last];
      forall e: Entry ensures Recorded(bs, e) <==> Recorded(init, e) || IsBooked(last, e) {
        RecordedSnoc(init, last, e);
      }
    }
  }

  lemma {:induction false} InForceTotal(bs: seq<Booking>, cutoff: int, now: int)
    requires forall i :: 0 <= i < |bs| ==> bs[i].at <= now
    ensures Total(InForceEntries(bs, cutoff)) == Cost(bs, cutoff, now)
  {
    if bs == [] {
    } else {
      var init, last := bs[..|bs| - 1], bs[|bs| - 1];
      InForceTotal(init, cutoff, now);
      var before := InForceEntries(init, cutoff);
      assert (before + [EntryOf(last)])[..|before|] == before && before + [] == before;
    }
  }

  ghost predicate NewestInForce(bs: seq<Booking>, cutoff: int) {
    forall i, j :: 0 <= i < j < |bs| && InForce(bs[i], cutoff) ==> bs[j].token != bs[i].token
  }

  lemma {:induction false} InForceDistinct(bs: seq<Booking>, cutoff: int)
    requires NewestInForce(bs, cutoff)
    ensures DistinctIds(InForceEntries(bs, cutoff))
  {
    if bs == [] {
    } else {
      var init, last := bs[..|bs| - 1], bs[|bs| - 1];
      assert forall i :: 0 <= i < |init| ==> init[i] == bs[i];
      InForceDistinct(init, cutoff);
      InForceContents(init, cutoff);
      var before := InForceEntries(init, cutoff);
      forall j | 0 <= j < |before| ensures before[j].id != last.token {
        assert before[j] in before;
        var i :| 0 <= i < |init| && IsBooked(init[i], before[j]);
        assert InForce(bs[i], cutoff) && bs[|bs| - 1].token != bs[i].token;
      }
    }
  }

  lemma RecordedSnoc(init: seq<Booking>, last: Booking, e: Entry)
    ensures Recorded(init + [last], e) <==> Recorded(init, e) || IsBooked(last, e)
  {
    var bs := init + [last];
    if Recorded(init, e) {
      var i :| 0 <= i < |init| && IsBooked(init[i], e);
      assert IsBooked(bs[i], e);
    }
    if IsBooked(last, e) { assert IsBooked(bs[|init|], e); }
  }

  /** What the policy has booked in the window is what the whole history cost there. */
  lemma TotalIsCost(s: State, bs: seq<Booking>, cutoff: int, now: int)
    requires WholeAgrees(s, bs, cutoff, now)
    ensures Total(Live(s.globalSpend, cutoff)) == Cost(bs, cutoff, now)
  {
    var live, es := Live(s.globalSpend, cutoff), InForceEntries(bs, cutoff);
    LiveIsDistinct(s.globalSpend, cutoff);
    InForceContents(bs, cutoff);
    InForceTotal(bs, cutoff, now);
    InForceDistinct(bs, cutoff);
    forall e | e in es ensures e in live {
      var i :| 0 <= i < |bs| && IsBooked(bs[i], e);
      assert InForce(bs[i], cutoff) && EntryOf(bs[i]) == e;
    }
    SameTotal(live, es);
  }

  lemma AllowedFits(cfg: Config, s: State, bs: seq<Booking>, before: int, id: Identity, t: int)
    requires cfg.enforced && WholeAgrees(s, bs, before - cfg.spendWindow, before) && before <= t
    requires CheckSettle(cfg, s, id, t).1.allowed
    ensures CostAt(cfg, bs, t) + cfg.estimate <= cfg.ceiling
  {
    hide WholeAgrees, Live, Total, Cost, Reserve;
    LaterWhole(s, bs, before - cfg.spendWindow, t - cfg.spendWindow, before, t);
    TotalIsCost(s, bs, t - cfg.spendWindow, t);
  }

  lemma GrantKeepsCeiling(cfg: Config, bs: seq<Booking>, now: int, token: int)
    requires UnderCeiling(cfg, bs) && NoNegativeCost(bs) && forall i :: 0 <= i < |bs| ==> bs[i].at <= now
    requires CostAt(cfg, bs, now) + cfg.estimate <= cfg.ceiling
    ensures UnderCeiling(cfg, bs + [Booking(now, token, Some(cfg.estimate))])
  {
    var b := Booking(now, token, Some(cfg.estimate));
    forall t ensures CostAt(cfg, bs + [b], t) <= cfg.ceiling {
      CostSnoc(bs, b, t - cfg.spendWindow, t);
      assert CostAt(cfg, bs, t) <= cfg.ceiling;
      if t - cfg.spendWindow < now <= t { CostShrinks(bs, now - cfg.spendWindow, now, t - cfg.spendWindow, t); }
    }
  }

  // ---- One adjustment, exactly ----

  /** The least that is left under the ceiling in the `n` windows that end at `t` or in the instants after it. */
  function SmallestHeadroom(cfg: Config, bs: seq<Booking>, t: int, n: nat): (r: int)
    requires n > 0
    ensures forall u :: t <= u < t + n ==> r <= cfg.ceiling - CostAt(cfg, bs, u)
    ensures exists u :: t <= u < t + n && r == cfg.ceiling - CostAt(cfg, bs, u)
    decreases n
  {
    var last := cfg.ceiling - CostAt(cfg, bs, t + n - 1);
    if n == 1 then last
    else
      var rest := SmallestHeadroom(cfg, bs, t, n - 1);
      if last < rest then last else rest
  }

  /** The new amount raises what is booked by no more than the smallest headroom of the windows that hold it. */
  predicate Fits(cfg: Config, bs: seq<Booking>, i: nat, stroops: int)
    requires i < |bs|
  {
    cfg.spendWindow > 0 ==> stroops <= CostOf(bs[i]) + SmallestHeadroom(cfg, bs, bs[i].at, cfg.spendWindow)
  }

  /** An adjustment keeps every window within the ceiling if and only if it fits. */
  lemma AdjustmentFitsExactly(cfg: Config, bs: seq<Booking>, i: nat, stroops: int)
    requires i < |bs| && UnderCeiling(cfg, bs)
    ensures UnderCeiling(cfg, Rebooked(bs, i, Some(stroops))) <==> Fits(cfg, bs, i, stroops)
  {
    hide Cost;
    var bs', w := Rebooked(bs, i, Some(stroops)), cfg.spendWindow;
    forall t ensures CostAt(cfg, bs', t) == CostAt(cfg, bs, t)
                                            + if bs[i].at <= t < bs[i].at + w then stroops - CostOf(bs[i]) else 0 {
      CostShifts(bs, i, Some(stroops), t - w, t);
    }
    if w > 0 {
      var least := SmallestHeadroom(cfg, bs, bs[i].at, w);
      var u :| bs[i].at <= u < bs[i].at + w && least == cfg.ceiling - CostAt(cfg, bs, u);
      if Fits(cfg, bs, i, stroops) {
        forall t ensures CostAt(cfg, bs', t) <= cfg.ceiling {
          assert CostAt(cfg, bs, t) <= cfg.ceiling;
          if bs[i].at <= t < bs[i].at + w { assert least <= cfg.ceiling - CostAt(cfg, bs, t); }
        }
      } else {
        assert CostAt(cfg, bs', u) > cfg.ceiling;
      }
    } else {
      assert forall t :: CostAt(cfg, bs', t) == CostAt(cfg, bs, t);
    }
  }

  lemma LoweringKeepsCeiling(cfg: Config, bs: seq<Booking>, i: nat, spend: Option<int>)
    requires i < |bs| && UnderCeiling(cfg, bs) && CostOf(bs[i].(spend := spend)) <= CostOf(bs[i])
    ensures UnderCeiling(cfg, Rebooked(bs, i, spend))
  {
    forall t ensures CostAt(cfg, Rebooked(bs, i, spend), t) <= cfg.ceiling {
      CostShifts(bs, i, spend, t - cfg.spendWindow, t);
      assert CostAt(cfg, bs, t) <= cfg.ceiling;
    }
  }

  // ---- Over runs ----

  /** Fees are amounts of money. */
  ghost predicate FeesAreAmounts(run: seq<Event>) {
    forall i :: 0 <= i < |run| && run[i].Adjust? ==> run[i].stroops >= 0
  }

  ghost predicate LastFits(cfg: Config, run: seq<Event>) {
    run != [] ==> EventFits(cfg, Whole(cfg, run[..|run| - 1]), run[|run| - 1])
  }

  lemma {:induction false} CostsAreAmounts(cfg: Config, run: seq<Event>)
    requires FeesAreAmounts(run)
    ensures NoNegativeCost(Whole(cfg, run))
  {
    hide CheckSettle;
    if run == [] {
    } else {
      assert forall i :: 0 <= i < |run| - 1 ==> run[..|run| - 1][i] == run[i];
      CostsAreAmounts(cfg, run[..|run| - 1]);
    }
  }

  /** The event, if it adjusts a booking not refunded, fits. */
  ghost predicate EventFits(cfg: Config, bs: seq<Booking>, e: Event) {
    e.Adjust? ==>
      var i := Newest(bs, e.adjusted);
      i >= 0 && bs[i].spend.Some? ==> Fits(cfg, bs, i, e.stroops)
  }

  /** One event keeps the ceiling if and only if it is no adjustment that does not fit. */
  lemma EventKeepsCeilingExactly(cfg: Config, s: State, bs: seq<Booking>, now: int, e: Event)
    requires cfg.enforced && WholeAgrees(s, bs, now - cfg.spendWindow, now) && NoNegativeCost(bs)
    requires UnderCeiling(cfg, bs) && (e.Check? ==> now <= e.now)
    ensures UnderCeiling(cfg, Book(cfg, s, bs, e)) <==> EventFits(cfg, bs, e)
  {
    hide WholeAgrees, CheckSettle, UnderCeiling, Fits, NoNegativeCost, Newest, CostAt;
    match e
    case Check(id, t) =>
      if CheckSettle(cfg, s, id, t).1.allowed {
        AllowedFits(cfg, s, bs, now, id, t);
        BookedBy(s, bs, now - cfg.spendWindow, now);
        GrantKeepsCeiling(cfg, bs, t, s.nextId);
      }
    case Refund(token) =>
      var i := Newest(bs, token);
      if i >= 0 {
        CostIsAmount(bs, i);
        LoweringKeepsCeiling(cfg, bs, i, None);
      }
    case Adjust(token, stroops) =>
      var i := Newest(bs, token);
      if i >= 0 && bs[i].spend.Some? { AdjustmentFitsExactly(cfg, bs, i, stroops); }
    case Restart(_, _) =>
  }

  lemma BookedBy(s: State, bs: seq<Booking>, cutoff: int, now: int)
    requires WholeAgrees(s, bs, cutoff, now)
    ensures forall i :: 0 <= i < |bs| ==> bs[i].at <= now
  {
  }

  lemma StepKeepsCeilingExactly(cfg: Config, run: seq<Event>)
    requires cfg.enforced && Unbroken(cfg, run) && FeesAreAmounts(run) && run != []
    requires UnderCeiling(cfg, Whole(cfg, run[..|run| - 1]))
    ensures UnderCeiling(cfg, Whole(cfg, run)) <==> LastFits(cfg, run)
  {
    hide WholeAgrees, UnderCeiling, EventFits, NoNegativeCost, Exec, Book, Unbroken, Whole, Clock, FeesAreAmounts;
    var prefix := run[..|run| - 1];
    UnbrokenPrefix(cfg, run);
    WholeUnfolds(cfg, run);
    WholeAlwaysAgrees(cfg, prefix);
    CostsAreAmounts(cfg, prefix);
    EventKeepsCeilingExactly(cfg, Exec(cfg, prefix), Whole(cfg, prefix), Clock(prefix), run[|run| - 1]);
  }

  lemma WholeUnfolds(cfg: Config, run: seq<Event>)
    requires run != []
    ensures Whole(cfg, run) == Book(cfg, Exec(cfg, run[..|run| - 1]), Whole(cfg, run[..|run| - 1]), run[|run| - 1])
  {
  }

  lemma UnbrokenPrefix(cfg: Config, run: seq<Event>)
    requires Unbroken(cfg, run) && FeesAreAmounts(run) && run != []
    ensures Unbroken(cfg, run[..|run| - 1]) && FeesAreAmounts(run[..|run| - 1])
    ensures run[|run| - 1].Check? ==> Clock(run[..|run| - 1]) <= run[|run| - 1].now
  {
    assert NoRestart(run) ==> NoRestart(run[..|run| - 1]);
    assert forall i :: 0 <= i < |run| - 1 ==> run[..|run| - 1][i] == run[i];
  }

  lemma CostIsAmount(bs: seq<Booking>, i: nat)
    requires NoNegativeCost(bs) && i < |bs|
    ensures CostOf(bs[i]) >= 0
  {
  }

  /**
   The ceiling, exactly. On pubnet, over every run without restarts or with restarts that read what the store kept, no
   window of the whole history ever costs more than the ceiling if and only if every adjustment fits when it is made.
   */
  lemma {:induction false} SpendStaysUnderCeilingExactly(cfg: Config, run: seq<Event>)
    requires cfg.enforced && Unbroken(cfg, run) && FeesAreAmounts(run)
    ensures (forall n :: 0 <= n <= |run| ==> UnderCeiling(cfg, Whole(cfg, run[..n])))
            <==> forall n :: 0 <= n <= |run| ==> LastFits(cfg, run[..n])
  {
    hide UnderCeiling, LastFits, Whole;
    if run == [] {
      assert run[..0] == [];
      NothingCosts(cfg);
    } else {
      var prefix := run[..|run| - 1];
      UnbrokenPrefix(cfg, run);
      SpendStaysUnderCeilingExactly(cfg, prefix);
      assert run[..|run|] == run && prefix[..|prefix|] == prefix;
      assert forall n :: 0 <= n <= |prefix| ==> prefix[..n] == run[..n];
      if UnderCeiling(cfg, Whole(cfg, prefix)) { StepKeepsCeilingExactly(cfg, run); }
      assert UnderCeiling(cfg, Whole(cfg, prefix)) || !UnderCeiling(cfg, Whole(cfg, run[..|prefix|]));
    }
  }

  lemma NothingCosts(cfg: Config)
    ensures UnderCeiling(cfg, Whole(cfg, [])) && LastFits(cfg, [])
  {
  }

  /** Adjustments only correct a booked fee downwards. */
  ghost predicate OnlyLowers(cfg: Config, run: seq<Event>) {
    forall n :: 0 <= n < |run| && run[n].Adjust? ==> Lowers(Whole(cfg, run[..n]), run[n].adjusted, run[n].stroops)
  }

  predicate Lowers(bs: seq<Booking>, token: int, stroops: int) {
    var i := Newest(bs, token);
    i >= 0 && bs[i].spend.Some? ==> stroops <= CostOf(bs[i])
  }

  /** In particular, when adjustments only lower, the spend of every window stays within the ceiling. */
  lemma {:induction false} SpendStaysUnderCeiling(cfg: Config, run: seq<Event>)
    requires cfg.enforced && Unbroken(cfg, run) && FeesAreAmounts(run) && OnlyLowers(cfg, run)
    ensures UnderCeiling(cfg, Whole(cfg, run))
  {
    hide Whole, UnderCeiling;
    if run == [] {
      NothingCosts(cfg);
    } else {
      var prefix := run[..|run| - 1];
      UnbrokenPrefix(cfg, run);
      assert forall n :: 0 <= n < |prefix| ==> prefix[..n] == run[..n];
      SpendStaysUnderCeiling(cfg, prefix);
      assert run[..|run| - 1] == prefix;
      LoweringFits(cfg, run);
      StepKeepsCeilingExactly(cfg, run);
    }
  }

  lemma LoweringFits(cfg: Config, run: seq<Event>)
    requires run != [] && UnderCeiling(cfg, Whole(cfg, run[..|run| - 1])) && OnlyLowers(cfg, run)
    ensures LastFits(cfg, run)
  {
    hide Whole, Cost;
    var bs, e := Whole(cfg, run[..|run| - 1]), run[|run| - 1];
    if e.Adjust? && Newest(bs, e.adjusted) >= 0 && cfg.spendWindow > 0 {
      var i := Newest(bs, e.adjusted);
      var u :| bs[i].at <= u < bs[i].at + cfg.spendWindow
               && SmallestHeadroom(cfg, bs, bs[i].at, cfg.spendWindow) == cfg.ceiling - CostAt(cfg, bs, u);
      assert CostAt(cfg, bs, u) <= cfg.ceiling;
    }
  }

  /** Raising past the ceiling is what breaks it: the first reservation ever made, adjusted to more than the ceiling. */
  lemma RaisingBreaksCeiling(cfg: Config, id: Identity, t: int)
    requires CheckSettle(cfg, FRESH, id, t).1.allowed && cfg.spendWindow > 0
    ensures !UnderCeiling(cfg, Whole(cfg, [Check(id, t), Adjust(1, cfg.ceiling + 1)]))
  {
    hide CheckSettle;
    var run := [Check(id, t), Adjust(1, cfg.ceiling + 1)];
    assert run[..1] == [Check(id, t)] && run[..1][..0] == [];
    assert Exec(cfg, []) == FRESH && Whole(cfg, []) == [];
    var b := Booking(t, 1, Some(cfg.estimate));
    assert Whole(cfg, run[..1]) == [b];
    assert [b][..0] == [] && Newest([b], 1) == 0;
    var raised := [b.(spend := Some(cfg.ceiling + 1))];
    assert Whole(cfg, run) == raised;
    CostSnoc([], raised[0], t - cfg.spendWindow, t);
    assert [] + [raised[0]] == raised && CostAt(cfg, raised, t) == cfg.ceiling + 1;
  }

  // ---- Without restarts ----

  ghost predicate SameGrants(bs: seq<Booking>, h: seq<Grant>) {
    |bs| == |h| && forall k :: 0 <= k < |h| ==> bs[k] == Booking(h[k].at, k + 1, h[k].spend)
  }

  lemma RecordIsBook(cfg: Config, s: State, bs: seq<Booking>, h: seq<Grant>, e: Event)
    requires SameGrants(bs, h) && !e.Restart? && s.nextId == |h| + 1
    requires e.Check? ==> CheckSettle(cfg, s, e.id, e.now).1 == Judge(cfg, h, e.id, e.now)
    ensures SameGrants(Book(cfg, s, bs, e), Record(cfg, h, e))
  {
    hide CheckSettle, Judge;
    if e.Refund? || e.Adjust? {
      var token := if e.Refund? then e.token else e.adjusted;
      var i := Newest(bs, token);
      assert 1 <= token <= |h| ==> bs[token - 1].token == token;
      assert i == if 1 <= token <= |h| then token - 1 else -1;
    }
  }

  /** Without restarts the whole history is the history the verdicts are judged by. */
  lemma {:induction false} WholeIsHistory(cfg: Config, run: seq<Event>)
    requires Monotone(run) && NoRestart(run)
    ensures SameGrants(Whole(cfg, run), History(cfg, run))
  {
    hide CheckSettle, Judge, Book, Record, SameGrants, Agrees;
    if run == [] {
      NoGrantsYet();
    } else {
      var prefix, e := run[..|run| - 1], run[|run| - 1];
      WholeIsHistory(cfg, prefix);
      PolicyAgrees(cfg, prefix);
      TokensAreNumbers(cfg, Exec(cfg, prefix), History(cfg, prefix), Clock(prefix));
      if e.Check? { VerdictsMatchHistory(cfg, prefix, e.id, e.now); }
      RecordIsBook(cfg, Exec(cfg, prefix), Whole(cfg, prefix), History(cfg, prefix), e);
    }
  }

  lemma NoGrantsYet()
    ensures SameGrants([], [])
  {
  }

  lemma TokensAreNumbers(cfg: Config, s: State, h: seq<Grant>, t: int)
    requires Agrees(cfg, s, h, t)
    ensures s.nextId == |h| + 1
  {
  }
}
