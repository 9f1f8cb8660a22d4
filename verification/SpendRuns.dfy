/** The spend policy over whole runs: verdicts equal to the full history's, limits in every window, and restarts. */
module SpendRuns {
  import opened Basics
  import opened Windows
  import opened SpendPolicy
  import opened SpendHistory

  lemma {:induction false} GrantsAreInThePast(cfg: Config, run: seq<Event>)
    requires Monotone(run) && NoRestart(run)
    ensures forall k :: 0 <= k < |History(cfg, run)| ==> History(cfg, run)[k].at <= Clock(run)
  {
    if run == [] {
    } else {
      GrantsAreInThePast(cfg, run[..|run| - 1]);
    }
  }

  lemma {:induction false} TimesAreInThePast(h: seq<Grant>, slot: Slot, t: int)
    requires forall k :: 0 <= k < |h| ==> h[k].at <= t
    ensures forall i :: 0 <= i < |Times(h, slot)| ==> Times(h, slot)[i] <= t
  {
    if h == [] {
    } else {
      TimesAreInThePast(h[..|h| - 1], slot, t);
    }
  }

  lemma {:induction false} TimesIgnoreSpend(h: seq<Grant>, k: nat, spend: Option<int>, slot: Slot)
    requires k < |h|
    ensures Times(h[k := h[k].(spend := spend)], slot) == Times(h, slot)
  {
    var g := h[k := h[k].(spend := spend)];
    if k < |h| - 1 {
      TimesIgnoreSpend(h[..|h| - 1], k, spend, slot);
      assert g[..|h| - 1] == h[..|h| - 1][k := h[k].(spend := spend)];
    } else {
      assert g[..|h| - 1] == h[..|h| - 1];
    }
  }

  /** The kept rate counters agree with the history on everything a later check can ask. */
  ghost predicate RatesAgree(cfg: Config, s: State, h: seq<Grant>, t: int) {
    forall slot, c :: c >= t - cfg.rateWindow ==> After(Kept(s, slot), c) == After(Times(h, slot), c)
  }

  ghost predicate Agrees(cfg: Config, s: State, h: seq<Grant>, t: int) {
    && RatesAgree(cfg, s, h, t)
    && SpendAgrees(s.globalSpend, h, t - cfg.spendWindow)
    && s.nextId == |h| + 1
    && forall k :: 0 <= k < |h| ==> h[k].at <= t
  }

  lemma SlotFull(cfg: Config, s: State, h: seq<Grant>, slot: Slot, before: int, t: int)
    requires RatesAgree(cfg, s, h, before) && before <= t
    requires forall k :: 0 <= k < |h| ==> h[k].at <= t
    ensures |After(Kept(s, slot), t - cfg.rateWindow)| == InWindow(Times(h, slot), t, cfg.rateWindow)
  {
    TimesAreInThePast(h, slot, t);
    AfterCount(Times(h, slot), t - cfg.rateWindow, t);
  }

  lemma FullAgrees(cfg: Config, s: State, h: seq<Grant>, slot: Slot, before: int, t: int)
    requires RatesAgree(cfg, s, h, before) && before <= t
    requires forall k :: 0 <= k < |h| ==> h[k].at <= t
    ensures |After(Kept(s, slot), t - cfg.rateWindow)| >= MaxFor(cfg, slot) <==> Full(cfg, h, slot, t)
  {
    SlotFull(cfg, s, h, slot, before, t);
  }

  lemma TrippedAgrees(cfg: Config, s: State, h: seq<Grant>, before: int, id: Identity, t: int)
    requires Agrees(cfg, s, h, before) && before <= t
    ensures Evaluate(cfg, s, id, t).1 == Tripped(cfg, h, id, t)
  {
    hide Full, SpendIn, After, Total, Live, RatesAgree, SpendAgrees;
    FullAgrees(cfg, s, h, ForPayTo(id.payTo), before, t);
    FullAgrees(cfg, s, h, ForUrl(id.resourceUrl), before, t);
    FullAgrees(cfg, s, h, Pool, before, t);
    TotalAgrees(s.globalSpend, h, before - cfg.spendWindow, t - cfg.spendWindow, t);
  }

  lemma EvaluateKeepsIds(cfg: Config, s: State, id: Identity, t: int)
    ensures Evaluate(cfg, s, id, t).0.nextId == s.nextId
  {
  }

  /** One check: the pruned counters give the verdict of the history. */
  lemma VerdictAgrees(cfg: Config, s: State, h: seq<Grant>, before: int, id: Identity, t: int)
    requires Agrees(cfg, s, h, before) && before <= t
    ensures CheckSettle(cfg, s, id, t).1 == Judge(cfg, h, id, t)
  {
    hide Evaluate, Tripped, Reserve, RatesAgree, SpendAgrees;
    TrippedAgrees(cfg, s, h, before, id, t);
    EvaluateKeepsIds(cfg, s, id, t);
  }

  lemma EvaluateAgrees(cfg: Config, s: State, h: seq<Grant>, before: int, id: Identity, t: int)
    requires Agrees(cfg, s, h, before) && before <= t
    ensures Agrees(cfg, Evaluate(cfg, s, id, t).0, h, t)
  {
    EvaluateKeepsRates(cfg, s, id, t);
    hide Evaluate;
    var p := Evaluate(cfg, s, id, t).0;
    PruneAgrees(s.globalSpend, h, before - cfg.spendWindow, t - cfg.spendWindow);
    forall k | Unrefunded(h, k, t - cfg.spendWindow) ensures EntryFor(h, k) in s.globalSpend {
      assert Unrefunded(h, k, before - cfg.spendWindow);
    }
    forall slot, c | c >= t - cfg.rateWindow ensures After(Kept(p, slot), c) == After(Times(h, slot), c) {
      assert Kept(p, slot) == Kept(s, slot);
      assert After(Kept(s, slot), c) == After(Times(h, slot), c);
    }
  }

  lemma TimesSnoc(h: seq<Grant>, g: Grant, slot: Slot)
    ensures Times(h + [g], slot) == if Counts(g.id, slot) then Times(h, slot) + [g.at] else Times(h, slot)
  {
    assert (h + [g])[..|h|] == h;
  }

  lemma ReservedRatesAgree(cfg: Config, s: State, h: seq<Grant>, id: Identity, t: int)
    requires RatesAgree(cfg, s, h, t)
    ensures RatesAgree(cfg, Reserve(cfg, s, id, t), h + [Grant(t, id, Some(cfg.estimate))], t)
  {
    hide Reserve, CountRates, After, Times;
    var g := Grant(t, id, Some(cfg.estimate));
    forall slot, c | c >= t - cfg.rateWindow
      ensures After(Kept(Reserve(cfg, s, id, t), slot), c) == After(Times(h + [g], slot), c)
    {
      ReserveRates(cfg, s, id, t, slot);
      CountingKeeps(cfg, s, id, t, slot, c);
      TimesSnoc(h, g, slot);
      Snoc(Times(h, slot), t, c, c);
      assert After(Kept(s, slot), c) == After(Times(h, slot), c);
      assert After(Kept(s, slot), c) + [] == After(Kept(s, slot), c);
    }
  }

  lemma ReserveAgrees(cfg: Config, s: State, h: seq<Grant>, id: Identity, t: int)
    requires Agrees(cfg, s, h, t)
    ensures Agrees(cfg, Reserve(cfg, s, id, t), h + [Grant(t, id, Some(cfg.estimate))], t)
  {
    hide Reserve;
    ReserveShape(cfg, s, id, t);
    ReservedRatesAgree(cfg, s, h, id, t);
    GrantAgrees(s.globalSpend, h, t - cfg.spendWindow, Grant(t, id, Some(cfg.estimate)));
  }

  lemma CheckAgrees(cfg: Config, s: State, h: seq<Grant>, before: int, id: Identity, t: int)
    requires Agrees(cfg, s, h, before) && before <= t
    ensures Agrees(cfg, CheckSettle(cfg, s, id, t).0, Record(cfg, h, Check(id, t)), t)
  {
    hide Agrees, Evaluate, Reserve, Tripped;
    VerdictAgrees(cfg, s, h, before, id, t);
    EvaluateAgrees(cfg, s, h, before, id, t);
    ReserveAgrees(cfg, Evaluate(cfg, s, id, t).0, h, id, t);
  }

  lemma RatesIgnoreSpend(cfg: Config, s: State, s': State, h: seq<Grant>, k: int, spend: Option<int>, t: int)
    requires RatesAgree(cfg, s, h, t) && 0 <= k < |h|
    requires s'.perPayTo == s.perPayTo && s'.perUrl == s.perUrl && s'.unboundPool == s.unboundPool
    ensures RatesAgree(cfg, s', h[k := h[k].(spend := spend)], t)
  {
    forall slot, c | c >= t - cfg.rateWindow
      ensures After(Kept(s', slot), c) == After(Times(h[k := h[k].(spend := spend)], slot), c)
    {
      assert Kept(s', slot) == Kept(s, slot);
      TimesIgnoreSpend(h, k, spend, slot);
      assert After(Kept(s, slot), c) == After(Times(h, slot), c);
    }
  }

  lemma SameRates(cfg: Config, s: State, s': State, h: seq<Grant>, t: int)
    requires RatesAgree(cfg, s, h, t)
    requires s'.perPayTo == s.perPayTo && s'.perUrl == s.perUrl && s'.unboundPool == s.unboundPool
    ensures RatesAgree(cfg, s', h, t)
  {
    forall slot, c | c >= t - cfg.rateWindow ensures After(Kept(s', slot), c) == After(Times(h, slot), c) {
      assert Kept(s', slot) == Kept(s, slot);
      assert After(Kept(s, slot), c) == After(Times(h, slot), c);
    }
  }

  lemma BookingAgrees(cfg: Config, s: State, h: seq<Grant>, t: int, e: Event)
    requires Agrees(cfg, s, h, t) && (e.Refund? || e.Adjust?)
    ensures Agrees(cfg, Step(cfg, s, e), Record(cfg, h, e), t)
  {
    hide RatesAgree, SpendAgrees;
    var s', h' := Step(cfg, s, e), Record(cfg, h, e);
    match e
    case Refund(token) =>
      RefundAgrees(s.globalSpend, h, t - cfg.spendWindow, token);
      if 1 <= token <= |h| {
        RatesIgnoreSpend(cfg, s, s', h, token - 1, None, t);
      } else {
        SameRates(cfg, s, s', h, t);
      }
    case Adjust(token, stroops) =>
      AdjustAgrees(s.globalSpend, h, t - cfg.spendWindow, token, stroops);
      if 1 <= token <= |h| && h[token - 1].spend.Some? {
        RatesIgnoreSpend(cfg, s, s', h, token - 1, Some(stroops), t);
      } else {
        SameRates(cfg, s, s', h, t);
      }
  }

  lemma {:induction false} PolicyAgrees(cfg: Config, run: seq<Event>)
    requires Monotone(run) && NoRestart(run)
    ensures Agrees(cfg, Exec(cfg, run), History(cfg, run), Clock(run))
  {
    hide Agrees, CheckSettle, Record, RefundUnspent, AdjustReservation;
    if run == [] {
      FreshAgrees(cfg);
    } else {
      var prefix, last := run[..|run| - 1], run[|run| - 1];
      PolicyAgrees(cfg, prefix);
      if last.Check? {
        CheckAgrees(cfg, Exec(cfg, prefix), History(cfg, prefix), Clock(prefix), last.id, last.now);
      } else {
        BookingAgrees(cfg, Exec(cfg, prefix), History(cfg, prefix), Clock(prefix), last);
      }
    }
  }

  lemma FreshAgrees(cfg: Config)
    ensures Agrees(cfg, FRESH, [], 0)
  {
    assert forall slot :: Times([], slot) == [] == Kept(FRESH, slot);
  }

  /**
   The policy refines its history: for every sequence of checks, refunds and adjustments under a clock that never goes
   back, each verdict, with its reason and its token, is the one computed from the complete unpruned history.
   */
  lemma VerdictsMatchHistory(cfg: Config, run: seq<Event>, id: Identity, t: int)
    requires Monotone(run) && NoRestart(run) && Clock(run) <= t
    ensures CheckSettle(cfg, Exec(cfg, run), id, t).1 == Judge(cfg, History(cfg, run), id, t)
  {
    hide CheckSettle, Judge, Exec, History;
    PolicyAgrees(cfg, run);
    VerdictAgrees(cfg, Exec(cfg, run), History(cfg, run), Clock(run), id, t);
  }

  lemma {:induction false} HistoryForgetsRefusal(cfg: Config, a: seq<Event>, e: Event, b: seq<Event>)
    requires e.Check? && !Judge(cfg, History(cfg, a), e.id, e.now).allowed
    ensures History(cfg, a + [e] + b) == History(cfg, a + b)
  {
    hide Judge;
    if b == [] {
      assert a + [e] + b == a + [e] && (a + [e])[..|a|] == a && a + b == a;
    } else {
      HistoryForgetsRefusal(cfg, a, e, b[..|b| - 1]);
      assert (a + [e] + b)[..|a + [e] + b| - 1] == a + [e] + b[..|b| - 1];
      assert (a + b)[..|a + b| - 1] == a + b[..|b| - 1];
      hide Record;
      assert (a + [e] + b)[|a + [e] + b| - 1] == (a + b)[|a + b| - 1] == b[|b| - 1];
    }
  }

  /** A refusal changes no later verdict: the run without the refused check gives the same answers ever after. */
  lemma RefusalIsInvisible(cfg: Config, a: seq<Event>, e: Event, b: seq<Event>, id: Identity, t: int)
    requires Monotone(a + [e] + b) && Monotone(a + b) && NoRestart(a + [e] + b)
    requires Clock(a + [e] + b) <= t && Clock(a + b) <= t
    requires e.Check? && Monotone(a) && Clock(a) <= e.now && !CheckSettle(cfg, Exec(cfg, a), e.id, e.now).1.allowed
    ensures CheckSettle(cfg, Exec(cfg, a + [e] + b), id, t).1 == CheckSettle(cfg, Exec(cfg, a + b), id, t).1
  {
    hide CheckSettle, Judge, Exec, History;
    assert NoRestart(a) by { assert forall i :: 0 <= i < |a| ==> (a + [e] + b)[i] == a[i]; }
    assert NoRestart(a + b) by {
      assert forall i :: 0 <= i < |a + b| ==> (a + b)[i] == (a + [e] + b)[if i < |a| then i else i + 1];
    }
    VerdictsMatchHistory(cfg, a, e.id, e.now);
    HistoryForgetsRefusal(cfg, a, e, b);
    VerdictsMatchHistory(cfg, a + [e] + b, id, t);
    VerdictsMatchHistory(cfg, a + b, id, t);
  }

  // ---- Limits ----

  lemma GrantIsNotFull(cfg: Config, h: seq<Grant>, id: Identity, t: int, slot: Slot)
    requires cfg.enforced && Judge(cfg, h, id, t).allowed && Counts(id, slot)
    ensures InWindow(Times(h, slot), t, cfg.rateWindow) < MaxFor(cfg, slot)
  {
  }

  lemma LimitStep(cfg: Config, h: seq<Grant>, e: Event, slot: Slot)
    requires cfg.enforced && cfg.rateWindow > 0 && !e.Restart?
    requires Limited(Times(h, slot), cfg.rateWindow, MaxFor(cfg, slot))
    requires e.Check? ==> forall k :: 0 <= k < |h| ==> h[k].at <= e.now
    ensures Limited(Times(Record(cfg, h, e), slot), cfg.rateWindow, MaxFor(cfg, slot))
  {
    hide Judge, Times, Limited;
    match e
    case Check(id, t) =>
      if Judge(cfg, h, id, t).allowed {
        TimesSnoc(h, Grant(t, id, Some(cfg.estimate)), slot);
        TimesAreInThePast(h, slot, t);
        if Counts(id, slot) {
          GrantIsNotFull(cfg, h, id, t, slot);
          LimitedSnoc(Times(h, slot), t, cfg.rateWindow, MaxFor(cfg, slot));
        }
      }
    case Refund(token) => if 1 <= token <= |h| { TimesIgnoreSpend(h, token - 1, None, slot); }
    case Adjust(token, stroops) => if 1 <= token <= |h| { TimesIgnoreSpend(h, token - 1, Some(stroops), slot); }
  }

  /** On pubnet every window of the rate length grants at most each slot's maximum, over the whole run. */
  lemma {:induction false} RatesAreLimited(cfg: Config, run: seq<Event>, slot: Slot)
    requires cfg.enforced && cfg.rateWindow > 0 && Monotone(run) && NoRestart(run)
    ensures Limited(Times(History(cfg, run), slot), cfg.rateWindow, MaxFor(cfg, slot))
  {
    hide Record;
    if run == [] {
      assert forall t :: InWindow([], t, cfg.rateWindow) == 0;
    } else {
      var prefix, last := run[..|run| - 1], run[|run| - 1];
      RatesAreLimited(cfg, prefix, slot);
      GrantsAreInThePast(cfg, prefix);
      LimitStep(cfg, History(cfg, prefix), last, slot);
    }
  }
}
