/**
 What the policy grants and refuses, counted over everything it ever granted: each settle by its recipient, its URL and
 whether it is bound, and nothing of how the policy keeps its counters.
 */
module SpendLimits {
  import opened Basics
  import opened Windows
  import opened SpendPolicy
  import opened SpendHistory
  import opened SpendRuns

  /** How many of the settles granted in (lo, hi] are of this kind. */
  ghost function Granted(h: seq<Grant>, lo: int, hi: int, kind: Identity -> bool): nat {
    if h == [] then 0
    else
      var last := h[|h| - 1];
      Granted(h[..|h| - 1], lo, hi, kind) + if kind(last.id) && lo < last.at <= hi then 1 else 0
  }

  lemma {:induction false} GrantedIsCounted(h: seq<Grant>, lo: int, hi: int, slot: Slot, kind: Identity -> bool)
    requires forall id :: kind(id) <==> Counts(id, slot)
    ensures Granted(h, lo, hi, kind) == CountIn(Times(h, slot), lo, hi)
  {
    if h == [] {
    } else {
      var init, last := h[..|h| - 1], h[|h| - 1];
      GrantedIsCounted(init, lo, hi, slot, kind);
      Snoc(Times(init, slot), last.at, lo, hi);
      assert Times(init, slot) + [] == Times(init, slot);
    }
  }

  function To(p: string): Identity -> bool {
    (id: Identity) => id.payTo == p
  }

  function BoundTo(u: string): Identity -> bool {
    (id: Identity) => id.bound && id.resourceUrl == u && u != ""
  }

  /** A settle that is not bound or has no URL. */
  function Unbound(): Identity -> bool {
    (id: Identity) => !id.bound || id.resourceUrl == ""
  }

  /** The history is what the policy really granted: one more grant exactly when the check is allowed. */
  lemma HistoryIsWhatWasGranted(cfg: Config, run: seq<Event>, id: Identity, t: int)
    requires Monotone(run) && NoRestart(run) && Clock(run) <= t
    ensures History(cfg, run + [Check(id, t)]) ==
            if CheckSettle(cfg, Exec(cfg, run), id, t).1.allowed
            then History(cfg, run) + [Grant(t, id, Some(cfg.estimate))]
            else History(cfg, run)
  {
    hide CheckSettle, Judge, Exec;
    VerdictsMatchHistory(cfg, run, id, t);
    assert (run + [Check(id, t)])[..|run|] == run;
  }

  /** On pubnet, in every window of the rate length, the policy grants one recipient at most its budget. */
  lemma RecipientsAreLimited(cfg: Config, run: seq<Event>, t: int, p: string)
    requires cfg.enforced && cfg.rateWindow > 0 && Monotone(run) && NoRestart(run)
    ensures Granted(History(cfg, run), t - cfg.rateWindow, t, To(p)) <= cfg.perPayToMax
  {
    hide History, Times, Granted, CountIn;
    RatesAreLimited(cfg, run, ForPayTo(p));
    GrantedIsCounted(History(cfg, run), t - cfg.rateWindow, t, ForPayTo(p), To(p));
    assert InWindow(Times(History(cfg, run), ForPayTo(p)), t, cfg.rateWindow) <= cfg.perPayToMax;
  }

  /** Nor one bound URL more than its budget. */
  lemma UrlsAreLimited(cfg: Config, run: seq<Event>, t: int, u: string)
    requires cfg.enforced && cfg.rateWindow > 0 && Monotone(run) && NoRestart(run)
    ensures Granted(History(cfg, run), t - cfg.rateWindow, t, BoundTo(u)) <= cfg.perUrlMax
  {
    hide History, Times, Granted, CountIn;
    RatesAreLimited(cfg, run, ForUrl(u));
    GrantedIsCounted(History(cfg, run), t - cfg.rateWindow, t, ForUrl(u), BoundTo(u));
    assert InWindow(Times(History(cfg, run), ForUrl(u)), t, cfg.rateWindow) <= cfg.perUrlMax;
  }

  /** Nor all settles that are unbound or have no URL, together, more than the one pool: spraying URLs gains nothing. */
  lemma UnboundShareOnePool(cfg: Config, run: seq<Event>, t: int)
    requires cfg.enforced && cfg.rateWindow > 0 && Monotone(run) && NoRestart(run)
    ensures Granted(History(cfg, run), t - cfg.rateWindow, t, Unbound()) <= cfg.unboundPoolMax
  {
    hide History, Times, Granted, CountIn;
    RatesAreLimited(cfg, run, Pool);
    GrantedIsCounted(History(cfg, run), t - cfg.rateWindow, t, Pool, Unbound());
    assert InWindow(Times(History(cfg, run), Pool), t, cfg.rateWindow) <= cfg.unboundPoolMax;
  }

  /**
   Every verdict, exactly. The reason is the first budget that is full, in the order recipient, then the URL of a bound
   settle or else the pool, then the spend ceiling; it refuses on pubnet and is only flagged elsewhere, and whatever is
   allowed gets the next token.
   */
  lemma VerdictIsExact(cfg: Config, run: seq<Event>, id: Identity, t: int)
    requires Monotone(run) && NoRestart(run) && Clock(run) <= t
    ensures var h, from := History(cfg, run), t - cfg.rateWindow;
            var own := id.bound && id.resourceUrl != "";
            var why :=
              if Granted(h, from, t, To(id.payTo)) >= cfg.perPayToMax then Some(RateLimitedPayTo)
              else if own && Granted(h, from, t, BoundTo(id.resourceUrl)) >= cfg.perUrlMax then Some(RateLimitedUrl)
              else if !own && Granted(h, from, t, Unbound()) >= cfg.unboundPoolMax then Some(UnboundPoolExhausted)
              else if SpendIn(h, t - cfg.spendWindow, t) + cfg.estimate > cfg.ceiling then Some(SpendCeiling)
              else None;
            CheckSettle(cfg, Exec(cfg, run), id, t).1 ==
              if why.Some? && cfg.enforced then Verdict(false, why, None, None)
              else Verdict(true, None, why, Some(|h| + 1))
  {
    hide CheckSettle, Exec, History;
    VerdictsMatchHistory(cfg, run, id, t);
    var h := History(cfg, run);
    GrantedIsCounted(h, t - cfg.rateWindow, t, ForPayTo(id.payTo), To(id.payTo));
    GrantedIsCounted(h, t - cfg.rateWindow, t, ForUrl(id.resourceUrl), BoundTo(id.resourceUrl));
    GrantedIsCounted(h, t - cfg.rateWindow, t, Pool, Unbound());
  }

  /**
   What an adjustment reports: it finds nothing for a token that was never issued or has been refunded, and it finds
   every grant not refunded whose spend is still in the window.
   */
  lemma AdjustmentFinds(cfg: Config, run: seq<Event>, token: int, stroops: int)
    requires Monotone(run) && NoRestart(run)
    ensures var h, found := History(cfg, run), AdjustReservation(cfg, Exec(cfg, run), token, stroops).1;
            && (found ==> 1 <= token <= |h| && h[token - 1].spend.Some?)
            && (1 <= token <= |h| && h[token - 1].spend.Some? && h[token - 1].at > Clock(run) - cfg.spendWindow ==>
                  found)
  {
    hide Exec, History;
    PolicyAgrees(cfg, run);
    var h, es := History(cfg, run), Exec(cfg, run).globalSpend;
    var i := Find(es, token);
    if i < |es| { assert IsGrant(es[i], h); }
    if 1 <= token <= |h| && Unrefunded(h, token - 1, Clock(run) - cfg.spendWindow) {
      assert EntryFor(h, token - 1) in es;
      var j :| 0 <= j < |es| && es[j] == EntryFor(h, token - 1);
    }
  }

  // ---- Nothing elapsed is kept for ever ----

  ghost predicate StillCounts(times: seq<int>, cutoff: int) {
    exists i :: 0 <= i < |times| && times[i] > cutoff
  }

  lemma {:induction false} MaxIsThere(times: seq<int>) returns (i: nat)
    requires times != []
    ensures i < |times| && times[i] == MaxOf(times)
  {
    if |times| == 1 {
      i := 0;
    } else {
      i := MaxIsThere(times[..|times| - 1]);
      if times[|times| - 1] == MaxOf(times) { i := |times| - 1; }
    }
  }

  lemma EvictionKeepsWhatCounts(m: map<string, seq<int>>, cutoff: int, key: string)
    requires key in EvictElapsed(m, cutoff)
    ensures StillCounts(EvictElapsed(m, cutoff)[key], cutoff)
  {
    var i := MaxIsThere(m[key]);
  }

  /**
   Memory is bounded by what still counts: after a grant every recipient and URL kept has a settle inside the rate
   window; and when the table was last tidied ten minutes ago or more, it holds no row outside the spend window.
   */
  lemma GrantsTidy(cfg: Config, s: State, id: Identity, t: int)
    requires CheckSettle(cfg, s, id, t).1.allowed
    ensures var u := CheckSettle(cfg, s, id, t).0;
            && (forall p :: p in u.perPayTo ==> StillCounts(u.perPayTo[p], t - cfg.rateWindow))
            && (forall p :: p in u.perUrl ==> StillCounts(u.perUrl[p], t - cfg.rateWindow))
            && (cfg.hasStore && t - s.lastCleanup >= 10 * 60 * 1000 ==>
                  u.lastCleanup == t && forall i :: i in u.table ==> u.table[i].at > t - cfg.spendWindow)
  {
    hide After, EvictElapsed;
    var pruned := Evaluate(cfg, s, id, t).0;
    EvaluateKeepsRates(cfg, s, id, t);
    var cutoff := t - cfg.rateWindow;
    var u := CheckSettle(cfg, s, id, t).0;
    forall p | p in u.perPayTo ensures StillCounts(u.perPayTo[p], cutoff) {
      EvictionKeepsWhatCounts(
        pruned.perPayTo[id.payTo := After(Bucket(pruned.perPayTo, id.payTo), cutoff) + [t]], cutoff, p);
    }
    forall p | p in u.perUrl ensures StillCounts(u.perUrl[p], cutoff) {
      EvictionKeepsWhatCounts(
        if HasUrlBudget(id)
        then pruned.perUrl[id.resourceUrl := After(Bucket(pruned.perUrl, id.resourceUrl), cutoff) + [t]]
        else pruned.perUrl, cutoff, p);
    }
  }

  /** Nor does a new process: what it loads it books, and rows outside the spend window are gone from the table. */
  lemma BootTidies(cfg: Config, table: map<int, Row>, rows: seq<Entry>, t: int)
    requires cfg.hasStore
    ensures var u := Boot(cfg, table, rows, t);
            && u.globalSpend == rows && u.perPayTo == map[] && u.perUrl == map[] && u.unboundPool == []
            && forall i :: i in u.table <==> i in table && table[i].at > t - cfg.spendWindow
  {
  }
}
