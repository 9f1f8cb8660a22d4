/** The policy object: its fields pushed to, filtered and spliced in place. */
module SpendClass {
  import opened Basics
  import opened Windows
  import opened SpendPolicy

  class Policy {
    const cfg: Config
    var perPayTo: map<string, seq<int>>
    var perUrl: map<string, seq<int>>
    var unboundPool: seq<int>
    var globalSpend: seq<Entry>
    var nextReservationId: int
    /** The persisted rows; every write is taken to land at once. */
    var table: map<int, Row>
    var lastDbCleanupAt: int

    ghost function Abs(): State
      reads this
    {
      State(perPayTo, perUrl, unboundPool, globalSpend, nextReservationId, table, lastDbCleanupAt)
    }

    constructor (cfg: Config)
      ensures this.cfg == cfg && Abs() == FRESH
    {
      this.cfg := cfg;
      perPayTo, perUrl, unboundPool, globalSpend := map[], map[], [], [];
      nextReservationId, table, lastDbCleanupAt := 1, map[], 0;
    }

    /** Re-seed the spend list row by row; `stored` is the table the earlier process left. */
    method DoBoot(stored: map<int, Row>, rows: seq<Entry>, t: int)
      requires Abs() == FRESH.(table := stored) && cfg.hasStore
      modifies this
      ensures Abs() == Boot(cfg, stored, rows, t)
    {
      for i := 0 to |rows|
        invariant Abs() == FRESH.(table := stored, globalSpend := rows[..i], nextId := NextAfter(rows[..i], 1))
      {
        assert rows[..i + 1][..i] == rows[..i];
        globalSpend := globalSpend + [rows[i]];
        if rows[i].id >= nextReservationId { nextReservationId := rows[i].id + 1; }
      }
      assert rows[..|rows|] == rows;
      table := RowsAfter(table, t - cfg.spendWindow);
    }

    method DoEvaluate(id: Identity, t: int) returns (r: Option<Reason>)
      modifies this`globalSpend
      ensures (Abs(), r) == Evaluate(cfg, old(Abs()), id, t)
    {
      var payToRecent := After(Bucket(perPayTo, id.payTo), t - cfg.rateWindow);
      if |payToRecent| >= cfg.perPayToMax { return Some(RateLimitedPayTo); }
      if HasUrlBudget(id) {
        var urlRecent := After(Bucket(perUrl, id.resourceUrl), t - cfg.rateWindow);
        if |urlRecent| >= cfg.perUrlMax { return Some(RateLimitedUrl); }
      } else {
        var pool := After(unboundPool, t - cfg.rateWindow);
        if |pool| >= cfg.unboundPoolMax { return Some(UnboundPoolExhausted); }
      }
      globalSpend := Live(globalSpend, t - cfg.spendWindow);
      if Total(globalSpend) + cfg.estimate > cfg.ceiling { return Some(SpendCeiling); }
      return None;
    }

    /** Drop the buckets that have aged out, visiting the keys one by one. */
    method Evicted(m: map<string, seq<int>>, cutoff: int) returns (r: map<string, seq<int>>)
      ensures r == EvictElapsed(m, cutoff)
    {
      r := m;
      var todo := m.Keys;
      while todo != {}
        invariant todo <= m.Keys
        invariant r == map k | k in m && (k in todo || !Elapsed(m[k], cutoff)) :: m[k]
        decreases |todo|
      {
        var key :| key in todo;
        todo := todo - {key};
        if m[key] == [] || MaxOf(m[key]) <= cutoff { r := r - {key}; }
      }
    }

    /** Count the settle in its rate windows, then drop the buckets that have aged out. */
    method DoCountRates(id: Identity, t: int)
      modifies this`perPayTo, this`perUrl, this`unboundPool
      ensures (perPayTo, perUrl, unboundPool) == CountRates(cfg, old(Abs()), id, t)
    {
      hide After, EvictElapsed;
      var cutoff := t - cfg.rateWindow;
      perPayTo := perPayTo[id.payTo := After(Bucket(perPayTo, id.payTo), cutoff) + [t]];
      if HasUrlBudget(id) {
        perUrl := perUrl[id.resourceUrl := After(Bucket(perUrl, id.resourceUrl), cutoff) + [t]];
      } else {
        unboundPool := After(unboundPool, cutoff);
        unboundPool := unboundPool + [t];
      }
      perPayTo := Evicted(perPayTo, cutoff);
      perUrl := Evicted(perUrl, cutoff);
    }

    method DoReserve(id: Identity, t: int) returns (token: int)
      modifies this
      ensures Abs() == Reserve(cfg, old(Abs()), id, t) && token == old(nextReservationId)
    {
      hide CountRates, RowsAfter;
      DoCountRates(id, t);
      token := nextReservationId;
      nextReservationId := nextReservationId + 1;
      globalSpend := globalSpend + [Entry(t, cfg.estimate, token)];
      DoPersist(token, t, cfg.estimate);
      DoMaybeCleanup(t);
    }

    method DoMaybeCleanup(t: int)
      modifies this`table, this`lastDbCleanupAt
      ensures Abs() == MaybeCleanup(cfg, old(Abs()), t)
    {
      if !cfg.hasStore { return; }
      if t - lastDbCleanupAt < CLEANUP_INTERVAL { return; }
      lastDbCleanupAt := t;
      table := RowsAfter(table, t - cfg.spendWindow);
    }

    method DoPersist(id: int, at: int, stroops: int)
      modifies this`table
      ensures Abs() == Persist(cfg, old(Abs()), id, at, stroops)
    {
      if cfg.hasStore { table := table[id := Row(at, stroops)]; }
    }

    method DoCheckSettle(id: Identity, t: int) returns (v: Verdict)
      modifies this
      ensures (Abs(), v) == CheckSettle(cfg, old(Abs()), id, t)
    {
      var tripped := DoEvaluate(id, t);
      if tripped.Some? && cfg.enforced { return Verdict(false, tripped, None, None); }
      var token := DoReserve(id, t);
      return Verdict(true, None, tripped, Some(token));
    }

    method DoRefundUnspent(token: Option<int>)
      modifies this
      ensures Abs() == if token.None? then old(Abs()) else RefundUnspent(cfg, old(Abs()), token.value)
    {
      if token.None? { return; }
      var i := Find(globalSpend, token.value);
      if i < |globalSpend| { globalSpend := globalSpend[..i] + globalSpend[i + 1..]; }
      DoPersist(token.value, 0, 0);
    }

    method DoAdjustReservation(token: Option<int>, stroops: int) returns (found: bool)
      modifies this
      ensures (Abs(), found) == if token.None? then (old(Abs()), false)
                                else AdjustReservation(cfg, old(Abs()), token.value, stroops)
    {
      if token.None? { return false; }
      var i := Find(globalSpend, token.value);
      if i == |globalSpend| { return false; }
      var entry := globalSpend[i];
      globalSpend := globalSpend[i := entry.(stroops := stroops)];
      DoPersist(token.value, entry.at, stroops);
      return true;
    }
  }
}
