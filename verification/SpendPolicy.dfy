/**
 The sponsor's spend policy: three pruned rolling counters and a rolling spend window with refunds, adjustments and a
 restart from persisted reservations. The operations as functions on the policy's fields.
 */
module SpendPolicy {
  import opened Basics
  import opened Windows

  datatype Config = Config(
    enforced: bool, rateWindow: nat, spendWindow: nat, ceiling: nat, estimate: nat,
    perUrlMax: nat, perPayToMax: nat, unboundPoolMax: nat, hasStore: bool)

  datatype Identity = Identity(resourceUrl: string, payTo: string, bound: bool)

  datatype Reason = RateLimitedPayTo | RateLimitedUrl | UnboundPoolExhausted | SpendCeiling

  datatype Verdict = Verdict(
    allowed: bool, reason: Option<Reason>, wouldReject: Option<Reason>, reservation: Option<int>)

  datatype Entry = Entry(at: int, stroops: int, id: int)
  datatype Row = Row(at: int, stroops: int)

  datatype State = State(
    perPayTo: map<string, seq<int>>, perUrl: map<string, seq<int>>, unboundPool: seq<int>,
    globalSpend: seq<Entry>, nextId: int,
    /** The spend_reservation table, by id, and when it was last tidied. */
    table: map<int, Row>, lastCleanup: int)

  const CLEANUP_INTERVAL: int := 600_000

  const FRESH: State := State(map[], map[], [], [], 1, map[], 0)

  function Bucket(m: map<string, seq<int>>, key: string): seq<int> {
    if key in m then m[key] else []
  }

  /** A settle with its own URL budget; every other settle shares the unbound pool. */
  predicate HasUrlBudget(id: Identity) {
    id.bound && id.resourceUrl != ""
  }

  /** The entries still inside the spend window that starts after `cutoff`. */
  function Live(es: seq<Entry>, cutoff: int): seq<Entry> {
    if es == [] then []
    else
      var last := es[|es| - 1];
      Live(es[..|es| - 1], cutoff) + if last.at > cutoff then [last] else []
  }

  function Total(es: seq<Entry>): int {
    if es == [] then 0 else Total(es[..|es| - 1]) + es[|es| - 1].stroops
  }

  /** Which limit this settle would cross. The rate counters are only read; the spend list is pruned if reached. */
  function Evaluate(cfg: Config, s: State, id: Identity, t: int): (State, Option<Reason>) {
    if |After(Bucket(s.perPayTo, id.payTo), t - cfg.rateWindow)| >= cfg.perPayToMax then (s, Some(RateLimitedPayTo))
    else if HasUrlBudget(id) && |After(Bucket(s.perUrl, id.resourceUrl), t - cfg.rateWindow)| >= cfg.perUrlMax then
      (s, Some(RateLimitedUrl))
    else if !HasUrlBudget(id) && |After(s.unboundPool, t - cfg.rateWindow)| >= cfg.unboundPoolMax then
      (s, Some(UnboundPoolExhausted))
    else
      var live := Live(s.globalSpend, t - cfg.spendWindow);
      (s.(globalSpend := live), if Total(live) + cfg.estimate > cfg.ceiling then Some(SpendCeiling) else None)
  }

  function MaxOf(ts: seq<int>): int
    requires ts != []
  {
    if |ts| == 1 then ts[0]
    else
      var m := MaxOf(ts[..|ts| - 1]);
      if ts[|ts| - 1] > m then ts[|ts| - 1] else m
  }

  predicate Elapsed(times: seq<int>, cutoff: int) {
    times == [] || MaxOf(times) <= cutoff
  }

  function EvictElapsed(m: map<string, seq<int>>, cutoff: int): map<string, seq<int>> {
    map k | k in m && !Elapsed(m[k], cutoff) :: m[k]
  }

  function Persist(cfg: Config, s: State, id: int, at: int, stroops: int): State {
    if cfg.hasStore then s.(table := s.table[id := Row(at, stroops)]) else s
  }

  function RowsAfter(table: map<int, Row>, cutoff: int): map<int, Row> {
    map i | i in table && table[i].at > cutoff :: table[i]
  }

  function MaybeCleanup(cfg: Config, s: State, t: int): State {
    if !cfg.hasStore || t - s.lastCleanup < CLEANUP_INTERVAL then s
    else s.(lastCleanup := t, table := RowsAfter(s.table, t - cfg.spendWindow))
  }

  /** The three rate counters with this settle counted, pruned, and without the buckets that have aged out. */
  function CountRates(cfg: Config, s: State, id: Identity, t: int)
    : (map<string, seq<int>>, map<string, seq<int>>, seq<int>)
  {
    var cutoff := t - cfg.rateWindow;
    var payTos := s.perPayTo[id.payTo := After(Bucket(s.perPayTo, id.payTo), cutoff) + [t]];
    var urls := if HasUrlBudget(id)
                then s.perUrl[id.resourceUrl := After(Bucket(s.perUrl, id.resourceUrl), cutoff) + [t]]
                else s.perUrl;
    var pool := if HasUrlBudget(id) then s.unboundPool else After(s.unboundPool, cutoff) + [t];
    (EvictElapsed(payTos, cutoff), EvictElapsed(urls, cutoff), pool)
  }

  function Reserve(cfg: Config, s: State, id: Identity, t: int): State {
    var (payTos, urls, pool) := CountRates(cfg, s, id, t);
    var booked := s.(perPayTo := payTos, perUrl := urls, unboundPool := pool,
                     globalSpend := s.globalSpend + [Entry(t, cfg.estimate, s.nextId)], nextId := s.nextId + 1);
    MaybeCleanup(cfg, Persist(cfg, booked, s.nextId, t, cfg.estimate), t)
  }

  function CheckSettle(cfg: Config, s: State, id: Identity, t: int): (State, Verdict) {
    var (pruned, tripped) := Evaluate(cfg, s, id, t);
    if tripped.Some? && cfg.enforced then (pruned, Verdict(false, tripped, None, None))
    else (Reserve(cfg, pruned, id, t), Verdict(true, None, tripped, Some(pruned.nextId)))
  }

  /** The position of the first entry with this id, or the length. */
  function Find(es: seq<Entry>, token: int): (i: nat)
    ensures i <= |es| && (i < |es| ==> es[i].id == token)
    ensures forall j :: 0 <= j < i ==> es[j].id != token
  {
    if es == [] then 0 else if es[0].id == token then 0 else 1 + Find(es[1..], token)
  }

  /** The entries with the refunded one spliced out. */
  function Remaining(es: seq<Entry>, token: int): seq<Entry> {
    var i := Find(es, token);
    if i < |es| then es[..i] + es[i + 1..] else es
  }

  function RefundUnspent(cfg: Config, s: State, token: int): State {
    Persist(cfg, s.(globalSpend := Remaining(s.globalSpend, token)), token, 0, 0)
  }

  function AdjustReservation(cfg: Config, s: State, token: int, stroops: int): (State, bool) {
    var i := Find(s.globalSpend, token);
    if i == |s.globalSpend| then (s, false)
    else
      var entry := s.globalSpend[i];
      (Persist(cfg, s.(globalSpend := s.globalSpend[i := entry.(stroops := stroops)]), token, entry.at, stroops), true)
  }

  /** The highest id among the rows, or one below the first id. */
  function NextAfter(rows: seq<Entry>, next: int): (r: int)
    ensures r >= next && forall e :: e in rows ==> e.id < r
  {
    if rows == [] then next
    else
      var last := rows[|rows| - 1];
      var r := NextAfter(rows[..|rows| - 1], next);
      assert rows == rows[..|rows| - 1] + [last];
      if last.id >= r then last.id + 1 else r
  }

  /** A new process at time `t`: only what the store returned survives. The store also drops the elapsed rows. */
  function Boot(cfg: Config, table: map<int, Row>, rows: seq<Entry>, t: int): State {
    if !cfg.hasStore then FRESH
    else FRESH.(globalSpend := rows, nextId := NextAfter(rows, 1), table := RowsAfter(table, t - cfg.spendWindow))
  }

  datatype Event =
    | Check(id: Identity, now: int)
    | Refund(token: int)
    | Adjust(adjusted: int, stroops: int)
    | Restart(rows: seq<Entry>, at: int)

  function Step(cfg: Config, s: State, e: Event): State {
    match e
    case Check(id, t) => CheckSettle(cfg, s, id, t).0
    case Refund(token) => RefundUnspent(cfg, s, token)
    case Adjust(token, stroops) => AdjustReservation(cfg, s, token, stroops).0
    case Restart(rows, t) => Boot(cfg, s.table, rows, t)
  }

  function Exec(cfg: Config, run: seq<Event>): State {
    if run == [] then FRESH else Step(cfg, Exec(cfg, run[..|run| - 1]), run[|run| - 1])
  }

  /** The clock at the last event that read it. */
  function Clock(run: seq<Event>): int {
    if run == [] then 0
    else match run[|run| - 1]
      case Check(_, t) => t
      case Restart(_, t) => t
      case _ => Clock(run[..|run| - 1])
  }

  /** The clock never goes back. */
  ghost predicate Monotone(run: seq<Event>) {
    run != [] ==> Monotone(run[..|run| - 1]) && Clock(run[..|run| - 1]) <= Clock(run)
  }
}
