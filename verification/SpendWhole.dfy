/**
 What the sponsor spent, over the whole history and across restarts: every reservation ever booked, as refunded and
 adjusted since, whatever the policy has pruned or the process has forgotten. The ceiling is a fact about this history.
 */
module SpendWhole {
  import opened Basics
  import opened SpendPolicy
  import opened SpendHistory
  import opened SpendRestart

  /** One booked reservation; `spend` is None once refunded. A token can come back when a restart has forgotten it. */
  datatype Booking = Booking(at: int, token: int, spend: Option<int>)

  function CostOf(b: Booking): int {
    if b.spend.Some? then b.spend.value else 0
  }

  /** What the bookings in (lo, hi] cost, as booked now. */
  function Cost(bs: seq<Booking>, lo: int, hi: int): int {
    if bs == [] then 0
    else
      var last := bs[|bs| - 1];
      Cost(bs[..|bs| - 1], lo, hi) + if lo < last.at <= hi then CostOf(last) else 0
  }

  /** The newest booking under this token, or -1. */
  function Newest(bs: seq<Booking>, token: int): (i: int)
    ensures -1 <= i < |bs| && (i >= 0 ==> bs[i].token == token)
    ensures forall j :: i < j < |bs| ==> bs[j].token != token
  {
    if bs == [] then -1
    else if bs[|bs| - 1].token == token then |bs| - 1
    else Newest(bs[..|bs| - 1], token)
  }

  function Rebooked(bs: seq<Booking>, i: int, spend: Option<int>): (r: seq<Booking>)
    requires 0 <= i < |bs|
    ensures |r| == |bs| && forall j :: 0 <= j < |bs| ==> r[j] == if j == i then bs[i].(spend := spend) else bs[j]
  {
    bs[i := bs[i].(spend := spend)]
  }

  /** What an event does to the history. A restart does nothing to it. */
  function Book(cfg: Config, s: State, bs: seq<Booking>, e: Event): seq<Booking> {
    match e
    case Check(id, t) =>
      if CheckSettle(cfg, s, id, t).1.allowed then bs + [Booking(t, s.nextId, Some(cfg.estimate))] else bs
    case Refund(token) => if Newest(bs, token) >= 0 then Rebooked(bs, Newest(bs, token), None) else bs
    case Adjust(token, stroops) =>
      var i := Newest(bs, token);
      if i >= 0 && bs[i].spend.Some? then Rebooked(bs, i, Some(stroops)) else bs
    case Restart(_, _) => bs
  }

  function Whole(cfg: Config, run: seq<Event>): seq<Booking> {
    if run == [] then []
    else Book(cfg, Exec(cfg, run[..|run| - 1]), Whole(cfg, run[..|run| - 1]), run[|run| - 1])
  }

  // ---- The policy's reservations agree with the whole history ----

  predicate IsBooked(b: Booking, e: Entry) {
    b == Booking(e.at, e.id, Some(e.stroops))
  }

  function EntryOf(b: Booking): Entry {
    Entry(b.at, CostOf(b), b.token)
  }

  predicate InForce(b: Booking, cutoff: int) {
    b.spend.Some? && b.at > cutoff
  }

  /** Past `cutoff` the policy holds the bookings not refunded, each once, and nothing else. */
  ghost predicate WholeAgrees(s: State, bs: seq<Booking>, cutoff: int, now: int) {
    && DistinctIds(s.globalSpend)
    && (forall e :: e in s.globalSpend ==> e.id < s.nextId)
    && (forall e :: e in s.globalSpend && e.at > cutoff ==> Recorded(bs, e))
    && (forall i :: 0 <= i < |bs| && InForce(bs[i], cutoff) ==> EntryOf(bs[i]) in s.globalSpend)
    && (forall i, j :: 0 <= i < j < |bs| && InForce(bs[i], cutoff) ==> bs[j].token != bs[i].token)
    && (forall i :: 0 <= i < |bs| ==> bs[i].at <= now)
  }

  ghost predicate Recorded(bs: seq<Booking>, e: Entry) {
    exists i :: 0 <= i < |bs| && IsBooked(bs[i], e)
  }

  lemma LaterWhole(s: State, bs: seq<Booking>, c: int, d: int, now: int, later: int)
    requires WholeAgrees(s, bs, c, now) && c <= d && now <= later
    ensures WholeAgrees(s, bs, d, later)
  {
  }

  lemma WholePruned(s: State, bs: seq<Booking>, cutoff: int, now: int)
    requires WholeAgrees(s, bs, cutoff, now)
    ensures WholeAgrees(s.(globalSpend := Live(s.globalSpend, cutoff)), bs, cutoff, now)
  {
    LiveIsDistinct(s.globalSpend, cutoff);
  }

  lemma WholeReserved(s: State, bs: seq<Booking>, cutoff: int, now: int, cost: int, t: State)
    requires WholeAgrees(s, bs, cutoff, now)
    requires t.globalSpend == s.globalSpend + [Entry(now, cost, s.nextId)] && t.nextId == s.nextId + 1
    ensures WholeAgrees(t, bs + [Booking(now, s.nextId, Some(cost))], cutoff, now)
  {
    var es, b := s.globalSpend, Booking(now, s.nextId, Some(cost));
    var bs' := bs + [b];
    assert forall i :: 0 <= i < |es| ==> es[i] in es;
    assert forall i :: 0 <= i < |bs| ==> bs'[i] == bs[i];
    forall e | e in t.globalSpend && e.at > cutoff ensures Recorded(bs', e) {
      if e in es {
        var i :| 0 <= i < |bs| && IsBooked(bs[i], e);
        assert IsBooked(bs'[i], e);
      } else {
        assert IsBooked(bs'[|bs|], e);
      }
    }
    forall i | 0 <= i < |bs'| && InForce(bs'[i], cutoff) ensures EntryOf(bs'[i]) in t.globalSpend {
      if i == |bs| { assert t.globalSpend[|es|] == EntryOf(b); }
    }
    forall i, j | 0 <= i < j < |bs'| && InForce(bs'[i], cutoff) ensures bs'[j].token != bs'[i].token {
      assert EntryOf(bs[i]) in es;
    }
  }

  lemma WholeEvaluated(cfg: Config, s: State, bs: seq<Booking>, id: Identity, t: int)
    requires WholeAgrees(s, bs, t - cfg.spendWindow, t)
    ensures WholeAgrees(Evaluate(cfg, s, id, t).0, bs, t - cfg.spendWindow, t)
    ensures Evaluate(cfg, s, id, t).0.nextId == s.nextId
  {
    WholePruned(s, bs, t - cfg.spendWindow, t);
    hide WholeAgrees;
  }

  lemma WholeChecked(cfg: Config, s: State, bs: seq<Booking>, before: int, id: Identity, t: int)
    requires WholeAgrees(s, bs, before - cfg.spendWindow, before) && before <= t
    ensures WholeAgrees(CheckSettle(cfg, s, id, t).0, Book(cfg, s, bs, Check(id, t)), t - cfg.spendWindow, t)
  {
    hide WholeAgrees, Evaluate, Reserve;
    LaterWhole(s, bs, before - cfg.spendWindow, t - cfg.spendWindow, before, t);
    WholeEvaluated(cfg, s, bs, id, t);
    var p := Evaluate(cfg, s, id, t).0;
    if CheckSettle(cfg, s, id, t).1.allowed {
      ReserveShape(cfg, p, id, t);
      WholeReserved(p, bs, t - cfg.spendWindow, t, cfg.estimate, Reserve(cfg, p, id, t));
    }
  }

  /** In force, a booking is the newest under its token. */
  lemma InForceIsNewest(s: State, bs: seq<Booking>, cutoff: int, now: int, i: nat)
    requires WholeAgrees(s, bs, cutoff, now) && i < |bs| && InForce(bs[i], cutoff)
    ensures Newest(bs, bs[i].token) == i
  {
    assert forall j :: i < j < |bs| ==> bs[j].token != bs[i].token;
  }

  lemma WholeRefunded(cfg: Config, s: State, bs: seq<Booking>, cutoff: int, now: int, token: int)
    requires WholeAgrees(s, bs, cutoff, now)
    ensures WholeAgrees(RefundUnspent(cfg, s, token), Book(cfg, s, bs, Refund(token)), cutoff, now)
  {
    hide Remaining;
    var t, bs' := RefundUnspent(cfg, s, token), Book(cfg, s, bs, Refund(token));
    Released(s.globalSpend, token);
    var n := Newest(bs, token);
    assert |bs'| == |bs| && forall i :: 0 <= i < |bs| && i != n ==> bs'[i] == bs[i];
    forall e | e in t.globalSpend && e.at > cutoff ensures Recorded(bs', e) {
      var i :| 0 <= i < |bs| && IsBooked(bs[i], e);
      assert IsBooked(bs'[i], e);
    }
    forall i | 0 <= i < |bs'| && InForce(bs'[i], cutoff) ensures EntryOf(bs'[i]) in t.globalSpend {
      assert i != n && InForce(bs[i], cutoff);
      InForceIsNewest(s, bs, cutoff, now, i);
    }
  }

  predicate IsAdjusted(b: Booking, b': Booking, token: int, stroops: int) {
    b' == if b.token == token then b.(spend := Some(stroops)) else b
  }

  lemma WholeRewritten(s: State, t: State, bs: seq<Booking>, bs': seq<Booking>, cutoff: int, now: int, token: int,
                       stroops: int)
    requires WholeAgrees(s, bs, cutoff, now) && t.nextId == s.nextId
    requires |t.globalSpend| == |s.globalSpend|
    requires forall j :: 0 <= j < |s.globalSpend| ==> t.globalSpend[j] == Adjusted(s.globalSpend[j], token, stroops)
    requires |bs'| == |bs| && forall i :: 0 <= i < |bs| ==>
                                bs'[i].token == bs[i].token && bs'[i].at == bs[i].at
                                && (bs[i].spend.Some? <==> bs'[i].spend.Some?)
                                && (InForce(bs[i], cutoff) ==> IsAdjusted(bs[i], bs'[i], token, stroops))
    ensures WholeAgrees(t, bs', cutoff, now)
  {
    var es, es' := s.globalSpend, t.globalSpend;
    forall e | e in es' ensures e.id < s.nextId && (e.at > cutoff ==> Recorded(bs', e)) {
      var j :| 0 <= j < |es'| && es'[j] == e;
      assert es[j] in es;
      if e.at > cutoff {
        var i :| 0 <= i < |bs| && IsBooked(bs[i], es[j]);
        assert InForce(bs[i], cutoff) && IsBooked(bs'[i], e);
      }
    }
    forall i | 0 <= i < |bs'| && InForce(bs'[i], cutoff) ensures EntryOf(bs'[i]) in es' {
      assert InForce(bs[i], cutoff);
      var j :| 0 <= j < |es| && es[j] == EntryOf(bs[i]);
      assert es'[j] == EntryOf(bs'[i]);
    }
  }

  lemma WholeAdjusted(cfg: Config, s: State, bs: seq<Booking>, cutoff: int, now: int, token: int, stroops: int)
    requires WholeAgrees(s, bs, cutoff, now)
    ensures WholeAgrees(AdjustReservation(cfg, s, token, stroops).0, Book(cfg, s, bs, Adjust(token, stroops)),
                        cutoff, now)
  {
    var t, bs' := AdjustReservation(cfg, s, token, stroops).0, Book(cfg, s, bs, Adjust(token, stroops));
    AdjustedInPlace(s.globalSpend, token, stroops);
    forall i | 0 <= i < |bs| && InForce(bs[i], cutoff) ensures IsAdjusted(bs[i], bs'[i], token, stroops) {
      InForceIsNewest(s, bs, cutoff, now, i);
    }
    hide WholeAgrees, Newest, Find;
    WholeRewritten(s, t, bs, bs', cutoff, now, token, stroops);
  }

  lemma WholeBooted(cfg: Config, s: State, bs: seq<Booking>, cutoff: int, now: int, rows: seq<Entry>, t: int)
    requires cfg.hasStore && WholeAgrees(s, bs, cutoff, now) && now <= t && cutoff <= t - cfg.spendWindow
    requires TableAgrees(s, t - cfg.spendWindow) && Loaded(s.table, rows, t - cfg.spendWindow)
    ensures WholeAgrees(Boot(cfg, s.table, rows, t), bs, t - cfg.spendWindow, t)
  {
    LaterWhole(s, bs, cutoff, t - cfg.spendWindow, now, t);
    forall e | e in rows ensures e in s.globalSpend {
      assert Listed(s.table, e) && Entry(s.table[e.id].at, s.table[e.id].stroops, e.id) == e;
    }
    forall i | 0 <= i < |bs| && InForce(bs[i], t - cfg.spendWindow) ensures EntryOf(bs[i]) in rows {
      var e := EntryOf(bs[i]);
      assert Listed(s.table, e) && Entry(s.table[e.id].at, s.table[e.id].stroops, e.id) == e;
    }
  }

  /** A run under a clock that never goes back, without restarts or with each restart reading what the store kept. */
  ghost predicate Unbroken(cfg: Config, run: seq<Event>) {
    Monotone(run) && (NoRestart(run) || (cfg.hasStore && StoredRun(cfg, run)))
  }

  lemma {:induction false} WholeAlwaysAgrees(cfg: Config, run: seq<Event>)
    requires Unbroken(cfg, run)
    ensures WholeAgrees(Exec(cfg, run), Whole(cfg, run), Clock(run) - cfg.spendWindow, Clock(run))
  {
    hide CheckSettle, RefundUnspent, AdjustReservation, Boot, TableAgrees, Loaded, WholeAgrees, Book;
    if run == [] {
      NothingBooked(cfg);
    } else {
      var prefix, last := run[..|run| - 1], run[|run| - 1];
      assert NoRestart(run) ==> NoRestart(prefix);
      WholeAlwaysAgrees(cfg, prefix);
      var s, bs, now := Exec(cfg, prefix), Whole(cfg, prefix), Clock(prefix);
      match last
      case Check(id, t) => WholeChecked(cfg, s, bs, now, id, t);
      case Refund(token) => WholeRefunded(cfg, s, bs, now - cfg.spendWindow, now, token);
      case Adjust(token, stroops) => WholeAdjusted(cfg, s, bs, now - cfg.spendWindow, now, token, stroops);
      case Restart(rows, t) =>
        TableAlwaysAgrees(cfg, prefix);
        LaterAgrees(s, now - cfg.spendWindow, t - cfg.spendWindow);
        WholeBooted(cfg, s, bs, now - cfg.spendWindow, now, rows, t);
        RestartBooksNothing(cfg, s, bs, rows, t);
    }
  }

  lemma RestartBooksNothing(cfg: Config, s: State, bs: seq<Booking>, rows: seq<Entry>, t: int)
    ensures Book(cfg, s, bs, Restart(rows, t)) == bs
  {
  }

  lemma NothingBooked(cfg: Config)
    ensures WholeAgrees(FRESH, [], 0 - cfg.spendWindow, 0)
  {
  }
}
