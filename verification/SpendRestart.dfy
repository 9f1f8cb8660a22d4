/**
 Restarts of the spend policy: the persisted rows carry the whole in-window spend over, and no live id is reissued.
 */
module SpendRestart {
  import opened SpendPolicy
  import opened SpendHistory

  ghost predicate Listed(table: map<int, Row>, e: Entry) {
    e.id in table && table[e.id] == Row(e.at, e.stroops)
  }

  /** Past `cutoff` the spend list and the table hold the same reservations, each once. */
  ghost predicate TableAgrees(s: State, cutoff: int) {
    && DistinctIds(s.globalSpend)
    && (forall e :: e in s.globalSpend ==> e.id < s.nextId && (e.at > cutoff ==> Listed(s.table, e)))
    && (forall id :: id in s.table && s.table[id].at > cutoff ==>
          Entry(s.table[id].at, s.table[id].stroops, id) in s.globalSpend)
  }

  /** What the store returns at boot: every row after the cutoff, each once, in any order. */
  ghost predicate Loaded(table: map<int, Row>, rows: seq<Entry>, cutoff: int) {
    && DistinctIds(rows)
    && (forall e :: e in rows ==> Listed(table, e) && e.at > cutoff)
    && (forall id :: id in table && table[id].at > cutoff ==> Entry(table[id].at, table[id].stroops, id) in rows)
  }

  /** A store-backed run under a clock at least one spend window past zero, each restart reading its own table. */
  ghost predicate StoredRun(cfg: Config, run: seq<Event>) {
    run != [] ==>
      && StoredRun(cfg, run[..|run| - 1])
      && match run[|run| - 1]
         case Check(_, t) => Clock(run[..|run| - 1]) <= t && t >= cfg.spendWindow
         case Restart(rows, t) =>
           && Clock(run[..|run| - 1]) <= t && t >= cfg.spendWindow
           && Loaded(Exec(cfg, run[..|run| - 1]).table, rows, t - cfg.spendWindow)
         case _ => |run| > 1 && Clock(run[..|run| - 1]) >= cfg.spendWindow
  }

  lemma LaterAgrees(s: State, c: int, d: int)
    requires TableAgrees(s, c) && c <= d
    ensures TableAgrees(s, d)
  {
  }

  lemma {:induction false} LiveIsDistinct(es: seq<Entry>, c: int)
    requires DistinctIds(es)
    ensures DistinctIds(Live(es, c))
    ensures forall e :: e in Live(es, c) <==> e in es && e.at > c
  {
    if es == [] {
    } else {
      var init, last := es[..|es| - 1], es[|es| - 1];
      LiveIsDistinct(init, c);
      assert es == init + [last];
      forall i | 0 <= i < |Live(init, c)| ensures Live(init, c)[i].id != last.id {
        assert Live(init, c)[i] in init;
      }
    }
  }

  lemma PrunedAgrees(s: State, cutoff: int)
    requires TableAgrees(s, cutoff)
    ensures TableAgrees(s.(globalSpend := Live(s.globalSpend, cutoff)), cutoff)
  {
    LiveIsDistinct(s.globalSpend, cutoff);
  }

  lemma ReservedAgrees(cfg: Config, s: State, id: Identity, t: int)
    requires TableAgrees(s, t - cfg.spendWindow) && cfg.hasStore
    ensures TableAgrees(Reserve(cfg, s, id, t), t - cfg.spendWindow)
  {
    hide CountRates;
    var r := Reserve(cfg, s, id, t);
    var e := Entry(t, cfg.estimate, s.nextId);
    assert r.globalSpend == s.globalSpend + [e];
    assert forall i :: 0 <= i < |s.globalSpend| ==> s.globalSpend[i] in s.globalSpend;
    forall k | k in r.table && r.table[k].at > t - cfg.spendWindow
      ensures Entry(r.table[k].at, r.table[k].stroops, k) in r.globalSpend
    {
      if k != s.nextId { assert k in s.table && s.table[k] == r.table[k]; }
    }
  }

  lemma CheckedAgrees(cfg: Config, s: State, id: Identity, t: int)
    requires TableAgrees(s, t - cfg.spendWindow) && cfg.hasStore
    ensures TableAgrees(CheckSettle(cfg, s, id, t).0, t - cfg.spendWindow)
  {
    EvaluateKeepsRates(cfg, s, id, t);
    hide Evaluate, Reserve;
    var p := Evaluate(cfg, s, id, t).0;
    PrunedAgrees(s, t - cfg.spendWindow);
    ReservedAgrees(cfg, p, id, t);
  }

  lemma RefundedAgrees(cfg: Config, s: State, token: int, cutoff: int)
    requires TableAgrees(s, cutoff) && cfg.hasStore && cutoff >= 0
    ensures TableAgrees(RefundUnspent(cfg, s, token), cutoff)
  {
    hide Remaining;
    Released(s.globalSpend, token);
    assert RefundUnspent(cfg, s, token).table == s.table[token := Row(0, 0)];
  }

  lemma AdjustedAgrees(cfg: Config, s: State, token: int, stroops: int, cutoff: int)
    requires TableAgrees(s, cutoff) && cfg.hasStore
    ensures TableAgrees(AdjustReservation(cfg, s, token, stroops).0, cutoff)
  {
    var i, es := Find(s.globalSpend, token), s.globalSpend;
    if i < |es| {
      var e' := es[i].(stroops := stroops);
      var r := AdjustReservation(cfg, s, token, stroops).0;
      assert r.globalSpend == es[i := e'] && r.table == s.table[token := Row(e'.at, stroops)];
      assert r.globalSpend[i] == e' && es[i] in es;
      forall e | e in es && e.id != token ensures e in r.globalSpend {
        var j :| 0 <= j < |es| && es[j] == e;
        assert r.globalSpend[j] == e;
      }
      forall e | e in r.globalSpend ensures e == e' || (e in es && e.id != token) {
        var j :| 0 <= j < |es| && r.globalSpend[j] == e;
        if j != i { assert es[j] == e; }
      }
      forall e | e in r.globalSpend && e.at > cutoff ensures Listed(r.table, e) {
        if e != e' { assert Listed(s.table, e); }
      }
    }
  }

  lemma BootedAgrees(cfg: Config, s: State, rows: seq<Entry>, t: int)
    requires cfg.hasStore && Loaded(s.table, rows, t - cfg.spendWindow)
    ensures TableAgrees(Boot(cfg, s.table, rows, t), t - cfg.spendWindow)
  {
  }

  /** In every store-backed run, restarts included, the table holds the whole in-window spend. */
  lemma {:induction false} TableAlwaysAgrees(cfg: Config, run: seq<Event>)
    requires cfg.hasStore && StoredRun(cfg, run)
    ensures TableAgrees(Exec(cfg, run), Clock(run) - cfg.spendWindow)
  {
    hide CheckSettle, RefundUnspent, AdjustReservation, Boot, TableAgrees, Loaded;
    if run == [] {
      FreshAgreesWithTable(cfg);
    } else {
      var prefix, last := run[..|run| - 1], run[|run| - 1];
      TableAlwaysAgrees(cfg, prefix);
      var s := Exec(cfg, prefix);
      LaterAgrees(s, Clock(prefix) - cfg.spendWindow, Clock(run) - cfg.spendWindow);
      match last
      case Check(id, t) => CheckedAgrees(cfg, s, id, t);
      case Refund(token) => RefundedAgrees(cfg, s, token, Clock(run) - cfg.spendWindow);
      case Adjust(token, stroops) => AdjustedAgrees(cfg, s, token, stroops, Clock(run) - cfg.spendWindow);
      case Restart(rows, t) => BootedAgrees(cfg, s, rows, t);
    }
  }

  lemma FreshAgreesWithTable(cfg: Config)
    ensures TableAgrees(FRESH, 0 - cfg.spendWindow)
  {
  }

  /** Two lists of the same reservations, in any order, cost the same. */
  lemma {:induction false} SameTotal(a: seq<Entry>, b: seq<Entry>)
    requires DistinctIds(a) && DistinctIds(b) && forall e :: e in a <==> e in b
    ensures Total(a) == Total(b)
  {
    if a == [] {
      assert forall i :: 0 <= i < |b| ==> b[i] in b;
    } else {
      var last, init := a[|a| - 1], a[..|a| - 1];
      assert a == init + [last] && last in a;
      var i :| 0 <= i < |b| && b[i] == last;
      var rest := b[..i] + b[i + 1..];
      assert forall j :: 0 <= j < |rest| ==> rest[j] == b[if j < i then j else j + 1];
      forall e | e in rest ensures e in init {
        var j :| 0 <= j < |rest| && rest[j] == e;
        assert e in b && e.id != last.id;
      }
      forall e | e in init ensures e in rest {
        var k :| 0 <= k < |init| && init[k] == e;
        assert a[k] == e && e.id != last.id && e in b;
        var j :| 0 <= j < |b| && b[j] == e;
        assert rest[if j < i then j else j - 1] == e;
      }
      SameTotal(init, rest);
      TotalWithout(b, i);
    }
  }

  lemma {:induction false} TotalWithout(b: seq<Entry>, i: nat)
    requires i < |b|
    ensures Total(b[..i] + b[i + 1..]) == Total(b) - b[i].stroops
    decreases |b|
  {
    var n := |b| - 1;
    if i == n {
      assert b[..i] + b[i + 1..] == b[..n];
    } else {
      TotalWithout(b[..n], i);
      var rest := b[..i] + b[i + 1..];
      assert rest[..n - 1] == b[..n][..i] + b[..n][i + 1..];
      assert rest[n - 1] == b[n];
    }
  }

  /**
   A restart forgets no spend. At any moment of a store-backed run, a process booted from the table charges every later
   window exactly what the old one would have, and its first id is above every id still in the window.
   */
  lemma RestartKeepsSpend(cfg: Config, run: seq<Event>, rows: seq<Entry>, t: int, c: int)
    requires cfg.hasStore && StoredRun(cfg, run + [Restart(rows, t)]) && c >= t - cfg.spendWindow
    ensures var s, booted := Exec(cfg, run), Exec(cfg, run + [Restart(rows, t)]);
            && Total(Live(booted.globalSpend, c)) == Total(Live(s.globalSpend, c))
            && forall e :: e in Live(s.globalSpend, c) ==> e.id < booted.nextId
  {
    assert (run + [Restart(rows, t)])[..|run|] == run;
    hide Step, TableAgrees, Total, Live;
    var s, booted := Exec(cfg, run), Exec(cfg, run + [Restart(rows, t)]);
    TableAlwaysAgrees(cfg, run);
    LaterAgrees(s, Clock(run) - cfg.spendWindow, t - cfg.spendWindow);
    BootKeepsSpend(cfg, s, rows, t, c);
    StepBoots(cfg, s, rows, t);
  }

  lemma StepBoots(cfg: Config, s: State, rows: seq<Entry>, t: int)
    ensures Step(cfg, s, Restart(rows, t)) == Boot(cfg, s.table, rows, t)
  {
  }

  lemma BootKeepsSpend(cfg: Config, s: State, rows: seq<Entry>, t: int, c: int)
    requires cfg.hasStore && TableAgrees(s, t - cfg.spendWindow) && Loaded(s.table, rows, t - cfg.spendWindow)
    requires c >= t - cfg.spendWindow
    ensures var booted := Boot(cfg, s.table, rows, t);
            && Total(Live(booted.globalSpend, c)) == Total(Live(s.globalSpend, c))
            && forall e :: e in Live(s.globalSpend, c) ==> e.id < booted.nextId
  {
    LiveIsDistinct(s.globalSpend, c);
    LiveIsDistinct(rows, c);
    forall e | e in Live(rows, c) ensures e in Live(s.globalSpend, c) {
      assert Listed(s.table, e) && Entry(s.table[e.id].at, s.table[e.id].stroops, e.id) == e;
    }
    forall e | e in Live(s.globalSpend, c) ensures e in Live(rows, c) {
      assert Listed(s.table, e) && Entry(s.table[e.id].at, s.table[e.id].stroops, e.id) == e;
    }
    SameTotal(Live(rows, c), Live(s.globalSpend, c));
  }
}
