/**
 The pruned policy against its complete, unpruned history: same verdicts, the same limits in every window, and a spend
 window that a restart does not forget.
 */
module SpendHistory {
  import opened Basics
  import opened Windows
  import opened SpendPolicy

  /** One granted settle; its token is its position plus one. `spend` is None once refunded. */
  datatype Grant = Grant(at: int, id: Identity, spend: Option<int>)

  /** A rate budget: one recipient's, one bound URL's, or the pool of all settles that are not bound or have no URL. */
  datatype Slot = ForPayTo(payTo: string) | ForUrl(url: string) | Pool

  predicate Counts(id: Identity, slot: Slot) {
    match slot
    case ForPayTo(p) => id.payTo == p
    case ForUrl(u) => id.bound && id.resourceUrl == u && u != ""
    case Pool => !id.bound || id.resourceUrl == ""
  }

  function MaxFor(cfg: Config, slot: Slot): nat {
    match slot
    case ForPayTo(_) => cfg.perPayToMax
    case ForUrl(_) => cfg.perUrlMax
    case Pool => cfg.unboundPoolMax
  }

  /** When the settles counted against `slot` were granted; nothing is ever dropped. */
  function Times(h: seq<Grant>, slot: Slot): seq<int> {
    if h == [] then []
    else
      var last := h[|h| - 1];
      Times(h[..|h| - 1], slot) + if Counts(last.id, slot) then [last.at] else []
  }

  function SpendOf(g: Grant): int {
    if g.spend.Some? then g.spend.value else 0
  }

  /** What the settles granted in (lo, hi] cost, as booked now. */
  function SpendIn(h: seq<Grant>, lo: int, hi: int): int {
    if h == [] then 0
    else
      var last := h[|h| - 1];
      SpendIn(h[..|h| - 1], lo, hi) + if lo < last.at <= hi then SpendOf(last) else 0
  }

  predicate Full(cfg: Config, h: seq<Grant>, slot: Slot, t: int) {
    InWindow(Times(h, slot), t, cfg.rateWindow) >= MaxFor(cfg, slot)
  }

  /** The verdict computed from the whole history. */
  function Tripped(cfg: Config, h: seq<Grant>, id: Identity, t: int): Option<Reason> {
    if Full(cfg, h, ForPayTo(id.payTo), t) then Some(RateLimitedPayTo)
    else if Counts(id, ForUrl(id.resourceUrl)) && Full(cfg, h, ForUrl(id.resourceUrl), t) then Some(RateLimitedUrl)
    else if Counts(id, Pool) && Full(cfg, h, Pool, t) then Some(UnboundPoolExhausted)
    else if SpendIn(h, t - cfg.spendWindow, t) + cfg.estimate > cfg.ceiling then Some(SpendCeiling)
    else None
  }

  function Judge(cfg: Config, h: seq<Grant>, id: Identity, t: int): Verdict {
    var tripped := Tripped(cfg, h, id, t);
    if tripped.Some? && cfg.enforced then Verdict(false, tripped, None, None)
    else Verdict(true, None, tripped, Some(|h| + 1))
  }

  function Record(cfg: Config, h: seq<Grant>, e: Event): seq<Grant> {
    match e
    case Check(id, t) => if Judge(cfg, h, id, t).allowed then h + [Grant(t, id, Some(cfg.estimate))] else h
    case Refund(token) => if 1 <= token <= |h| then h[token - 1 := h[token - 1].(spend := None)] else h
    case Adjust(token, stroops) =>
      if 1 <= token <= |h| && h[token - 1].spend.Some?
      then h[token - 1 := h[token - 1].(spend := Some(stroops))] else h
    case Restart(_, _) => []
  }

  function History(cfg: Config, run: seq<Event>): seq<Grant> {
    if run == [] then [] else Record(cfg, History(cfg, run[..|run| - 1]), run[|run| - 1])
  }

  ghost predicate NoRestart(run: seq<Event>) {
    forall i :: 0 <= i < |run| ==> !run[i].Restart?
  }

  // ---- Rates: what is kept agrees with what happened ----

  function Kept(s: State, slot: Slot): seq<int> {
    match slot
    case ForPayTo(p) => Bucket(s.perPayTo, p)
    case ForUrl(u) => Bucket(s.perUrl, u)
    case Pool => s.unboundPool
  }

  lemma {:induction false} MaxBelow(ts: seq<int>, cutoff: int, c: int)
    requires ts != [] && MaxOf(ts) <= cutoff <= c
    ensures After(ts, c) == []
  {
    if |ts| > 1 { MaxBelow(ts[..|ts| - 1], cutoff, c); } else { assert After(ts[..0], c) == []; }
  }

  lemma EvictionIsInvisible(m: map<string, seq<int>>, cutoff: int, key: string, c: int)
    requires cutoff <= c
    ensures After(Bucket(EvictElapsed(m, cutoff), key), c) == After(Bucket(m, key), c)
  {
    if key in m && Elapsed(m[key], cutoff) && m[key] != [] { MaxBelow(m[key], cutoff, c); }
  }

  /** One bucket after counting a settle at `t`, as far as later windows can see. */
  lemma BucketCounts(m: map<string, seq<int>>, key: string, other: string, t: int, cutoff: int, c: int)
    requires cutoff <= c
    ensures var counted := m[key := After(Bucket(m, key), cutoff) + [t]];
            After(Bucket(EvictElapsed(counted, cutoff), other), c) ==
              After(Bucket(m, other), c) + if other == key && t > c then [t] else []
  {
    hide EvictElapsed;
    var kept := After(Bucket(m, key), cutoff);
    EvictionIsInvisible(m[key := kept + [t]], cutoff, other, c);
    if other == key {
      AfterTwice(Bucket(m, key), cutoff, c);
      Snoc(kept, t, c, c);
    }
  }

  /** Counting a settle appends its time to the slots it counts against, as far as later windows can see. */
  lemma CountingKeeps(cfg: Config, s: State, id: Identity, t: int, slot: Slot, c: int)
    requires c >= t - cfg.rateWindow
    ensures var (payTos, urls, pool) := CountRates(cfg, s, id, t);
            After(Kept(s.(perPayTo := payTos, perUrl := urls, unboundPool := pool), slot), c) ==
              After(Kept(s, slot), c) + if Counts(id, slot) && t > c then [t] else []
  {
    hide EvictElapsed, After;
    var cutoff := t - cfg.rateWindow;
    match slot
    case ForPayTo(p) => BucketCounts(s.perPayTo, id.payTo, p, t, cutoff, c);
    case ForUrl(u) =>
      if HasUrlBudget(id) {
        BucketCounts(s.perUrl, id.resourceUrl, u, t, cutoff, c);
      } else {
        EvictionIsInvisible(s.perUrl, cutoff, u, c);
      }
    case Pool =>
      AfterTwice(s.unboundPool, cutoff, c);
      Snoc(After(s.unboundPool, cutoff), t, c, c);
  }

  lemma ReserveRates(cfg: Config, s: State, id: Identity, t: int, slot: Slot)
    ensures var (payTos, urls, pool) := CountRates(cfg, s, id, t);
            Kept(Reserve(cfg, s, id, t), slot) ==
              Kept(s.(perPayTo := payTos, perUrl := urls, unboundPool := pool), slot)
  {
    hide CountRates;
  }

  lemma ReserveShape(cfg: Config, s: State, id: Identity, t: int)
    ensures Reserve(cfg, s, id, t).globalSpend == s.globalSpend + [Entry(t, cfg.estimate, s.nextId)]
    ensures Reserve(cfg, s, id, t).nextId == s.nextId + 1
  {
    hide CountRates;
  }

  lemma EvaluateKeepsRates(cfg: Config, s: State, id: Identity, t: int)
    ensures var p := Evaluate(cfg, s, id, t).0;
            p == s.(globalSpend := p.globalSpend)
            && (p.globalSpend == s.globalSpend || p.globalSpend == Live(s.globalSpend, t - cfg.spendWindow))
  {
  }

  // ---- Spend: the entries kept are the grants not refunded ----

  ghost predicate Increasing(es: seq<Entry>) {
    forall i, j :: 0 <= i < j < |es| ==> es[i].id < es[j].id
  }

  ghost predicate DistinctIds(es: seq<Entry>) {
    forall i, j :: 0 <= i < j < |es| ==> es[i].id != es[j].id
  }

  predicate IsGrant(e: Entry, h: seq<Grant>) {
    1 <= e.id <= |h| && h[e.id - 1].at == e.at && h[e.id - 1].spend == Some(e.stroops)
  }

  predicate Unrefunded(h: seq<Grant>, k: int, cutoff: int) {
    0 <= k < |h| && h[k].spend.Some? && h[k].at > cutoff
  }

  function EntryFor(h: seq<Grant>, k: int): Entry
    requires 0 <= k < |h|
  {
    Entry(h[k].at, SpendOf(h[k]), k + 1)
  }

  /** Every kept entry is a grant, and every unrefunded grant after `cutoff` is kept. */
  ghost predicate SpendAgrees(es: seq<Entry>, h: seq<Grant>, cutoff: int) {
    && Increasing(es)
    && (forall e :: e in es ==> IsGrant(e, h))
    && (forall k :: Unrefunded(h, k, cutoff) ==> EntryFor(h, k) in es)
  }

  /** Dropping the newest grant, together with its entry if that is kept. */
  lemma DropNewest(es: seq<Entry>, h: seq<Grant>, cutoff: int) returns (rest: seq<Entry>)
    requires SpendAgrees(es, h, cutoff) && h != []
    ensures SpendAgrees(rest, h[..|h| - 1], cutoff)
    ensures if es != [] && es[|es| - 1].id == |h| then es == rest + [es[|es| - 1]] && IsGrant(es[|es| - 1], h)
            else rest == es && !Unrefunded(h, |h| - 1, cutoff)
  {
    var n, init := |h|, h[..|h| - 1];
    if es != [] && es[|es| - 1].id == n {
      rest := es[..|es| - 1];
      var last := es[|es| - 1];
      assert es == rest + [last];
      forall e | e in rest ensures IsGrant(e, init) {
        var i :| 0 <= i < |rest| && rest[i] == e;
        assert e in es && es[i].id < last.id;
      }
      forall k | Unrefunded(init, k, cutoff) ensures EntryFor(init, k) in rest {
        assert Unrefunded(h, k, cutoff) && EntryFor(h, k) == EntryFor(init, k);
      }
    } else {
      rest := es;
      forall e | e in es ensures IsGrant(e, init) {
        var i :| 0 <= i < |es| && es[i] == e;
        assert IsGrant(es[|es| - 1], h);
      }
      assert Unrefunded(h, n - 1, cutoff) ==> IsGrant(EntryFor(h, n - 1), init);
      forall k | Unrefunded(init, k, cutoff) ensures EntryFor(init, k) in rest {
        assert Unrefunded(h, k, cutoff) && EntryFor(h, k) == EntryFor(init, k);
      }
    }
  }

  lemma {:induction false} TotalAgrees(es: seq<Entry>, h: seq<Grant>, cutoff: int, c: int, hi: int)
    requires SpendAgrees(es, h, cutoff) && c >= cutoff
    requires forall k :: 0 <= k < |h| ==> h[k].at <= hi
    ensures Total(Live(es, c)) == SpendIn(h, c, hi)
    decreases |h|
  {
    hide SpendAgrees;
    if h == [] {
      NoGrantsNoEntries(es, h, cutoff);
    } else {
      var rest := DropNewest(es, h, cutoff);
      TotalAgrees(rest, h[..|h| - 1], cutoff, c, hi);
      if es != [] && es[|es| - 1].id == |h| { TotalSnoc(rest, es[|es| - 1], c); }
    }
  }

  lemma NoGrantsNoEntries(es: seq<Entry>, h: seq<Grant>, cutoff: int)
    requires SpendAgrees(es, h, cutoff) && h == []
    ensures es == []
  {
    assert es != [] ==> IsGrant(es[0], h);
  }

  lemma TotalSnoc(es: seq<Entry>, e: Entry, c: int)
    ensures Live(es + [e], c) == Live(es, c) + if e.at > c then [e] else []
    ensures Total(es + [e]) == Total(es) + e.stroops
    ensures Total(Live(es + [e], c)) == Total(Live(es, c)) + if e.at > c then e.stroops else 0
  {
    assert (es + [e])[..|es|] == es;
    assert (Live(es, c) + [e])[..|Live(es, c)|] == Live(es, c);
    assert Live(es, c) + [] == Live(es, c);
  }

  lemma {:induction false} LiveContents(es: seq<Entry>, c: int)
    ensures forall e :: e in Live(es, c) <==> e in es && e.at > c
    ensures Increasing(es) ==> Increasing(Live(es, c))
  {
    if es == [] {
    } else {
      var init, last := es[..|es| - 1], es[|es| - 1];
      LiveContents(init, c);
      assert es == init + [last];
      if Increasing(es) {
        forall i | 0 <= i < |Live(init, c)| ensures Live(init, c)[i].id < last.id {
          assert Live(init, c)[i] in init;
        }
      }
    }
  }

  lemma PruneAgrees(es: seq<Entry>, h: seq<Grant>, cutoff: int, c: int)
    requires SpendAgrees(es, h, cutoff) && c >= cutoff
    ensures SpendAgrees(Live(es, c), h, c)
  {
    LiveContents(es, c);
    forall k | Unrefunded(h, k, c) ensures EntryFor(h, k) in Live(es, c) {
      assert Unrefunded(h, k, cutoff);
    }
  }

  lemma GrantAgrees(es: seq<Entry>, h: seq<Grant>, cutoff: int, g: Grant)
    requires SpendAgrees(es, h, cutoff) && g.spend.Some?
    ensures SpendAgrees(es + [Entry(g.at, g.spend.value, |h| + 1)], h + [g], cutoff)
  {
    var es', h' := es + [Entry(g.at, g.spend.value, |h| + 1)], h + [g];
    assert forall i :: 0 <= i < |es| ==> IsGrant(es[i], h);
    forall e | e in es' ensures IsGrant(e, h') {
      if e in es { assert IsGrant(e, h); }
    }
    forall k | Unrefunded(h', k, cutoff) ensures EntryFor(h', k) in es' {
      if k < |h| { assert Unrefunded(h, k, cutoff) && EntryFor(h, k) == EntryFor(h', k); }
    }
  }

  /** Splicing out the entry of one token leaves exactly the entries of the others, in their order. */
  lemma Released(es: seq<Entry>, token: int)
    requires DistinctIds(es)
    ensures DistinctIds(Remaining(es, token)) && (Increasing(es) ==> Increasing(Remaining(es, token)))
    ensures forall e :: e in Remaining(es, token) <==> e in es && e.id != token
  {
    var i, left := Find(es, token), Remaining(es, token);
    if i < |es| {
      assert forall j :: 0 <= j < |left| ==> left[j] == es[if j < i then j else j + 1];
      forall e | e in es && e.id != token ensures e in left {
        var j :| 0 <= j < |es| && es[j] == e;
        assert left[if j < i then j else j - 1] == e;
      }
    } else {
      assert forall e :: e in es ==> exists j :: 0 <= j < |es| && es[j] == e;
    }
  }

  function Unspend(h: seq<Grant>, token: int): (r: seq<Grant>)
    ensures |r| == |h|
    ensures forall k :: 0 <= k < |h| ==> r[k] == if k == token - 1 then h[k].(spend := None) else h[k]
  {
    if 1 <= token <= |h| then h[token - 1 := h[token - 1].(spend := None)] else h
  }

  lemma UnspendAgrees(es: seq<Entry>, left: seq<Entry>, h: seq<Grant>, cutoff: int, token: int)
    requires SpendAgrees(es, h, cutoff) && Increasing(left)
    requires forall e :: e in left <==> e in es && e.id != token
    ensures SpendAgrees(left, Unspend(h, token), cutoff)
  {
    hide Unspend, Increasing;
    var h' := Unspend(h, token);
    forall e | e in left ensures IsGrant(e, h') {
      assert IsGrant(e, h);
    }
    forall k | Unrefunded(h', k, cutoff) ensures EntryFor(h', k) in left {
      assert Unrefunded(h, k, cutoff) && EntryFor(h, k) == EntryFor(h', k);
    }
  }

  lemma InOrder(es: seq<Entry>, h: seq<Grant>, cutoff: int)
    requires SpendAgrees(es, h, cutoff)
    ensures Increasing(es) && DistinctIds(es)
  {
  }

  lemma RefundAgrees(es: seq<Entry>, h: seq<Grant>, cutoff: int, token: int)
    requires SpendAgrees(es, h, cutoff)
    ensures SpendAgrees(Remaining(es, token), Unspend(h, token), cutoff)
  {
    hide SpendAgrees, Increasing, DistinctIds, Remaining, Unspend;
    InOrder(es, h, cutoff);
    Released(es, token);
    UnspendAgrees(es, Remaining(es, token), h, cutoff, token);
  }

  function Adjusted(e: Entry, token: int, stroops: int): Entry {
    if e.id == token then e.(stroops := stroops) else e
  }

  function Respend(h: seq<Grant>, token: int, stroops: int): (r: seq<Grant>)
    ensures |r| == |h|
    ensures forall k :: 0 <= k < |h| ==>
              r[k] == if k == token - 1 && h[k].spend.Some? then h[k].(spend := Some(stroops)) else h[k]
  {
    if 1 <= token <= |h| && h[token - 1].spend.Some?
    then h[token - 1 := h[token - 1].(spend := Some(stroops))] else h
  }

  lemma RespendAgrees(es: seq<Entry>, es': seq<Entry>, h: seq<Grant>, cutoff: int, token: int, stroops: int)
    requires SpendAgrees(es, h, cutoff)
    requires |es'| == |es| && forall i :: 0 <= i < |es| ==> es'[i] == Adjusted(es[i], token, stroops)
    ensures SpendAgrees(es', Respend(h, token, stroops), cutoff)
  {
    hide Respend;
    var h' := Respend(h, token, stroops);
    forall e | e in es' ensures IsGrant(e, h') {
      var i :| 0 <= i < |es'| && es'[i] == e;
      assert IsGrant(es[i], h);
    }
    forall k | Unrefunded(h', k, cutoff) ensures EntryFor(h', k) in es' {
      assert Unrefunded(h, k, cutoff);
      var i :| 0 <= i < |es| && es[i] == EntryFor(h, k);
      assert es'[i] == EntryFor(h', k);
    }
  }

  lemma AdjustedInPlace(es: seq<Entry>, token: int, stroops: int)
    requires DistinctIds(es)
    ensures var i := Find(es, token);
            var es' := if i < |es| then es[i := es[i].(stroops := stroops)] else es;
            |es'| == |es| && forall j :: 0 <= j < |es| ==> es'[j] == Adjusted(es[j], token, stroops)
  {
  }

  lemma AdjustAgrees(es: seq<Entry>, h: seq<Grant>, cutoff: int, token: int, stroops: int)
    requires SpendAgrees(es, h, cutoff)
    ensures var i := Find(es, token);
            var known := 1 <= token <= |h| && h[token - 1].spend.Some?;
            var h' := if known then h[token - 1 := h[token - 1].(spend := Some(stroops))] else h;
            SpendAgrees(if i < |es| then es[i := es[i].(stroops := stroops)] else es, h', cutoff)
  {
    hide SpendAgrees, Increasing, DistinctIds;
    var i := Find(es, token);
    InOrder(es, h, cutoff);
    AdjustedInPlace(es, token, stroops);
    RespendAgrees(es, if i < |es| then es[i := es[i].(stroops := stroops)] else es, h, cutoff, token, stroops);
  }
}
