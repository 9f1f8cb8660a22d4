/** Event times counted in half-open windows (lo, hi], as every rolling limiter of the system does. */
module Windows {

  /** How many of `ts` lie in (lo, hi]. */
  function CountIn(ts: seq<int>, lo: int, hi: int): nat {
    if ts == [] then 0
    else
      var last := ts[|ts| - 1];
      CountIn(ts[..|ts| - 1], lo, hi) + if lo < last <= hi then 1 else 0
  }

  /** The times after `cutoff`, in their original order. */
  function After(ts: seq<int>, cutoff: int): seq<int> {
    if ts == [] then []
    else
      var last := ts[|ts| - 1];
      After(ts[..|ts| - 1], cutoff) + if last > cutoff then [last] else []
  }

  ghost predicate AllIn(ts: seq<int>, lo: int, hi: int) {
    forall i :: 0 <= i < |ts| ==> lo <= ts[i] <= hi
  }

  /** Events in the window of length `w` that ends at `t`. */
  function InWindow(ts: seq<int>, t: int, w: int): nat {
    CountIn(ts, t - w, t)
  }

  /** At most `max` events in every window of length `w`. */
  ghost predicate Limited(ts: seq<int>, w: int, max: int) {
    forall t :: InWindow(ts, t, w) <= max
  }

  lemma Snoc(ts: seq<int>, x: int, lo: int, hi: int)
    ensures CountIn(ts + [x], lo, hi) == CountIn(ts, lo, hi) + if lo < x <= hi then 1 else 0
    ensures After(ts + [x], lo) == After(ts, lo) + if x > lo then [x] else []
  {
    assert (ts + [x])[..|ts|] == ts;
  }

  lemma AfterContents(ts: seq<int>, cutoff: int, lo: int, hi: int)
    requires AllIn(ts, lo, hi)
    ensures AllIn(After(ts, cutoff), lo, hi)
    ensures forall i :: 0 <= i < |After(ts, cutoff)| ==> After(ts, cutoff)[i] > cutoff
    ensures |After(ts, cutoff)| == CountIn(ts, cutoff, hi)
    ensures cutoff < lo ==> After(ts, cutoff) == ts
  {
    AfterKeeps(ts, cutoff, lo, hi);
    AfterCount(ts, cutoff, hi);
    if cutoff < lo { NoneBefore(ts, cutoff); }
  }

  lemma {:induction false} AfterKeeps(ts: seq<int>, cutoff: int, lo: int, hi: int)
    requires AllIn(ts, lo, hi)
    ensures AllIn(After(ts, cutoff), lo, hi)
    ensures forall i :: 0 <= i < |After(ts, cutoff)| ==> After(ts, cutoff)[i] > cutoff
  {
    if ts == [] {
    } else {
      AfterKeeps(ts[..|ts| - 1], cutoff, lo, hi);
    }
  }

  lemma {:induction false} NoneBefore(ts: seq<int>, cutoff: int)
    requires forall i :: 0 <= i < |ts| ==> cutoff < ts[i]
    ensures After(ts, cutoff) == ts
  {
    if ts == [] {
    } else {
      NoneBefore(ts[..|ts| - 1], cutoff);
    }
  }

  lemma {:induction false} AfterCount(ts: seq<int>, cutoff: int, hi: int)
    requires forall i :: 0 <= i < |ts| ==> ts[i] <= hi
    ensures |After(ts, cutoff)| == CountIn(ts, cutoff, hi)
  {
    if ts == [] {
    } else {
      AfterCount(ts[..|ts| - 1], cutoff, hi);
    }
  }

  /** Pruning at an earlier cutoff never loses what a later cutoff keeps. */
  lemma {:induction false} AfterTwice(ts: seq<int>, c: int, d: int)
    requires c <= d
    ensures After(After(ts, c), d) == After(ts, d)
  {
    if ts == [] {
    } else {
      var init, last := ts[..|ts| - 1], ts[|ts| - 1];
      AfterTwice(init, c, d);
      if last > c {
        Snoc(After(init, c), last, d, d);
      } else {
        assert After(ts, c) == After(init, c);
      }
    }
  }

  lemma {:induction false} CountSplit(ts: seq<int>, lo: int, mid: int, hi: int)
    requires lo <= mid <= hi
    ensures CountIn(ts, lo, hi) == CountIn(ts, lo, mid) + CountIn(ts, mid, hi)
  {
    if ts == [] {
    } else {
      CountSplit(ts[..|ts| - 1], lo, mid, hi);
    }
  }

  lemma {:induction false} CountAll(ts: seq<int>, lo: int, hi: int)
    requires forall i :: 0 <= i < |ts| ==> lo < ts[i] <= hi
    ensures CountIn(ts, lo, hi) == |ts|
  {
    if ts == [] {
    } else {
      CountAll(ts[..|ts| - 1], lo, hi);
    }
  }

  lemma {:induction false} CountNone(ts: seq<int>, lo: int, hi: int)
    requires forall i :: 0 <= i < |ts| ==> !(lo < ts[i] <= hi)
    ensures CountIn(ts, lo, hi) == 0
  {
    if ts == [] {
    } else {
      CountNone(ts[..|ts| - 1], lo, hi);
    }
  }

  /** One more event at `now` keeps a limiter's promise when the window ending at `now` has room. */
  lemma LimitedSnoc(ts: seq<int>, now: int, w: int, max: int)
    requires Limited(ts, w, max) && w > 0
    requires forall i :: 0 <= i < |ts| ==> ts[i] <= now
    requires InWindow(ts, now, w) < max
    ensures Limited(ts + [now], w, max)
  {
    forall t ensures InWindow(ts + [now], t, w) <= max {
      assert InWindow(ts, t, w) <= max;
      Snoc(ts, now, t - w, t);
      if t - w < now <= t {
        CountSplit(ts, now - w, t - w, now);
        CountSplit(ts, t - w, now, t);
        CountNone(ts, now, t);
      }
    }
  }

  // ---- Windows that start no earlier than time 0 ----

  function WindowStart(t: nat, w: nat): nat {
    if w <= t then t - w else 0
  }

  /** At most `max` events after time 0 in every window of length `w`. */
  ghost predicate LimitedFromZero(ts: seq<int>, w: nat, max: int) {
    forall t: nat :: CountIn(ts, WindowStart(t, w), t) <= max
  }

  lemma NoneCounted()
    ensures forall lo, hi :: CountIn([], lo, hi) == 0
  {
  }

  /** A wider window counts no less. */
  lemma {:induction false} CountMonotone(ts: seq<int>, lo: int, hi: int, lo': int, hi': int)
    requires forall i :: 0 <= i < |ts| ==> lo < ts[i] <= hi ==> lo' < ts[i] <= hi'
    ensures CountIn(ts, lo, hi) <= CountIn(ts, lo', hi')
  {
    if ts == [] {
    } else {
      CountMonotone(ts[..|ts| - 1], lo, hi, lo', hi');
    }
  }

  lemma LimitedFromZeroSnoc(ts: seq<int>, now: nat, w: nat, max: int)
    requires LimitedFromZero(ts, w, max) && forall i :: 0 <= i < |ts| ==> ts[i] <= now
    requires CountIn(ts, WindowStart(now, w), now) < max
    ensures LimitedFromZero(ts + [now], w, max)
  {
    forall t: nat ensures CountIn(ts + [now], WindowStart(t, w), t) <= max {
      assert CountIn(ts, WindowStart(t, w), t) <= max;
      Snoc(ts, now, WindowStart(t, w), t);
      if WindowStart(t, w) < now <= t { CountMonotone(ts, WindowStart(t, w), t, WindowStart(now, w), now); }
    }
  }

  /** A limit from time 0 on is a limit on every window exactly when the first window that holds time 0 keeps it too. */
  lemma LimitedExactly(ts: seq<int>, hi: int, w: nat, max: int)
    requires AllIn(ts, 0, hi) && LimitedFromZero(ts, w, max) && w > 0
    ensures Limited(ts, w, max) <==> InWindow(ts, w - 1, w) <= max
  {
    if InWindow(ts, w - 1, w) <= max {
      forall t ensures InWindow(ts, t, w) <= max {
        if t >= w {
          assert CountIn(ts, WindowStart(t, w), t) <= max;
        } else {
          CountMonotone(ts, t - w, t, -1, w - 1);
        }
      }
    }
  }

  /** Events in [a, a + k*w], all after time 0, fit in k + 1 windows. */
  lemma {:induction false} CoveredByWindows(ts: seq<int>, a: nat, w: nat, k: nat, max: nat)
    requires w > 0 && LimitedFromZero(ts, w, max)
    ensures CountIn(ts, WindowStart(a, w), a + k * w) <= max * (k + 1)
    decreases k
  {
    if k == 0 {
      assert CountIn(ts, WindowStart(a, w), a) <= max;
    } else {
      CoveredByWindows(ts, a, w, k - 1, max);
      var mid, top := a + (k - 1) * w, a + k * w;
      assert (k - 1) * w + w == k * w && 0 <= (k - 1) * w;
      CountSplit(ts, WindowStart(a, w), mid, top);
      assert WindowStart(top, w) == mid && CountIn(ts, WindowStart(top, w), top) <= max;
      assert max * (k + 1) == max * k + max;
    }
  }

  lemma {:induction false} CountSome(ts: seq<int>, i: nat, lo: int, hi: int)
    requires i < |ts| && lo < ts[i] <= hi
    ensures CountIn(ts, lo, hi) > 0
  {
    if i == |ts| - 1 {
    } else {
      CountSome(ts[..|ts| - 1], i, lo, hi);
    }
  }
}
