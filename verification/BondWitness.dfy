/**
 Runs that show the escrow's bounds cannot be improved and its hypotheses cannot be dropped: 125 disputes of one payment
 do happen, at ledger time 0 there is no bound at all, and a claim registered before its listing outlives a withdrawal.
 */
module BondWitness {
  import opened Basics
  import opened Windows
  import opened Tokens
  import opened BondEscrow
  import opened BondGate
  import opened BondRuns

  const GENESIS: Balances := map[("token", "seller") := 1]
  const ZERO16: Bytes := [0, 0, 0, 0, 0, 0, 0, 0, 0, 0, 0, 0, 0, 0, 0, 0]
  const ZERO32: Bytes32 := ZERO16 + ZERO16
  const SIG: Bytes64 := ZERO32 + ZERO32

  function Everyone(now: U64): Context {
    Context(now, {"admin", "payer", "seller"}, true)
  }

  /** A host whose own address signs nothing here and which accepts the one signature used. */
  ghost predicate Lenient(h: Host) {
    h.self !in {"admin", "payer", "seller"} && forall m: Bytes :: h.ed25519Verify(ZERO32, m, SIG)
  }

  /** A bonded listing with a delivery key, and one settlement registered under it at `t`. */
  function Setup(t: U64): seq<Call> {
    [Call(Everyone(t), OpInitialize("admin")),
     Call(Everyone(t), OpDeposit("seller", [], "token", 1)),
     Call(Everyone(t), OpSetKey("seller", [], ZERO32)),
     Call(Everyone(t), OpRegister(ZERO32, "payer", "seller", [], 1))]
  }

  function File(t: U64): Call {
    Call(Everyone(t), OpFile("payer", ZERO32))
  }

  function Answer(t: U64): Call {
    Call(Everyone(t), OpReceipt(ZERO32, ZERO32, 0, SIG))
  }

  /** A dispute filed and answered by receipt at each of `times`. */
  function Rounds(start: U64, times: seq<U64>): seq<Call> {
    if times == [] then Setup(start)
    else
      var last := times[|times| - 1];
      Rounds(start, times[..|times| - 1]) + [File(last), Answer(last)]
  }

  /** The filing log after filings at `times`, if the limiter admits them all. */
  function LogAfter(times: seq<U64>): Option<seq<U64>> {
    if times == [] then Some([])
    else
      var before := LogAfter(times[..|times| - 1]);
      if before.None? then None else RateLimit(before.value, times[|times| - 1])
  }

  ghost predicate Ready(h: Host, s: State, deadline: U64) {
    && ZERO32 in s.settlements && s.settlements[ZERO32] == Settlement("payer", "seller", h.sha256([]), 1, deadline)
    && h.sha256([]) in s.listings
    && s.listings[h.sha256([])].deliveryPubkey == Some(ZERO32) && s.listings[h.sha256([])].openDisputeCount == 0
    && ZERO32 !in s.disputes
  }

  lemma RoundSucceeds(h: Host, s: State, t: U64, deadline: U64)
    requires Lenient(h) && Ready(h, s, deadline) && t <= deadline && t < U64_MAX
    requires RateLimit(LogOf(s, "payer"), t).Some?
    ensures var a := Step(h, s, File(t)); var b := Step(h, a.state, Answer(t));
            && a.outcome.Done? && b.outcome.Done? && Ready(h, b.state, deadline)
            && LogOf(b.state, "payer") == RateLimit(LogOf(s, "payer"), t).value
  {
    var a := Step(h, s, File(t));
    assert a.outcome.Done?;
    assert a.state.disputes[ZERO32] == Dispute("payer", t, h.sha256([]));
  }

  lemma SetupSucceeds(h: Host, t: U64)
    requires Lenient(h)
    ensures Ready(h, Exec(h, GENESIS, Setup(t)), SatAdd(t, DISPUTE_WINDOW_SECONDS))
    ensures LogOf(Exec(h, GENESIS, Setup(t)), "payer") == []
    ensures FilingsFor(h, GENESIS, Setup(t), ZERO32) == []
  {
    var run := Setup(t);
    var s0 := Deployed(GENESIS);
    var s1 := Step(h, s0, run[0]).state;
    var s2 := Step(h, s1, run[1]).state;
    assert h.sha256([]) in s2.listings && s2.listings[h.sha256([])].seller == "seller";
    var s3 := Step(h, s2, run[2]).state;
    var s4 := Step(h, s3, run[3]).state;
    assert run[..4] == run && run[..3][..2] == run[..2] && run[..2][..1] == run[..1] && run[..1][..0] == [];
    assert Exec(h, GENESIS, run[..0]) == s0;
    assert Exec(h, GENESIS, run[..1]) == s1;
    assert Exec(h, GENESIS, run[..2]) == s2;
    assert run[..3][..2] == run[..2] && Exec(h, GENESIS, run[..3]) == s3;
    assert FilingsFor(h, GENESIS, run[..0], ZERO32) == [];
    assert FilingsFor(h, GENESIS, run[..1], ZERO32) == [];
    assert FilingsFor(h, GENESIS, run[..2], ZERO32) == [];
    assert FilingsFor(h, GENESIS, run[..3], ZERO32) == [];
  }

  /** Any admitted filing times inside the claim window make a run in which every one of the filings succeeds. */
  lemma {:induction false} RoundsSucceed(h: Host, start: U64, times: seq<U64>)
    requires Lenient(h) && LogAfter(times).Some?
    requires forall i :: 0 <= i < |times| ==> times[i] <= SatAdd(start, DISPUTE_WINDOW_SECONDS) && times[i] < U64_MAX
    ensures var s := Exec(h, GENESIS, Rounds(start, times));
            Ready(h, s, SatAdd(start, DISPUTE_WINDOW_SECONDS)) && LogOf(s, "payer") == LogAfter(times).value
    ensures FilingsFor(h, GENESIS, Rounds(start, times), ZERO32) == times
  {
    hide Step;
    if times == [] {
      SetupSucceeds(h, start);
    } else {
      var init, t := times[..|times| - 1], times[|times| - 1];
      RoundsSucceed(h, start, init);
      var run := Rounds(start, init);
      RoundSucceeds(h, Exec(h, GENESIS, run), t, SatAdd(start, DISPUTE_WINDOW_SECONDS));
      var filed := run + [File(t)];
      assert filed[..|filed| - 1] == run;
      var answered := filed + [Answer(t)];
      assert answered[..|answered| - 1] == filed;
      assert answered == Rounds(start, times);
      assert EndsWithFiling(h, GENESIS, filed);
      assert FilingsFor(h, GENESIS, filed, ZERO32) == init + [t as int];
      assert times == init + [t];
    }
  }

  lemma {:induction false} RoundsAreValid(h: Host, start: U64, times: seq<U64>)
    requires Lenient(h)
    requires forall i, j :: 0 <= i <= j < |times| ==> start <= times[i] <= times[j]
    ensures ValidRun(h, Rounds(start, times))
    ensures Now(Rounds(start, times)) == if times == [] then start else times[|times| - 1]
  {
    if times == [] {
    } else {
      var init, last := times[..|times| - 1], times[|times| - 1];
      RoundsAreValid(h, start, init);
      assert forall i :: 0 <= i < |init| ==> init[i] == times[i];
      RoundIsValid(h, Rounds(start, init), last);
    }
  }

  lemma RoundIsValid(h: Host, run: seq<Call>, last: U64)
    requires Lenient(h) && ValidRun(h, run) && run != [] && Now(run) <= last
    ensures ValidRun(h, run + [File(last), Answer(last)]) && Now(run + [File(last), Answer(last)]) == last
  {
    assert forall i :: 0 <= i < |run| ==> run[i].ctx.now <= run[|run| - 1].ctx.now;
  }

  // ---- The bound is reached ----

  /** Five filings in each hour: the time of filing `j`. */
  function BusyTime(j: nat): U64
    requires j < MOST_FILINGS
  {
    1 + 3600 * (j / 5)
  }

  function BusyTimes(n: nat): (ts: seq<U64>)
    requires n <= MOST_FILINGS
    ensures |ts| == n && forall j :: 0 <= j < n ==> ts[j] == BusyTime(j)
  {
    if n == 0 then [] else BusyTimes(n - 1) + [BusyTime(n - 1)]
  }

  lemma {:induction false} AfterConstant(ts: seq<U64>, x: U64, cutoff: int)
    requires forall i :: 0 <= i < |ts| ==> ts[i] == x
    ensures After(ts, cutoff) == if x > cutoff then ts else []
  {
    if ts == [] {
    } else {
      AfterConstant(ts[..|ts| - 1], x, cutoff);
      assert ts == ts[..|ts| - 1] + [x];
    }
  }

  lemma NextBusyTime(j: nat)
    requires 0 < j < MOST_FILINGS
    ensures if j % 5 == 0 then BusyTime(j) == BusyTime(j - 1) + 3600 && (j - 1) % 5 == 4
            else BusyTime(j) == BusyTime(j - 1) && (j - 1) % 5 + 1 == j % 5
  {
  }

  /** The log right after filing `j`: just the current hour's filings. */
  ghost predicate HoldsTheHour(log: seq<U64>, j: nat)
    requires j < MOST_FILINGS
  {
    |log| == j % 5 + 1 && forall i :: 0 <= i < |log| ==> log[i] == BusyTime(j)
  }

  lemma BusyLog(log: seq<U64>, j: nat)
    requires 0 < j < MOST_FILINGS && HoldsTheHour(log, j - 1)
    ensures RateLimit(log, BusyTime(j)).Some? && HoldsTheHour(RateLimit(log, BusyTime(j)).value, j)
  {
    hide After;
    NextBusyTime(j);
    AfterConstant(log, BusyTime(j - 1), SatSub(BusyTime(j), 3600));
  }

  lemma FirstLog(t: U64)
    ensures RateLimit([], t) == Some([t])
  {
    assert After([], SatSub(t, 3600)) + [t] == [t];
  }

  lemma LogAfterOneMore(ts: seq<U64>, t: U64)
    ensures LogAfter(ts + [t]) == if LogAfter(ts).None? then None else RateLimit(LogAfter(ts).value, t)
  {
    assert (ts + [t])[..|ts|] == ts;
  }

  /** The limiter admits this pace. */
  lemma {:induction false} BusyTimesAdmitted(n: nat)
    requires n <= MOST_FILINGS
    ensures LogAfter(BusyTimes(n)).Some? && (n > 0 ==> HoldsTheHour(LogAfter(BusyTimes(n)).value, n - 1))
  {
    if n == 0 {
    } else {
      hide RateLimit, HoldsTheHour, LogAfter, BusyTime;
      var before, t := BusyTimes(n - 1), BusyTime(n - 1);
      BusyTimesAdmitted(n - 1);
      LogAfterOneMore(before, t);
      if n == 1 {
        NoLogYet();
        FirstLog(t);
        FirstHour(t);
      } else {
        BusyLog(LogAfter(before).value, n - 1);
      }
    }
  }

  lemma NoLogYet()
    ensures LogAfter([]) == Some([])
  {
  }

  lemma FirstHour(t: U64)
    ensures t == BusyTime(0) ==> HoldsTheHour([t], 0)
  {
  }

  lemma BusyTimesOrdered(i: nat, j: nat)
    requires i <= j < MOST_FILINGS
    ensures 1 <= BusyTime(i) <= BusyTime(j) <= 1 + DISPUTE_WINDOW_SECONDS
  {
  }

  function BusyRun(n: nat): seq<Call>
    requires n <= MOST_FILINGS
  {
    Rounds(1, BusyTimes(n))
  }

  /**
   The bound of 125 filings is reached: a payment registered after time 0 is disputed any number of times up to it.
   */
  lemma BoundIsReached(h: Host, n: nat)
    requires Lenient(h) && n <= MOST_FILINGS
    ensures ValidRun(h, BusyRun(n))
    ensures var s := Exec(h, GENESIS, BusyRun(n));
            ZERO32 in s.settlements && s.settlements[ZERO32].claimDeadline > DISPUTE_WINDOW_SECONDS
    ensures |FilingsFor(h, GENESIS, BusyRun(n), ZERO32)| == n
  {
    hide BusyTime, BusyTimes, LogAfter, Rounds, FilingsFor;
    BusyTimesAdmitted(n);
    forall i, j | 0 <= i <= j < n ensures 1 <= BusyTime(i) <= BusyTime(j) <= 1 + DISPUTE_WINDOW_SECONDS {
      BusyTimesOrdered(i, j);
    }
    RoundsSucceed(h, 1, BusyTimes(n));
    RoundsAreValid(h, 1, BusyTimes(n));
  }

  // ---- Time 0 ----

  function Zeros(n: nat): (ts: seq<U64>)
    ensures |ts| == n && forall j :: 0 <= j < n ==> ts[j] == 0
  {
    if n == 0 then [] else Zeros(n - 1) + [0]
  }

  lemma {:induction false} ZerosAdmitted(n: nat)
    ensures LogAfter(Zeros(n)) == Some(if n == 0 then [] else [0])
  {
    if n == 0 {
    } else {
      ZerosAdmitted(n - 1);
      assert Zeros(n)[..n - 1] == Zeros(n - 1);
      TimeZeroIsUnlimited(LogAfter(Zeros(n - 1)).value);
    }
  }

  /** A payment registered at time 0 has no bound: any number of filings succeed in that one instant. */
  lemma NoLimitAtTimeZero(h: Host, n: nat)
    requires Lenient(h)
    ensures ValidRun(h, Rounds(0, Zeros(n)))
    ensures var s := Exec(h, GENESIS, Rounds(0, Zeros(n)));
            ZERO32 in s.settlements && s.settlements[ZERO32].claimDeadline == DISPUTE_WINDOW_SECONDS
    ensures FilingsFor(h, GENESIS, Rounds(0, Zeros(n)), ZERO32) == Zeros(n)
  {
    hide LogAfter, Rounds, FilingsFor, Exec, ValidRun;
    ZerosAdmitted(n);
    RoundsSucceed(h, 0, Zeros(n));
    RoundsAreValid(h, 0, Zeros(n));
  }

  // ---- A claim the gate does not see ----

  function EarlyClaim(): seq<Call> {
    [Call(Everyone(1), OpInitialize("admin")),
     Call(Everyone(1), OpRegister(ZERO32, "payer", "seller", [], 1)),
     Call(Everyone(2), OpDeposit("seller", [], "token", 1)),
     Call(Everyone(2), OpWithdraw("seller", [])),
     Call(Everyone(3), OpFile("payer", ZERO32))]
  }

  /**
   The claim that the gate does not see: a payment registered before the listing's first deposit, and no other after.
   The unlock time was never set, the bond is withdrawn at once, and the payment is still disputed afterwards.
   */
  lemma EarlyClaimOutlivesWithdrawal(h: Host)
    requires Lenient(h)
    ensures ValidRun(h, EarlyClaim())
    ensures Withdraws(h, GENESIS, EarlyClaim(), 3, h.sha256([]))
    ensures var s := Exec(h, GENESIS, EarlyClaim()[..3]);
            && h.sha256([]) in s.listings && s.listings[h.sha256([])].lastClaimWindowEnd == 0
            && ZERO32 in s.settlements && s.settlements[ZERO32].claimDeadline > EarlyClaim()[3].ctx.now
    ensures Step(h, Exec(h, GENESIS, EarlyClaim()[..4]), EarlyClaim()[4]).outcome == Done(0)
  {
    var run := EarlyClaim();
    var s0 := Deployed(GENESIS);
    var s1 := Step(h, s0, run[0]).state;
    var s2 := Step(h, s1, run[1]).state;
    var s3 := Step(h, s2, run[2]).state;
    var s4 := Step(h, s3, run[3]).state;
    assert run[..1][..0] == [] && run[..2][..1] == run[..1] && run[..3][..2] == run[..2] && run[..4][..3] == run[..3];
    assert Exec(h, GENESIS, run[..1][..0]) == s0;
    assert Exec(h, GENESIS, run[..1]) == s1;
    assert Exec(h, GENESIS, run[..2]) == s2;
    assert Exec(h, GENESIS, run[..3]) == s3;
    assert s3.listings[h.sha256([])] == Listing("seller", "token", 1, 0, 0, None);
    assert Exec(h, GENESIS, run[..4]) == s4;
    assert LogOf(s4, "payer") == [];
  }

  // ---- Receipts ----

  lemma {:induction false} BigEndianIsInjective(n: nat, m: nat, width: nat, limit: nat)
    requires n < limit && m < limit && limit == Pow256(width)
    requires BigEndian(n, width) == BigEndian(m, width)
    ensures n == m
  {
    if width == 0 {
    } else {
      BigEndianWidth(n / 256, width - 1);
      BigEndianWidth(m / 256, width - 1);
      var a, b := BigEndian(n, width), BigEndian(m, width);
      assert a[..width - 1] == BigEndian(n / 256, width - 1) && b[..width - 1] == BigEndian(m / 256, width - 1);
      assert a[width - 1] == n % 256 && b[width - 1] == m % 256;
      BigEndianIsInjective(n / 256, m / 256, width - 1, Pow256(width - 1));
    }
  }

  lemma {:induction false} BigEndianWidth(n: nat, width: nat)
    ensures |BigEndian(n, width)| == width
  {
    if width == 0 {
    } else {
      BigEndianWidth(n / 256, width - 1);
    }
  }

  function Pow256(k: nat): nat {
    if k == 0 then 1 else 256 * Pow256(k - 1)
  }

  /** The signed bytes determine the payment, the response and the time: a receipt for one payment fits no other. */
  lemma ReceiptMessageIsInjective(id1: Bytes32, hash1: Bytes32, t1: U64, id2: Bytes32, hash2: Bytes32, t2: U64)
    requires ReceiptMessage(id1, hash1, t1) == ReceiptMessage(id2, hash2, t2)
    ensures id1 == id2 && hash1 == hash2 && t1 == t2
    ensures |ReceiptMessage(id1, hash1, t1)| == 72
  {
    var a, b := ReceiptMessage(id1, hash1, t1), ReceiptMessage(id2, hash2, t2);
    assert id1 == a[..32] && id2 == b[..32];
    assert hash1 == a[32..64] && hash2 == b[32..64];
    assert BigEndian(t1, 8) == a[64..] && BigEndian(t2, 8) == b[64..];
    BigEndianWidth(t1, 8);
    assert Pow256(8) == U64_MAX + 1 by {
      assert Pow256(2) == 0x1_0000;
      assert Pow256(4) == 0x1_0000_0000;
      assert Pow256(6) == 0x1_0000_0000_0000;
    }
    BigEndianIsInjective(t1, t2, 8, Pow256(8));
  }
}
