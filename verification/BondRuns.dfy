/**
 Facts about whole runs of the escrow: where the money went, how often a payer or a payment can be disputed, and how
 each dispute ends. A history is read off the run itself, never off the pruned state.
 */
module BondRuns {
  import opened Basics
  import opened Windows
  import opened Tokens
  import opened BondEscrow
  import opened BondInvariant

  // ---- Money ----

  /** What moved in one token: into bonds, back to sellers, to disputing payers, and into the contract as gifts. */
  datatype Flows = Flows(deposited: int, withdrawn: int, slashed: int, slashedToSelf: int, gifted: int)

  const NO_FLOWS: Flows := Flows(0, 0, 0, 0, 0)

  /** What one call moved in `token`. */
  ghost function StepFlow(h: Host, s: State, call: Call, token: Address): Flows {
    var outcome := Step(h, s, call).outcome;
    if !outcome.Done? then NO_FLOWS
    else match call.op
      case OpDeposit(_, _, tok, amount) => if tok == token then NO_FLOWS.(deposited := amount) else NO_FLOWS
      case OpWithdraw(_, key) =>
        if h.sha256(key) in s.listings && s.listings[h.sha256(key)].token == token
        then NO_FLOWS.(withdrawn := outcome.value) else NO_FLOWS
      case OpFinalize(id) =>
        if id in s.disputes && id in s.settlements && s.disputes[id].resourceKeyHash in s.listings
           && s.listings[s.disputes[id].resourceKeyHash].token == token
        then NO_FLOWS.(slashed := outcome.value,
                    slashedToSelf := if s.settlements[id].payer == h.self then outcome.value else 0)
        else NO_FLOWS
      case OpOutside(tok, _, to, moved) =>
        if tok == token && to == h.self then NO_FLOWS.(gifted := moved) else NO_FLOWS
      case _ => NO_FLOWS
  }

  ghost function FlowsOf(h: Host, genesis: Balances, run: seq<Call>, token: Address): Flows {
    if run == [] then NO_FLOWS
    else
      var prefix := run[..|run| - 1];
      var f := FlowsOf(h, genesis, prefix, token);
      var d := StepFlow(h, Exec(h, genesis, prefix), run[|run| - 1], token);
      Flows(f.deposited + d.deposited, f.withdrawn + d.withdrawn, f.slashed + d.slashed,
            f.slashedToSelf + d.slashedToSelf, f.gifted + d.gifted)
  }

  lemma WithdrawMoney(h: Host, s: State, c: Context, seller: Address, key: Bytes, token: Address)
    requires h.self !in c.signers && Withdraw(h, s, c, seller, key).outcome.Done?
    ensures var r := Withdraw(h, s, c, seller, key);
            var t, k, v := r.state, h.sha256(key), r.outcome.value;
            && k in s.listings
            && var out := if s.listings[k].token == token then v else 0;
               && Bonded(t, token) == Bonded(s, token) - out
               && Balance(t.balances, token, h.self) == Balance(s.balances, token, h.self) - out
  {
    BondedUpdate(s, Withdraw(h, s, c, seller, key).state, h.sha256(key), token);
  }

  lemma FinalizeMoney(h: Host, s: State, c: Context, id: Bytes32, token: Address)
    requires CountsAreExact(s) && SettlementsAreSound(s, c.now) && Finalize(h, s, c, id).outcome.Done?
    ensures id in s.disputes && id in s.settlements && s.disputes[id].resourceKeyHash in s.listings
    ensures var r := Finalize(h, s, c, id);
            var t, k, v := r.state, s.disputes[id].resourceKeyHash, r.outcome.value;
            var out := if s.listings[k].token == token then v else 0;
            && 0 <= v <= s.settlements[id].amount
            && Bonded(t, token) == Bonded(s, token) - out
            && Balance(t.balances, token, h.self) == Balance(s.balances, token, h.self) - out
                                                     + if s.settlements[id].payer == h.self then out else 0
  {
    BondedUpdate(s, Finalize(h, s, c, id).state, s.disputes[id].resourceKeyHash, token);
  }

  lemma DepositMoney(h: Host, s: State, c: Context, seller: Address, key: Bytes, tok: Address, amount: I128,
                     token: Address)
    requires h.self !in c.signers && Deposit(h, s, c, seller, key, tok, amount).outcome.Done?
    ensures var t, paid := Deposit(h, s, c, seller, key, tok, amount).state, if tok == token then amount else 0;
            && Bonded(t, token) == Bonded(s, token) + paid
            && Balance(t.balances, token, h.self) == Balance(s.balances, token, h.self) + paid
  {
    BondedUpdate(s, Deposit(h, s, c, seller, key, tok, amount).state, h.sha256(key), token);
  }

  /** An error return or a trap changes nothing. */
  lemma FailureChangesNothing(h: Host, s: State, call: Call)
    requires !Step(h, s, call).outcome.Done?
    ensures Step(h, s, call).state == s
  {
  }

  lemma SameBonds(s: State, t: State, token: Address)
    ensures t.listings == s.listings ==> Bonded(t, token) == Bonded(s, token)
  {
  }

  /** The calls that move no money leave every bond and every balance as they were. */
  lemma QuietCall(h: Host, s: State, call: Call, token: Address)
    requires var op := call.op; op.OpInitialize? || op.OpRegister? || op.OpFile? || op.OpSetKey? || op.OpReceipt?
    ensures Bonded(Step(h, s, call).state, token) == Bonded(s, token)
    ensures Step(h, s, call).state.balances == s.balances
  {
    hide Bonded;
    var t := Step(h, s, call).state;
    SameBonds(s, t, token);
    if Step(h, s, call).outcome.Done? {
      match call.op
      case OpRegister(_, _, _, key, _) => if h.sha256(key) in s.listings { BondedUpdate(s, t, h.sha256(key), token); }
      case OpFile(_, id) => BondedUpdate(s, t, s.settlements[id].resourceKeyHash, token);
      case OpSetKey(_, key, _) => BondedUpdate(s, t, h.sha256(key), token);
      case OpReceipt(id, _, _, _) => BondedUpdate(s, t, s.disputes[id].resourceKeyHash, token);
      case _ =>
    }
  }

  lemma OutsideMoney(h: Host, s: State, call: Call, token: Address)
    requires h.self !in call.ctx.signers && call.op.OpOutside?
    ensures var t, f := Step(h, s, call).state, StepFlow(h, s, call, token);
            && Bonded(t, token) == Bonded(s, token) && f.deposited == f.withdrawn == f.slashed == f.slashedToSelf == 0
            && Balance(t.balances, token, h.self) == Balance(s.balances, token, h.self) + f.gifted
  {
  }

  /** One call changes the bonds and the held tokens by exactly what it moved. */
  lemma StepMoney(h: Host, s: State, call: Call, token: Address)
    requires h.self !in call.ctx.signers && CountsAreExact(s) && SettlementsAreSound(s, call.ctx.now)
    ensures var t, f := Step(h, s, call).state, StepFlow(h, s, call, token);
            && Bonded(t, token) == Bonded(s, token) + f.deposited - f.withdrawn - f.slashed
            && Balance(t.balances, token, h.self) == Balance(s.balances, token, h.self)
               + f.deposited - f.withdrawn - f.slashed + f.slashedToSelf + f.gifted
  {
    hide RegisterSettlement, FileDispute, SetDeliveryKey, PostReceipt, Initialize, Deposit, Withdraw, Finalize,
         CountsAreExact, SettlementsAreSound, OutsideTransfer, Bonded;
    var c := call.ctx;
    if !Step(h, s, call).outcome.Done? { FailureChangesNothing(h, s, call); }
    match call.op
    case OpDeposit(seller, key, tok, amount) =>
      if Step(h, s, call).outcome.Done? { DepositMoney(h, s, c, seller, key, tok, amount, token); }
    case OpWithdraw(seller, key) => if Step(h, s, call).outcome.Done? { WithdrawMoney(h, s, c, seller, key, token); }
    case OpFinalize(id) => if Step(h, s, call).outcome.Done? { FinalizeMoney(h, s, c, id, token); }
    case OpOutside(_, _, _, _) => OutsideMoney(h, s, call, token);
    case _ => QuietCall(h, s, call, token);
  }

  /**
   Solvency. In every run and for every token: what was deposited is what was withdrawn, slashed or is still bonded;
   and what the contract holds is what it held at first, plus gifts, plus slashes paid to itself, plus all bonds.
   */
  lemma {:induction false} Solvency(h: Host, genesis: Balances, run: seq<Call>, token: Address)
    requires ValidRun(h, run)
    ensures var s, f := Exec(h, genesis, run), FlowsOf(h, genesis, run, token);
            && f.deposited == f.withdrawn + f.slashed + Bonded(s, token)
            && Balance(s.balances, token, h.self)
               == Balance(genesis, token, h.self) + f.gifted + f.slashedToSelf + Bonded(s, token)
  {
    hide Step;
    if run == [] {
    } else {
      ValidPrefix(h, run);
      Solvency(h, genesis, run[..|run| - 1], token);
      ReachableInv(h, genesis, run[..|run| - 1]);
      StepMoney(h, Exec(h, genesis, run[..|run| - 1]), run[|run| - 1], token);
    }
  }

  /** In a reachable state a withdrawal or a slash never lacks funds: it traps only unsigned or refused by the token. */
  lemma PayoutsAreFunded(h: Host, genesis: Balances, run: seq<Call>)
    requires run != [] && ValidRun(h, run) && run[|run| - 1].ctx.tokenAccepts
    ensures var call, outcome := run[|run| - 1], LastReply(h, genesis, run).outcome;
            && (call.op.OpWithdraw? ==> (outcome.Trap? <==> call.op.seller !in call.ctx.signers))
            && (call.op.OpFinalize? ==> !outcome.Trap?)
  {
    var prefix, call := run[..|run| - 1], run[|run| - 1];
    ValidPrefix(h, run);
    ReachableInv(h, genesis, prefix);
    var s := Exec(h, genesis, prefix);
    match call.op
    case OpWithdraw(_, key) =>
      if h.sha256(key) in s.listings { BondIsHeld(h, s, h.sha256(key)); }
    case OpFinalize(id) =>
      if id in s.disputes { BondIsHeld(h, s, s.disputes[id].resourceKeyHash); }
    case _ =>
  }

  // ---- Filings and the rate limit ----

  ghost predicate EndsWithFiling(h: Host, genesis: Balances, run: seq<Call>) {
    run != [] && run[|run| - 1].op.OpFile? && LastReply(h, genesis, run).outcome.Done?
  }

  /** The times of every dispute `payer` filed, oldest first; nothing is ever pruned from it. */
  ghost function Filings(h: Host, genesis: Balances, run: seq<Call>, payer: Address): seq<int> {
    if run == [] then []
    else
      var before := Filings(h, genesis, run[..|run| - 1], payer);
      if EndsWithFiling(h, genesis, run) && run[|run| - 1].op.payer == payer then before + [Now(run)] else before
  }

  lemma {:induction false} FilingTimes(h: Host, genesis: Balances, run: seq<Call>, payer: Address)
    requires ValidRun(h, run)
    ensures AllIn(Filings(h, genesis, run, payer), 0, Now(run))
  {
    hide Step;
    if run == [] {
    } else {
      ValidPrefix(h, run);
      FilingTimes(h, genesis, run[..|run| - 1], payer);
    }
  }

  /** What a successful filing has passed. */
  lemma FilingPassed(h: Host, s: State, call: Call)
    requires call.op.OpFile? && Step(h, s, call).outcome.Done?
    ensures var id := call.op.paymentId;
            && id in s.settlements && s.settlements[id].payer == call.op.payer
            && call.ctx.now <= s.settlements[id].claimDeadline
            && RateLimit(LogOf(s, call.op.payer), call.ctx.now).Some?
  {
  }

  /** Only a payer's own filing touches the payer's log. */
  lemma LogChangesOnlyByFiling(h: Host, s: State, call: Call, payer: Address)
    ensures var r := Step(h, s, call);
            LogOf(r.state, payer) ==
              if call.op.OpFile? && call.op.payer == payer && r.outcome.Done?
              then RateLimit(LogOf(s, payer), call.ctx.now).value else LogOf(s, payer)
  {
  }

  /** The pruned log and the full history agree on everything any later call can ask about. */
  lemma {:induction false} LogMatchesHistory(h: Host, genesis: Balances, run: seq<Call>, payer: Address, cutoff: int)
    requires ValidRun(h, run)
    requires cutoff >= 0 && cutoff >= Now(run) - DISPUTE_RATE_LIMIT_WINDOW_SECONDS
    ensures After(LogOf(Exec(h, genesis, run), payer), cutoff) == After(Filings(h, genesis, run, payer), cutoff)
  {
    hide Step;
    if run == [] {
    } else {
      var prefix, call := run[..|run| - 1], run[|run| - 1];
      ValidPrefix(h, run);
      LogMatchesHistory(h, genesis, prefix, payer, cutoff);
      var s := Exec(h, genesis, prefix);
      LogChangesOnlyByFiling(h, s, call, payer);
      if EndsWithFiling(h, genesis, run) && call.op.payer == payer {
        FilingPassed(h, s, call);
        var start := SatSub(call.ctx.now, DISPUTE_RATE_LIMIT_WINDOW_SECONDS);
        AfterTwice(LogOf(s, payer), start, cutoff);
        Snoc(After(LogOf(s, payer), start), call.ctx.now, cutoff, cutoff);
        Snoc(Filings(h, genesis, prefix, payer), call.ctx.now, cutoff, cutoff);
      }
    }
  }

  lemma {:induction false} LogIsBounded(h: Host, genesis: Balances, run: seq<Call>, payer: Address)
    ensures |LogOf(Exec(h, genesis, run), payer)| <= DISPUTE_RATE_LIMIT_MAX
  {
    hide Step;
    if run == [] {
    } else {
      LogIsBounded(h, genesis, run[..|run| - 1], payer);
      var s, call := Exec(h, genesis, run[..|run| - 1]), run[|run| - 1];
      LogChangesOnlyByFiling(h, s, call, payer);
      if call.op.OpFile? && Step(h, s, call).outcome.Done? { FilingPassed(h, s, call); }
    }
  }

  /** What the limiter promises in every run: from time 0 on, at most five filings by one payer in any hour. */
  lemma {:induction false} FilingsAreLimited(h: Host, genesis: Balances, run: seq<Call>, payer: Address)
    requires ValidRun(h, run)
    ensures LimitedFromZero(Filings(h, genesis, run, payer), DISPUTE_RATE_LIMIT_WINDOW_SECONDS, DISPUTE_RATE_LIMIT_MAX)
  {
    hide Step, CountIn, After;
    if run == [] {
      NoneCounted();
    } else {
      var prefix, now := run[..|run| - 1], Now(run);
      ValidPrefix(h, run);
      FilingsAreLimited(h, genesis, prefix, payer);
      if EndsWithFiling(h, genesis, run) && run[|run| - 1].op.payer == payer {
        var past := Filings(h, genesis, prefix, payer);
        FilingPassed(h, Exec(h, genesis, prefix), run[|run| - 1]);
        FilingTimes(h, genesis, prefix, payer);
        var start := SatSub(now, DISPUTE_RATE_LIMIT_WINDOW_SECONDS);
        LogMatchesHistory(h, genesis, prefix, payer, start);
        AfterContents(past, start, 0, now);
        LimitedFromZeroSnoc(past, now, DISPUTE_RATE_LIMIT_WINDOW_SECONDS, DISPUTE_RATE_LIMIT_MAX);
      }
    }
  }

  /**
   Rate limit against the full history, exactly: a payer of a run has at most five filings in every rolling hour
   (t - 3600, t] if and only if there are at most five in the first hour, time 0 included. The only window that can hold
   more is one that reaches back past time 0.
   */
  lemma RateLimitHoldsExactly(h: Host, genesis: Balances, run: seq<Call>, payer: Address)
    requires ValidRun(h, run)
    ensures var w, filings := DISPUTE_RATE_LIMIT_WINDOW_SECONDS, Filings(h, genesis, run, payer);
            Limited(filings, w, DISPUTE_RATE_LIMIT_MAX) <==> InWindow(filings, w - 1, w) <= DISPUTE_RATE_LIMIT_MAX
  {
    FilingsAreLimited(h, genesis, run, payer);
    FilingTimes(h, genesis, run, payer);
    LimitedExactly(Filings(h, genesis, run, payer), Now(run),
                   DISPUTE_RATE_LIMIT_WINDOW_SECONDS, DISPUTE_RATE_LIMIT_MAX);
  }

  /** Exactly when the limiter's pruning counts the rolling window: unless a filing at time 0 is still in it. */
  lemma PruningIsExact(log: seq<U64>, now: U64)
    requires AllIn(log, 0, now)
    ensures |After(log, SatSub(now, DISPUTE_RATE_LIMIT_WINDOW_SECONDS))|
            == InWindow(log, now, DISPUTE_RATE_LIMIT_WINDOW_SECONDS)
            <==> !(0 in log && now < DISPUTE_RATE_LIMIT_WINDOW_SECONDS)
  {
    hide After, CountIn;
    var w := DISPUTE_RATE_LIMIT_WINDOW_SECONDS;
    AfterContents(log, SatSub(now, w), 0, now);
    if now < w {
      CountSplit(log, now - w, 0, now);
      if 0 in log {
        var i :| 0 <= i < |log| && log[i] == 0;
        CountSome(log, i, now - w, 0);
      } else {
        CountNone(log, now - w, 0);
      }
    }
  }

  /** Filings at time 0 are never counted: however many there were, the limiter lets one more through at time 0. */
  lemma TimeZeroIsUnlimited(log: seq<U64>)
    requires forall i :: 0 <= i < |log| ==> log[i] == 0
    ensures RateLimit(log, 0) == Some([0])
  {
    AfterContents(log, 0, 0, 0);
    CountNone(log, 0, 0);
    assert After(log, 0) == [] && [] + [0 as U64] == [0];
  }

  // ---- One payment's disputes ----

  /** The times at which the payment `id` was disputed. */
  ghost function FilingsFor(h: Host, genesis: Balances, run: seq<Call>, id: Bytes32): seq<int> {
    if run == [] then []
    else
      var before := FilingsFor(h, genesis, run[..|run| - 1], id);
      if EndsWithFiling(h, genesis, run) && run[|run| - 1].op.paymentId == id then before + [Now(run)] else before
  }

  ghost predicate EndsWith(h: Host, genesis: Balances, run: seq<Call>, id: Bytes32, bySlash: bool) {
    && run != [] && LastReply(h, genesis, run).outcome.Done?
    && var op := run[|run| - 1].op;
       if bySlash then op.OpFinalize? && op.paymentId == id else op.OpReceipt? && op.paymentId == id
  }

  /** How many disputes of `id` ended by slash, or by receipt. */
  ghost function Endings(h: Host, genesis: Balances, run: seq<Call>, id: Bytes32, bySlash: bool): nat {
    if run == [] then 0
    else Endings(h, genesis, run[..|run| - 1], id, bySlash) + if EndsWith(h, genesis, run, id, bySlash) then 1 else 0
  }

  /** All that was slashed for the payment `id`. */
  ghost function SlashedFor(h: Host, genesis: Balances, run: seq<Call>, id: Bytes32): int {
    if run == [] then 0
    else SlashedFor(h, genesis, run[..|run| - 1], id) +
         if EndsWith(h, genesis, run, id, true) then LastReply(h, genesis, run).outcome.value else 0
  }

  /** A settlement record, once written, never changes; a new one has its claim window open from now. */
  lemma SettlementsArePermanent(h: Host, s: State, call: Call, id: Bytes32)
    ensures var r := Step(h, s, call); var t := r.state;
            if id in s.settlements then id in t.settlements && t.settlements[id] == s.settlements[id]
            else id in t.settlements <==> call.op.OpRegister? && call.op.paymentId == id && r.outcome.Done?
    ensures var t := Step(h, s, call).state;
            id in t.settlements && id !in s.settlements ==>
              && t.settlements[id].claimDeadline == SatAdd(call.ctx.now, DISPUTE_WINDOW_SECONDS)
              && t.settlements[id].resourceKeyHash == h.sha256(call.op.resourceKey)
  {
  }

  /** A listing never disappears, and only a settlement registered under it moves its unlock time. */
  lemma ListingsArePermanent(h: Host, s: State, call: Call, k: Bytes32)
    requires k in s.listings
    ensures var r := Step(h, s, call); var t := r.state;
            && k in t.listings
            && t.listings[k].lastClaimWindowEnd ==
                 if call.op.OpRegister? && h.sha256(call.op.resourceKey) == k && r.outcome.Done?
                 then SatAdd(call.ctx.now, DISPUTE_WINDOW_SECONDS) else s.listings[k].lastClaimWindowEnd
  {
    if Step(h, s, call).outcome.Done? {
      match call.op
      case OpInitialize(_) =>
      case OpRegister(_, _, _, _, _) =>
      case OpDeposit(_, _, _, _) =>
      case OpWithdraw(_, _) =>
      case OpFile(_, _) =>
      case OpSetKey(_, _, _) =>
      case OpReceipt(_, _, _, _) =>
      case OpFinalize(_) =>
      case OpOutside(_, _, _, _) =>
    }
  }

  /** A dispute opens by filing, closes by receipt or slash, and otherwise stays. */
  lemma DisputeComesAndGoes(h: Host, s: State, call: Call, id: Bytes32)
    ensures var r, op := Step(h, s, call), call.op; var t := r.state;
            if r.outcome.Done? && op.OpFile? && op.paymentId == id then id !in s.disputes && id in t.disputes
            else if r.outcome.Done? && (op.OpReceipt? || op.OpFinalize?) && op.paymentId == id
            then id in s.disputes && id !in t.disputes
            else id in s.disputes <==> id in t.disputes
  {
  }

  ghost predicate PaidBy(h: Host, genesis: Balances, run: seq<Call>, id: Bytes32, payer: Address) {
    var settlements := Exec(h, genesis, run).settlements;
    id in settlements ==> settlements[id].payer == payer
  }

  /** One payment's filings are among its payer's. */
  lemma {:induction false} FilingsForAreThePayers(h: Host, genesis: Balances, run: seq<Call>, id: Bytes32,
                                                 payer: Address, lo: int, hi: int)
    requires PaidBy(h, genesis, run, id, payer)
    ensures CountIn(FilingsFor(h, genesis, run, id), lo, hi) <= CountIn(Filings(h, genesis, run, payer), lo, hi)
  {
    hide Step, CountIn;
    if run == [] {
    } else {
      var prefix, call := run[..|run| - 1], run[|run| - 1];
      var s := Exec(h, genesis, prefix);
      SettlementsArePermanent(h, s, call, id);
      FilingsForAreThePayers(h, genesis, prefix, id, payer, lo, hi);
      Snoc(Filings(h, genesis, prefix, payer), call.ctx.now, lo, hi);
      Snoc(FilingsFor(h, genesis, prefix, id), call.ctx.now, lo, hi);
      if EndsWithFiling(h, genesis, run) { FilingPassed(h, s, call); }
    }
  }

  /** One payment's filings lie in its claim window, both ends included. */
  lemma {:induction false} FilingsForInWindow(h: Host, genesis: Balances, run: seq<Call>, id: Bytes32)
    requires ValidRun(h, run)
    ensures var s, f := Exec(h, genesis, run), FilingsFor(h, genesis, run, id);
            if id !in s.settlements then f == []
            else AllIn(f, s.settlements[id].claimDeadline - DISPUTE_WINDOW_SECONDS, s.settlements[id].claimDeadline)
  {
    hide Step;
    if run == [] {
    } else {
      var prefix, call := run[..|run| - 1], run[|run| - 1];
      var s := Exec(h, genesis, prefix);
      ValidPrefix(h, run);
      SettlementsArePermanent(h, s, call, id);
      FilingsForInWindow(h, genesis, prefix, id);
      if EndsWithFiling(h, genesis, run) && call.op.paymentId == id {
        FilingPassed(h, s, call);
        DeadlinesSoFar(h, genesis, prefix, id);
      }
    }
  }

  /** Every filing of a payment ends at most once, by receipt or by slash; while it has not, the dispute is open. */
  lemma {:induction false} FilingsEndOnce(h: Host, genesis: Balances, run: seq<Call>, id: Bytes32)
    ensures |FilingsFor(h, genesis, run, id)| ==
            Endings(h, genesis, run, id, true) + Endings(h, genesis, run, id, false)
            + if id in Exec(h, genesis, run).disputes then 1 else 0
  {
    hide Step;
    if run == [] {
    } else {
      FilingsEndOnce(h, genesis, run[..|run| - 1], id);
      DisputeComesAndGoes(h, Exec(h, genesis, run[..|run| - 1]), run[|run| - 1], id);
    }
  }

  lemma SlashStaysWithinAmount(h: Host, s: State, call: Call)
    requires Inv(h, s, call.ctx.now) && call.op.OpFinalize? && Step(h, s, call).outcome.Done?
    ensures var id, v := call.op.paymentId, Step(h, s, call).outcome.value;
            id in s.settlements && 0 <= v <= s.settlements[id].amount
  {
  }

  lemma {:induction false} SlashesAreCapped(h: Host, genesis: Balances, run: seq<Call>, id: Bytes32, amount: int)
    requires ValidRun(h, run)
    requires id in Exec(h, genesis, run).settlements ==> Exec(h, genesis, run).settlements[id].amount == amount
    requires amount >= 0
    ensures 0 <= SlashedFor(h, genesis, run, id) <= Endings(h, genesis, run, id, true) * amount
  {
    hide Step;
    if run == [] {
    } else {
      var prefix, call := run[..|run| - 1], run[|run| - 1];
      var s := Exec(h, genesis, prefix);
      ValidPrefix(h, run);
      ReachableInv(h, genesis, prefix);
      SettlementsArePermanent(h, s, call, id);
      SlashesAreCapped(h, genesis, prefix, id, amount);
      if EndsWith(h, genesis, run, id, true) {
        SlashStaysWithinAmount(h, s, call);
        var n := Endings(h, genesis, prefix, id, true);
        assert (n + 1) * amount == n * amount + amount;
      }
    }
  }

  const MOST_FILINGS: nat := 125

  /**
   Filing bound. No payment registered after time 0 is ever disputed more than 125 times (five in each of the 25 hours
   that cover its inclusive 24-hour claim window), and all its slashes together are at most 125 times its recorded
   amount.
   */
  lemma FilingBound(h: Host, genesis: Balances, run: seq<Call>, id: Bytes32)
    requires ValidRun(h, run) && id in Exec(h, genesis, run).settlements
    requires Exec(h, genesis, run).settlements[id].claimDeadline > DISPUTE_WINDOW_SECONDS
    ensures |FilingsFor(h, genesis, run, id)| <= MOST_FILINGS
    ensures SlashedFor(h, genesis, run, id) <= MOST_FILINGS * Exec(h, genesis, run).settlements[id].amount
  {
    hide Step, CountIn;
    var s, f := Exec(h, genesis, run), FilingsFor(h, genesis, run, id);
    FilingsForInWindow(h, genesis, run, id);
    var payer, top := s.settlements[id].payer, s.settlements[id].claimDeadline;
    var w, first := DISPUTE_RATE_LIMIT_WINDOW_SECONDS, top - DISPUTE_WINDOW_SECONDS;
    FilingsForAreThePayers(h, genesis, run, id, payer, WindowStart(first, w), top);
    FilingsAreLimited(h, genesis, run, payer);
    CoveredByWindows(Filings(h, genesis, run, payer), first, w, 24, DISPUTE_RATE_LIMIT_MAX);
    CountAll(f, WindowStart(first, w), top);
    FilingsEndOnce(h, genesis, run, id);
    SettlementIsSound(h, genesis, run, id);
    SlashesAreCapped(h, genesis, run, id, s.settlements[id].amount);
    ProductMonotone(Endings(h, genesis, run, id, true), MOST_FILINGS, s.settlements[id].amount);
  }

  /**
   A payment registered at time 0 is unbounded only in that one instant: all its later filings together are at most 120,
   five in each of the 24 hours after it.
   */
  lemma FilingBoundAfterZero(h: Host, genesis: Balances, run: seq<Call>, id: Bytes32)
    requires ValidRun(h, run) && id in Exec(h, genesis, run).settlements
    requires Exec(h, genesis, run).settlements[id].claimDeadline == DISPUTE_WINDOW_SECONDS
    ensures var f := FilingsFor(h, genesis, run, id);
            |f| <= CountIn(f, -1, 0) + 120
  {
    hide Step, CountIn;
    var f, payer := FilingsFor(h, genesis, run, id), Exec(h, genesis, run).settlements[id].payer;
    var w, top := DISPUTE_RATE_LIMIT_WINDOW_SECONDS, DISPUTE_WINDOW_SECONDS;
    FilingsForInWindow(h, genesis, run, id);
    FilingsForAreThePayers(h, genesis, run, id, payer, 0, top);
    FilingsAreLimited(h, genesis, run, payer);
    CoveredByWindows(Filings(h, genesis, run, payer), w, w, 23, DISPUTE_RATE_LIMIT_MAX);
    CountAll(f, -1, top);
    CountSplit(f, -1, 0, top);
  }

  lemma ProductMonotone(n: nat, m: nat, amount: int)
    requires n <= m && amount >= 0
    ensures n * amount <= m * amount
  {
  }

  lemma SettlementIsSound(h: Host, genesis: Balances, run: seq<Call>, id: Bytes32)
    requires ValidRun(h, run) && id in Exec(h, genesis, run).settlements
    ensures Exec(h, genesis, run).settlements[id].amount > 0
  {
    ReachableInv(h, genesis, run);
  }

  /**
   How a dispute ends. At every instant exactly one of receipt and slash has the right timing: a receipt succeeds only
   strictly before the response deadline and moves no money, a slash only from the deadline on, and then it pays
   exactly min(amount, bond) to the payer.
   */
  lemma OneEndingAtATime(h: Host, genesis: Balances, run: seq<Call>, c: Context, id: Bytes32, hash: Bytes32, ts: U64,
                         sig: Bytes64)
    requires ValidRun(h, run) && Now(run) <= c.now && id in Exec(h, genesis, run).disputes
    ensures id in Exec(h, genesis, run).settlements
    ensures Exec(h, genesis, run).disputes[id].resourceKeyHash in Exec(h, genesis, run).listings
    ensures var s := Exec(h, genesis, run);
            var receipt, slash := PostReceipt(h, s, c, id, hash, ts, sig), Finalize(h, s, c, id);
            var k, payer := s.disputes[id].resourceKeyHash, s.settlements[id].payer;
            && slash.outcome != Err(DisputeNotFound) && slash.outcome != Err(SettlementNotFound)
            && slash.outcome != Err(ListingNotFound) && receipt.outcome != Err(ListingNotFound)
            && (slash.outcome == Err(ResponseWindowStillOpen) <==> c.now < SatAdd(s.disputes[id].filedAt, 300))
            && (receipt.outcome.Done? ==> slash.outcome == Err(ResponseWindowStillOpen)
                                          && receipt.state.balances == s.balances && id !in receipt.state.disputes)
            && (slash.outcome.Done? ==>
                  && !receipt.outcome.Done? && id !in slash.state.disputes
                  && var v := slash.outcome.value; var b := s.listings[k].bondAmount;
                     && v <= s.settlements[id].amount && v <= b && (v == s.settlements[id].amount || v == b)
                     && slash.state.listings[k].bondAmount == b - v
                     && (payer != h.self ==> Balance(slash.state.balances, s.listings[k].token, payer)
                                             == Balance(s.balances, s.listings[k].token, payer) + v))
  {
    ReachableInv(h, genesis, run);
  }

  lemma {:induction false} DeadlinesSoFar(h: Host, genesis: Balances, run: seq<Call>, id: Bytes32)
    requires ValidRun(h, run) && id in Exec(h, genesis, run).settlements
    ensures Exec(h, genesis, run).settlements[id].claimDeadline <= SatAdd(Now(run), DISPUTE_WINDOW_SECONDS)
  {
    hide Step;
    var prefix, call := run[..|run| - 1], run[|run| - 1];
    ValidPrefix(h, run);
    SettlementsArePermanent(h, Exec(h, genesis, prefix), call, id);
    if id !in Exec(h, genesis, prefix).settlements {
    } else {
      DeadlinesSoFar(h, genesis, prefix, id);
    }
  }

  lemma {:induction false} SettlementSurvives(h: Host, genesis: Balances, run: seq<Call>, n: nat, id: Bytes32)
    requires n <= |run| && id in Exec(h, genesis, run[..n]).settlements
    ensures id in Exec(h, genesis, run).settlements
    ensures Exec(h, genesis, run).settlements[id] == Exec(h, genesis, run[..n]).settlements[id]
  {
    hide Step;
    if n == |run| {
      assert run[..n] == run;
    } else {
      assert run[..|run| - 1][..n] == run[..n];
      SettlementSurvives(h, genesis, run[..|run| - 1], n, id);
      SettlementsArePermanent(h, Exec(h, genesis, run[..|run| - 1]), run[|run| - 1], id);
    }
  }
}
