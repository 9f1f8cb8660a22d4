/**
 What the withdrawal gate covers. A withdrawal waits for the listing's unlock time, which every registration under the
 listing moves; so the gate covers every claim on the listing exactly when one registration has moved it.
 */
module BondGate {
  import opened Windows
  import opened Tokens
  import opened BondEscrow
  import opened BondInvariant
  import opened BondRuns

  /** Claim deadlines lie ahead of their registration, and the unlock time covers them exactly when it was ever set. */
  ghost predicate GateIsExact(s: State, now: U64) {
    forall id :: id in s.settlements ==>
      && 0 < s.settlements[id].claimDeadline <= SatAdd(now, DISPUTE_WINDOW_SECONDS)
      && (s.settlements[id].resourceKeyHash in s.listings ==>
            var unlock := s.listings[s.settlements[id].resourceKeyHash].lastClaimWindowEnd;
            s.settlements[id].claimDeadline <= unlock <==> unlock > 0)
  }

  ghost predicate SameUnlocks(s: State, t: State) {
    && t.settlements == s.settlements
    && (forall k :: k in t.listings <==> k in s.listings)
    && (forall k :: k in s.listings ==> t.listings[k].lastClaimWindowEnd == s.listings[k].lastClaimWindowEnd)
  }

  /** Nothing but a registration or a first deposit touches settlements or unlock times. */
  lemma OthersKeepUnlocks(h: Host, s: State, call: Call)
    requires !call.op.OpRegister? && !call.op.OpDeposit?
    ensures SameUnlocks(s, Step(h, s, call).state)
  {
    match call.op
    case OpInitialize(_) =>
    case OpWithdraw(_, _) =>
    case OpFile(_, _) =>
    case OpSetKey(_, _, _) =>
    case OpReceipt(_, _, _, _) =>
    case OpFinalize(_) =>
    case OpOutside(_, _, _, _) =>
  }

  lemma DepositKeepsGate(h: Host, s: State, c: Context, seller: Address, key: Bytes, token: Address, amount: I128)
    requires GateIsExact(s, c.now)
    ensures GateIsExact(Deposit(h, s, c, seller, key, token, amount).state, c.now)
  {
  }

  lemma RegisterKeepsGate(h: Host, s: State, c: Context, id: Bytes32, payer: Address, seller: Address, key: Bytes,
                          amount: I128)
    requires GateIsExact(s, c.now)
    ensures GateIsExact(RegisterSettlement(h, s, c, id, payer, seller, key, amount).state, c.now)
  {
  }

  lemma StepKeepsGate(h: Host, s: State, call: Call, before: U64)
    requires GateIsExact(s, before) && before <= call.ctx.now
    ensures GateIsExact(Step(h, s, call).state, call.ctx.now)
  {
    hide RegisterSettlement, Deposit;
    var c := call.ctx;
    if call.op.OpRegister? {
      var op := call.op;
      RegisterKeepsGate(h, s, c, op.paymentId, op.payer, op.seller, op.resourceKey, op.amount);
    } else if call.op.OpDeposit? {
      DepositKeepsGate(h, s, c, call.op.seller, call.op.resourceKey, call.op.token, call.op.amount);
    } else {
      hide Step;
      OthersKeepUnlocks(h, s, call);
    }
  }

  lemma {:induction false} GateHolds(h: Host, genesis: Balances, run: seq<Call>)
    requires ValidRun(h, run)
    ensures GateIsExact(Exec(h, genesis, run), Now(run))
  {
    hide Step;
    if run == [] {
    } else {
      ValidPrefix(h, run);
      GateHolds(h, genesis, run[..|run| - 1]);
      StepKeepsGate(h, Exec(h, genesis, run[..|run| - 1]), run[|run| - 1], Now(run[..|run| - 1]));
    }
  }

  /**
   The gate, exactly. In every run the listing's unlock time covers the claim deadline of a payment for it if and only
   if the unlock time was ever set, which the seller can read before withdrawing; and then it covers all of them.
   */
  lemma GateCoversClaims(h: Host, genesis: Balances, run: seq<Call>, id: Bytes32)
    requires ValidRun(h, run) && id in Exec(h, genesis, run).settlements
    requires Exec(h, genesis, run).settlements[id].resourceKeyHash in Exec(h, genesis, run).listings
    ensures var s := Exec(h, genesis, run);
            var unlock := s.listings[s.settlements[id].resourceKeyHash].lastClaimWindowEnd;
            s.settlements[id].claimDeadline <= unlock <==> unlock > 0
  {
    GateHolds(h, genesis, run);
  }

  /** The payments that were registered while the listing they name existed. */
  ghost function RegisteredUnderListing(h: Host, genesis: Balances, run: seq<Call>): set<Bytes32> {
    if run == [] then {}
    else
      var prefix, op := run[..|run| - 1], run[|run| - 1].op;
      var before := RegisteredUnderListing(h, genesis, prefix);
      if op.OpRegister? && LastReply(h, genesis, run).outcome.Done?
         && h.sha256(op.resourceKey) in Exec(h, genesis, prefix).listings
      then before + {op.paymentId} else before
  }

  lemma RegistrationIsFresh(h: Host, s: State, call: Call)
    requires call.op.OpRegister? && Step(h, s, call).outcome.Done?
    ensures call.op.paymentId !in s.settlements && call.op.paymentId in Step(h, s, call).state.settlements
  {
  }

  /**
   A payment registered while its listing existed sets the unlock time, for good; so the gate covers it from then on.
   */
  lemma {:induction false} RegisteredClaimsAreCovered(h: Host, genesis: Balances, run: seq<Call>, id: Bytes32)
    requires ValidRun(h, run) && id in RegisteredUnderListing(h, genesis, run)
    ensures var s := Exec(h, genesis, run);
            && id in s.settlements && s.settlements[id].resourceKeyHash in s.listings
            && var unlock := s.listings[s.settlements[id].resourceKeyHash].lastClaimWindowEnd;
               0 < s.settlements[id].claimDeadline <= unlock
  {
    hide Step;
    if run == [] {
    } else {
      var prefix, call := run[..|run| - 1], run[|run| - 1];
      var s := Exec(h, genesis, prefix);
      ValidPrefix(h, run);
      GateHolds(h, genesis, run);
      if id in RegisteredUnderListing(h, genesis, prefix) {
        RegisteredClaimsAreCovered(h, genesis, prefix, id);
        SettlementsArePermanent(h, s, call, id);
        ListingsArePermanent(h, s, call, s.settlements[id].resourceKeyHash);
      } else {
        RegistrationIsFresh(h, s, call);
        SettlementsArePermanent(h, s, call, id);
        ListingsArePermanent(h, s, call, h.sha256(call.op.resourceKey));
      }
    }
  }

  lemma WithdrawalPassed(h: Host, s: State, call: Call)
    requires call.op.OpWithdraw? && Step(h, s, call).outcome.Done?
    ensures var k, t := h.sha256(call.op.resourceKey), Step(h, s, call).state;
            && k in s.listings && s.listings[k].openDisputeCount == 0
            && s.listings[k].lastClaimWindowEnd <= call.ctx.now
            && t.settlements == s.settlements && t.disputes == s.disputes && k in t.listings
  {
  }

  /** Call `n` withdraws the bond of `k`. */
  ghost predicate Withdraws(h: Host, genesis: Balances, run: seq<Call>, n: nat, k: Bytes32) {
    && n < |run| && run[n].op.OpWithdraw? && h.sha256(run[n].op.resourceKey) == k
    && Step(h, Exec(h, genesis, run[..n]), run[n]).outcome.Done?
  }

  /**
   Withdrawal closes the claims. When call `n` of a run withdraws the bond of `k` at time T, no payment for `k` is
   under dispute then; and if the unlock time of `k` was ever set, none of those registered before is disputed at any
   time after T in the whole run.
   */
  lemma WithdrawalClosesClaims(h: Host, genesis: Balances, run: seq<Call>, n: nat, k: Bytes32, id: Bytes32, hi: int)
    requires ValidRun(h, run) && Withdraws(h, genesis, run, n, k)
    requires id in Exec(h, genesis, run[..n]).settlements
    requires Exec(h, genesis, run[..n]).settlements[id].resourceKeyHash == k
    ensures var s := Exec(h, genesis, run[..n]);
            && id !in s.disputes && k in s.listings
            && (s.listings[k].lastClaimWindowEnd > 0 ==>
                  CountIn(FilingsFor(h, genesis, run, id), run[n].ctx.now, hi) == 0)
  {
    hide Step;
    var s := Exec(h, genesis, run[..n]);
    ReachableInv(h, genesis, run[..n]);
    GateHolds(h, genesis, run[..n]);
    WithdrawalPassed(h, s, run[n]);
    assert id in s.disputes ==> id in DisputesOn(s.disputes, k);
    if s.listings[k].lastClaimWindowEnd > 0 {
      SettlementSurvives(h, genesis, run, n, id);
      FilingsForInWindow(h, genesis, run, id);
      CountNone(FilingsFor(h, genesis, run, id), run[n].ctx.now, hi);
    }
  }

  /** After time `T`, every filing the payer signs is refused because the claim window is over. */
  ghost predicate ClaimIsClosed(s: State, id: Bytes32, T: U64)
    requires id in s.settlements
  {
    forall c: Context :: c.now > T && s.settlements[id].payer in c.signers ==>
      FileDispute(s, c, s.settlements[id].payer, id).outcome == Err(ClaimWindowElapsed)
  }

  /**
   Exactly which claims a withdrawal closes: those of a listing whose unlock time was ever set, all of them, and of any
   other listing only those whose window is over anyway. Every other claim outlives the bond.
   */
  lemma WithdrawalClosesExactly(h: Host, genesis: Balances, run: seq<Call>, n: nat, k: Bytes32, id: Bytes32)
    requires ValidRun(h, run) && Withdraws(h, genesis, run, n, k)
    requires id in Exec(h, genesis, run[..n]).settlements
    requires Exec(h, genesis, run[..n]).settlements[id].resourceKeyHash == k
    ensures var s, T := Exec(h, genesis, run[..n]), run[n].ctx.now;
            var after := Step(h, s, run[n]).state;
            && k in s.listings && id in after.settlements
            && (ClaimIsClosed(after, id, T) <==>
                  s.listings[k].lastClaimWindowEnd > 0 || s.settlements[id].claimDeadline <= T)
  {
    hide Step;
    var s, T := Exec(h, genesis, run[..n]), run[n].ctx.now;
    GateHolds(h, genesis, run[..n]);
    WithdrawalPassed(h, s, run[n]);
    var after := Step(h, s, run[n]).state;
    if s.settlements[id].claimDeadline > T {
      var c := Context(T + 1, {s.settlements[id].payer}, true);
      assert FileDispute(after, c, s.settlements[id].payer, id).outcome != Err(ClaimWindowElapsed);
    }
  }
}
