/**
 Every record of the escrow read off the calls that made it: the payment as it was registered, the dispute as it was
 filed, the bond as what was paid in and out, the unlock time as the last registration left it.
 */
module BondHistory {
  import opened Basics
  import opened Tokens
  import opened BondEscrow
  import opened BondRuns
  import opened BondParties

  /** Who initialized the contract. */
  ghost function AdminOf(h: Host, genesis: Balances, run: seq<Call>): Option<Address> {
    if run == [] then None
    else
      var before, op := AdminOf(h, genesis, run[..|run| - 1]), run[|run| - 1].op;
      if before.None? && op.OpInitialize? && LastReply(h, genesis, run).outcome.Done? then Some(op.admin) else before
  }

  /** The call that registered the payment. */
  ghost function Registration(h: Host, genesis: Balances, run: seq<Call>, id: Bytes32): (r: Option<Call>)
    ensures r.Some? ==> r.value.op.OpRegister? && r.value.op.paymentId == id
  {
    if run == [] then None
    else
      var before, call := Registration(h, genesis, run[..|run| - 1], id), run[|run| - 1];
      if before.None? && call.op.OpRegister? && call.op.paymentId == id && LastReply(h, genesis, run).outcome.Done?
      then Some(call) else before
  }

  /** The call that filed the dispute the payment is under. */
  ghost function OpenFiling(h: Host, genesis: Balances, run: seq<Call>, id: Bytes32): (r: Option<Call>)
    ensures r.Some? ==> r.value.op.OpFile? && r.value.op.paymentId == id
  {
    if run == [] then None
    else
      var call := run[|run| - 1];
      if call.op.OpFile? && call.op.paymentId == id && LastReply(h, genesis, run).outcome.Done? then Some(call)
      else if (call.op.OpReceipt? || call.op.OpFinalize?) && call.op.paymentId == id
              && LastReply(h, genesis, run).outcome.Done? then None
      else OpenFiling(h, genesis, run[..|run| - 1], id)
  }

  /** What was paid into the bond of `k` less what was paid out of it. */
  ghost function NetBond(h: Host, genesis: Balances, run: seq<Call>, k: Bytes32): int {
    if run == [] then 0
    else
      var prefix, op, outcome := run[..|run| - 1], run[|run| - 1].op, LastReply(h, genesis, run).outcome;
      var before := NetBond(h, genesis, prefix, k);
      if !outcome.Done? then before
      else if op.OpDeposit? && h.sha256(op.resourceKey) == k then before + op.amount
      else if op.OpWithdraw? && h.sha256(op.resourceKey) == k then before - outcome.value
      else if op.OpFinalize? && KeyOf(h, Registration(h, genesis, prefix, op.paymentId)) == Some(k)
      then before - outcome.value
      else before
  }

  ghost function KeyOf(h: Host, registration: Option<Call>): Option<Bytes32> {
    if registration.Some? && registration.value.op.OpRegister?
    then Some(h.sha256(registration.value.op.resourceKey)) else None
  }

  /** When the last registration under the listing stops claims; 0 before any. */
  ghost function UnlockTime(h: Host, genesis: Balances, run: seq<Call>, k: Bytes32): int {
    if run == [] then 0
    else
      var prefix, call := run[..|run| - 1], run[|run| - 1];
      if call.op.OpRegister? && h.sha256(call.op.resourceKey) == k && LastReply(h, genesis, run).outcome.Done?
         && FirstDeposit(h, genesis, prefix, k).Some?
      then DeadlineFrom(call.ctx.now) else UnlockTime(h, genesis, prefix, k)
  }

  /** A day after, or the end of time. */
  function DeadlineFrom(now: int): int {
    if now + 86400 <= 0xFFFF_FFFF_FFFF_FFFF then now + 86400 else 0xFFFF_FFFF_FFFF_FFFF
  }

  // ---- One call ----

  lemma AdminStep(h: Host, s: State, call: Call)
    ensures var r := Step(h, s, call);
            r.state.admin == if call.op.OpInitialize? && r.outcome.Done? then Some(call.op.admin) else s.admin
    ensures call.op.OpInitialize? && Step(h, s, call).outcome.Done? ==> s.admin.None?
  {
  }

  ghost predicate RegistersNow(h: Host, s: State, call: Call, id: Bytes32) {
    call.op.OpRegister? && call.op.paymentId == id && Step(h, s, call).outcome.Done?
  }

  lemma SettlementStep(h: Host, s: State, call: Call, id: Bytes32)
    ensures var t, op := Step(h, s, call).state, call.op;
            if RegistersNow(h, s, call, id) then
              && id !in s.settlements && id in t.settlements
              && t.settlements[id].payer == op.payer && t.settlements[id].seller == op.seller
              && t.settlements[id].resourceKeyHash == h.sha256(op.resourceKey)
              && t.settlements[id].amount == op.amount && t.settlements[id].claimDeadline == DeadlineFrom(call.ctx.now)
            else (id in t.settlements <==> id in s.settlements)
                 && (id in s.settlements ==> t.settlements[id] == s.settlements[id])
  {
  }

  lemma DisputeStep(h: Host, s: State, call: Call, id: Bytes32)
    ensures var r, op := Step(h, s, call), call.op; var t := r.state;
            if op.OpFile? && op.paymentId == id && r.outcome.Done? then
              && id in t.disputes && id in s.settlements
              && t.disputes[id] == Dispute(op.payer, call.ctx.now, s.settlements[id].resourceKeyHash)
            else if (op.OpReceipt? || op.OpFinalize?) && op.paymentId == id && r.outcome.Done? then id !in t.disputes
            else (id in t.disputes <==> id in s.disputes) && (id in s.disputes ==> t.disputes[id] == s.disputes[id])
  {
  }

  function BondOf(s: State, k: Bytes32): int {
    if k in s.listings then s.listings[k].bondAmount else 0
  }

  function UnlockOf(s: State, k: Bytes32): int {
    if k in s.listings then s.listings[k].lastClaimWindowEnd else 0
  }

  lemma DepositBonds(h: Host, s: State, c: Context, seller: Address, key: Bytes, token: Address, amount: I128,
                     k: Bytes32)
    ensures var r := Deposit(h, s, c, seller, key, token, amount);
            BondOf(r.state, k) == BondOf(s, k) + if r.outcome.Done? && h.sha256(key) == k then amount else 0
  {
  }

  lemma WithdrawBonds(h: Host, s: State, c: Context, seller: Address, key: Bytes, k: Bytes32)
    ensures var r := Withdraw(h, s, c, seller, key);
            BondOf(r.state, k) == BondOf(s, k) - if r.outcome.Done? && h.sha256(key) == k then r.outcome.value else 0
  {
  }

  lemma FinalizeBonds(h: Host, s: State, c: Context, id: Bytes32, k: Bytes32)
    ensures var r := Finalize(h, s, c, id);
            BondOf(r.state, k) ==
              BondOf(s, k) - if r.outcome.Done? && id in s.disputes && s.disputes[id].resourceKeyHash == k
                             then r.outcome.value else 0
  {
  }

  lemma OthersBondNothing(h: Host, s: State, call: Call, k: Bytes32)
    requires !call.op.OpDeposit? && !call.op.OpWithdraw? && !call.op.OpFinalize?
    ensures BondOf(Step(h, s, call).state, k) == BondOf(s, k)
  {
    match call.op
    case OpInitialize(_) =>
    case OpRegister(_, _, _, _, _) =>
    case OpFile(_, _) =>
    case OpSetKey(_, _, _) =>
    case OpReceipt(_, _, _, _) =>
    case OpOutside(_, _, _, _) =>
  }

  lemma BondStep(h: Host, s: State, call: Call, k: Bytes32)
    ensures var r, op := Step(h, s, call), call.op;
            BondOf(r.state, k) ==
              if !r.outcome.Done? then BondOf(s, k)
              else if op.OpDeposit? && h.sha256(op.resourceKey) == k then BondOf(s, k) + op.amount
              else if op.OpWithdraw? && h.sha256(op.resourceKey) == k then BondOf(s, k) - r.outcome.value
              else if op.OpFinalize? && op.paymentId in s.disputes && s.disputes[op.paymentId].resourceKeyHash == k
              then BondOf(s, k) - r.outcome.value
              else BondOf(s, k)
  {
    hide Deposit, Withdraw, Finalize;
    match call.op
    case OpDeposit(seller, key, token, amount) => DepositBonds(h, s, call.ctx, seller, key, token, amount, k);
    case OpWithdraw(seller, key) => WithdrawBonds(h, s, call.ctx, seller, key, k);
    case OpFinalize(id) => FinalizeBonds(h, s, call.ctx, id, k);
    case _ => OthersBondNothing(h, s, call, k);
  }

  /** A new listing starts without an unlock time. */
  lemma NewListingIsOpen(h: Host, s: State, call: Call, k: Bytes32)
    requires k !in s.listings
    ensures UnlockOf(Step(h, s, call).state, k) == 0
  {
    match call.op
    case OpInitialize(_) =>
    case OpRegister(_, _, _, _, _) =>
    case OpDeposit(_, _, _, _) =>
    case OpWithdraw(_, _) =>
    case OpFile(_, _) =>
    case OpSetKey(_, _, _) =>
    case OpReceipt(_, _, _, _) =>
    case OpFinalize(_) =>
    case OpOutside(_, _, _, _) =>
  }

  lemma UnlockStep(h: Host, s: State, call: Call, k: Bytes32)
    ensures var r, op := Step(h, s, call), call.op;
            UnlockOf(r.state, k) ==
              if op.OpRegister? && h.sha256(op.resourceKey) == k && r.outcome.Done? && k in s.listings
              then DeadlineFrom(call.ctx.now) else UnlockOf(s, k)
  {
    hide Step;
    if k in s.listings { ListingsArePermanent(h, s, call, k); } else { NewListingIsOpen(h, s, call, k); }
  }

  // ---- The main results ----

  /** The contract has one admin for good: whoever first initialized it. */
  lemma {:induction false} AdminMatchesHistory(h: Host, genesis: Balances, run: seq<Call>)
    ensures Exec(h, genesis, run).admin == AdminOf(h, genesis, run)
  {
    hide Step;
    if run == [] {
    } else {
      AdminMatchesHistory(h, genesis, run[..|run| - 1]);
      AdminStep(h, Exec(h, genesis, run[..|run| - 1]), run[|run| - 1]);
    }
  }

  /**
   A payment's record is what was registered for it: payer, seller, resource and amount of the one call that registered
   it, with the claim deadline a day after that call. No other call writes it.
   */
  lemma {:induction false} PaymentsMatchHistory(h: Host, genesis: Balances, run: seq<Call>, id: Bytes32)
    ensures var s, registered := Exec(h, genesis, run), Registration(h, genesis, run, id);
            && (id in s.settlements <==> registered.Some?)
            && (registered.Some? ==>
                  var p, op := s.settlements[id], registered.value.op;
                  && p.payer == op.payer && p.seller == op.seller && p.resourceKeyHash == h.sha256(op.resourceKey)
                  && p.amount == op.amount && p.claimDeadline == DeadlineFrom(registered.value.ctx.now))
  {
    hide Step;
    if run == [] {
    } else {
      PaymentsMatchHistory(h, genesis, run[..|run| - 1], id);
      SettlementStep(h, Exec(h, genesis, run[..|run| - 1]), run[|run| - 1], id);
    }
  }

  /** A payment is under dispute exactly from its filing to the receipt or slash that ends it, as it was filed. */
  lemma {:induction false} DisputesMatchHistory(h: Host, genesis: Balances, run: seq<Call>, id: Bytes32)
    ensures var s, filed := Exec(h, genesis, run), OpenFiling(h, genesis, run, id);
            && (id in s.disputes <==> filed.Some?)
            && (filed.Some? ==>
                  && Registration(h, genesis, run, id).Some?
                  && s.disputes[id].filedBy == filed.value.op.payer && s.disputes[id].filedAt == filed.value.ctx.now
                  && KeyOf(h, Registration(h, genesis, run, id)) == Some(s.disputes[id].resourceKeyHash))
  {
    hide Step;
    if run == [] {
    } else {
      var prefix := run[..|run| - 1];
      DisputesMatchHistory(h, genesis, prefix, id);
      PaymentsMatchHistory(h, genesis, prefix, id);
      PaymentsMatchHistory(h, genesis, run, id);
      SettlementStep(h, Exec(h, genesis, prefix), run[|run| - 1], id);
      DisputeStep(h, Exec(h, genesis, prefix), run[|run| - 1], id);
    }
  }

  /** A listing's bond is what was deposited for it, less what was withdrawn and what its own payments were paid. */
  lemma {:induction false} BondsMatchHistory(h: Host, genesis: Balances, run: seq<Call>, k: Bytes32)
    requires ValidRun(h, run)
    ensures BondOf(Exec(h, genesis, run), k) == NetBond(h, genesis, run, k)
  {
    hide Step;
    if run == [] {
    } else {
      var prefix, call := run[..|run| - 1], run[|run| - 1];
      var s := Exec(h, genesis, prefix);
      ValidPrefix(h, run);
      BondsMatchHistory(h, genesis, prefix, k);
      BondStep(h, s, call, k);
      if call.op.OpFinalize? && Step(h, s, call).outcome.Done? {
        DisputesMatchHistory(h, genesis, prefix, call.op.paymentId);
        DisputeComesAndGoes(h, s, call, call.op.paymentId);
      }
    }
  }

  /** A listing's unlock time is a day after the last payment registered while it existed, and 0 before any. */
  lemma {:induction false} UnlocksMatchHistory(h: Host, genesis: Balances, run: seq<Call>, k: Bytes32)
    ensures UnlockOf(Exec(h, genesis, run), k) == UnlockTime(h, genesis, run, k)
  {
    hide Step;
    if run == [] {
    } else {
      UnlocksMatchHistory(h, genesis, run[..|run| - 1], k);
      PartiesMatchHistory(h, genesis, run[..|run| - 1], k);
      UnlockStep(h, Exec(h, genesis, run[..|run| - 1]), run[|run| - 1], k);
    }
  }
}
