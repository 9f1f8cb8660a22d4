/**
 When each call of the escrow goes through, in terms of what happened before it: no call is refused without one of these
 causes, and none goes through in spite of one.
 */
module BondCalls {
  import opened Basics
  import opened Windows
  import opened Tokens
  import opened BondEscrow
  import opened BondInvariant
  import opened BondRuns
  import opened BondParties
  import opened BondHistory

  /** The next call of a run: not before the last one, and not signed by the contract. */
  ghost predicate Next(h: Host, run: seq<Call>, c: Context) {
    ValidRun(h, run) && Now(run) <= c.now && h.self !in c.signers
  }

  lemma NextInv(h: Host, genesis: Balances, run: seq<Call>, c: Context)
    requires Next(h, run, c)
    ensures Inv(h, Exec(h, genesis, run), c.now)
  {
    ReachableInv(h, genesis, run);
    LaterInv(h, Exec(h, genesis, run), Now(run), c.now);
  }

  /** A payment is registered if and only if the admin signs, the amount is positive and the id was never registered. */
  lemma RegistersExactly(h: Host, genesis: Balances, run: seq<Call>, c: Context, id: Bytes32, payer: Address,
                         seller: Address, key: Bytes, amount: I128)
    ensures var r := RegisterSettlement(h, Exec(h, genesis, run), c, id, payer, seller, key, amount);
            var admin := AdminOf(h, genesis, run);
            r.outcome.Done? <==>
              admin.Some? && admin.value in c.signers && amount > 0 && Registration(h, genesis, run, id).None?
  {
    AdminMatchesHistory(h, genesis, run);
    PaymentsMatchHistory(h, genesis, run, id);
  }

  /**
   A deposit goes through if and only if the seller signs a positive amount it has, the listing is new or its own and in
   this token, the bond still fits, and the token accepts. It then raises the bond and moves that amount, nothing else.
   */
  lemma DepositsExactly(h: Host, genesis: Balances, run: seq<Call>, c: Context, seller: Address, key: Bytes,
                        token: Address, amount: I128, t: Address, who: Address)
    requires Next(h, run, c)
    ensures var s, k := Exec(h, genesis, run), h.sha256(key);
            var r, first := Deposit(h, s, c, seller, key, token, amount), FirstDeposit(h, genesis, run, k);
            && (r.outcome.Done? <==>
                  && seller in c.signers && 0 < amount <= Balance(s.balances, token, seller) && c.tokenAccepts
                  && (first.None? || first.value == (seller, token))
                  && NetBond(h, genesis, run, k) + amount <= I128_MAX)
            && (r.outcome.Done? ==>
                  && r.outcome.value == NetBond(h, genesis, run, k) + amount
                  && Balance(r.state.balances, t, who) == Balance(s.balances, t, who)
                     - (if t == token && who == seller then amount else 0)
                     + (if t == token && who == h.self then amount else 0))
  {
    PartiesMatchHistory(h, genesis, run, h.sha256(key));
    BondsMatchHistory(h, genesis, run, h.sha256(key));
  }

  /** The listing has no payment under dispute. */
  ghost predicate Undisputed(h: Host, genesis: Balances, run: seq<Call>, k: Bytes32) {
    forall id :: OpenFiling(h, genesis, run, id).Some? ==> KeyOf(h, Registration(h, genesis, run, id)) != Some(k)
  }

  lemma UndisputedIsZero(h: Host, genesis: Balances, run: seq<Call>, k: Bytes32)
    requires ValidRun(h, run) && k in Exec(h, genesis, run).listings
    ensures Undisputed(h, genesis, run, k) <==> Exec(h, genesis, run).listings[k].openDisputeCount == 0
  {
    hide OpenFiling, Registration, Exec;
    var s := Exec(h, genesis, run);
    ReachableInv(h, genesis, run);
    forall id ensures id in DisputesOn(s.disputes, k) <==>
                      OpenFiling(h, genesis, run, id).Some? && KeyOf(h, Registration(h, genesis, run, id)) == Some(k) {
      DisputesMatchHistory(h, genesis, run, id);
    }
    if s.listings[k].openDisputeCount == 0 { assert DisputesOn(s.disputes, k) == {}; }
    if Undisputed(h, genesis, run, k) { assert DisputesOn(s.disputes, k) == {}; }
  }

  /**
   A withdrawal goes through if and only if the first depositor signs, the last claim window is over, no payment of the
   listing is under dispute, there is a bond, and the token accepts. It pays out all of it.
   */
  lemma WithdrawsExactly(h: Host, genesis: Balances, run: seq<Call>, c: Context, seller: Address, key: Bytes)
    requires Next(h, run, c)
    ensures var s, k := Exec(h, genesis, run), h.sha256(key);
            var r, first := Withdraw(h, s, c, seller, key), FirstDeposit(h, genesis, run, k);
            && (r.outcome.Done? <==>
                  && seller in c.signers && first.Some? && first.value.0 == seller
                  && c.now >= UnlockTime(h, genesis, run, k) && Undisputed(h, genesis, run, k)
                  && NetBond(h, genesis, run, k) > 0 && c.tokenAccepts)
            && (r.outcome.Done? ==> r.outcome.value == NetBond(h, genesis, run, k) && BondOf(r.state, k) == 0)
  {
    hide Exec, Undisputed, NetBond, UnlockTime, FirstDeposit;
    var s, k := Exec(h, genesis, run), h.sha256(key);
    NextInv(h, genesis, run, c);
    PartiesMatchHistory(h, genesis, run, k);
    BondsMatchHistory(h, genesis, run, k);
    UnlocksMatchHistory(h, genesis, run, k);
    if k in s.listings {
      BondIsHeld(h, s, k);
      UndisputedIsZero(h, genesis, run, k);
    }
  }

  /**
   A dispute is filed if and only if the payer who was registered signs, no later than a day after the registration,
   somebody has bonded the listing, the payment is not under dispute, and the payer filed fewer than five times in the
   last hour (counted from time 0). The listing's counter of open disputes must have room too.
   */
  lemma FilesExactly(h: Host, genesis: Balances, run: seq<Call>, c: Context, payer: Address, id: Bytes32)
    requires Next(h, run, c)
    ensures var s, registered := Exec(h, genesis, run), Registration(h, genesis, run, id);
            FileDispute(s, c, payer, id).outcome.Done? <==>
              && registered.Some? && registered.value.op.payer == payer && payer in c.signers
              && c.now <= DeadlineFrom(registered.value.ctx.now)
              && OpenFiling(h, genesis, run, id).None?
              && CountIn(Filings(h, genesis, run, payer), if c.now < 3600 then 0 else c.now - 3600, c.now) < 5
              && var k := h.sha256(registered.value.op.resourceKey);
                 FirstDeposit(h, genesis, run, k).Some? && |DisputesOn(s.disputes, k)| < U32_MAX
  {
    hide Exec, Filings, After, CountIn, FirstDeposit, OpenFiling, Registration;
    var s, filings := Exec(h, genesis, run), Filings(h, genesis, run, payer);
    NextInv(h, genesis, run, c);
    PaymentsMatchHistory(h, genesis, run, id);
    DisputesMatchHistory(h, genesis, run, id);
    var start := SatSub(c.now, DISPUTE_RATE_LIMIT_WINDOW_SECONDS);
    LogMatchesHistory(h, genesis, run, payer, start);
    FilingTimes(h, genesis, run, payer);
    AfterContents(filings, start, 0, c.now);
    if id in s.settlements {
      PartiesMatchHistory(h, genesis, run, s.settlements[id].resourceKeyHash);
      CountFits(s, s.settlements[id].resourceKeyHash);
    }
  }

  lemma CountFits(s: State, k: Bytes32)
    requires CountsAreExact(s)
    ensures k in s.listings ==> s.listings[k].openDisputeCount == |DisputesOn(s.disputes, k)| <= U32_MAX
  {
  }

  /**
   A receipt goes through if and only if the payment is under dispute, a delivery key is registered for its listing, it
   comes less than 300 seconds after the filing, and the signature over this payment verifies under that key.
   */
  lemma ReceiptsExactly(h: Host, genesis: Balances, run: seq<Call>, c: Context, id: Bytes32, hash: Bytes32,
                        timestamp: U64, signature: Bytes64)
    requires Next(h, run, c)
    ensures var filed := OpenFiling(h, genesis, run, id);
            PostReceipt(h, Exec(h, genesis, run), c, id, hash, timestamp, signature).outcome.Done? <==>
              && filed.Some? && ResponseOver(filed.value.ctx.now) > c.now
              && var k := KeyOf(h, Registration(h, genesis, run, id));
                 k.Some? && var key := LastKey(h, genesis, run, k.value);
                 key.Some? && h.ed25519Verify(key.value, ReceiptMessage(id, hash, timestamp), signature)
  {
    hide Exec, OpenFiling, Registration, LastKey, FirstDeposit;
    var s := Exec(h, genesis, run);
    NextInv(h, genesis, run, c);
    DisputesMatchHistory(h, genesis, run, id);
    if id in s.disputes { PartiesMatchHistory(h, genesis, run, s.disputes[id].resourceKeyHash); }
  }

  /** When the time to answer a dispute is over: 300 seconds after the filing, or at the end of time. */
  function ResponseOver(filed: int): int {
    if filed + 300 <= 0xFFFF_FFFF_FFFF_FFFF then filed + 300 else 0xFFFF_FFFF_FFFF_FFFF
  }

  lemma FinalizeOutcome(h: Host, s: State, c: Context, id: Bytes32, t: Address, who: Address)
    requires Inv(h, s, c.now)
    ensures var r := Finalize(h, s, c, id);
            && (id !in s.disputes ==> !r.outcome.Done?)
            && (id in s.disputes ==>
                  && id in s.settlements && s.disputes[id].resourceKeyHash in s.listings
                  && var p, l := s.settlements[id], s.listings[s.disputes[id].resourceKeyHash];
                     var paid := if p.amount < l.bondAmount then p.amount else l.bondAmount;
                     && (r.outcome.Done? <==>
                           ResponseOver(s.disputes[id].filedAt) <= c.now && (c.tokenAccepts || paid == 0))
                     && (r.outcome.Done? ==>
                           && r.outcome.value == paid
                           && BondOf(r.state, s.disputes[id].resourceKeyHash) == l.bondAmount - paid
                           && Balance(r.state.balances, t, who) == Balance(s.balances, t, who)
                              - (if t == l.token && who == h.self then paid else 0)
                              + (if t == l.token && who == p.payer then paid else 0)))
  {
    if id in s.disputes { BondIsHeld(h, s, s.disputes[id].resourceKeyHash); }
  }

  /**
   A dispute is finalized if and only if the payment is under dispute, the time to answer is over, and the token accepts
   or nothing is left to pay. The registered payer gets the registered amount, or what is left of the bond if that is
   less, and nobody else gets anything.
   */
  lemma FinalizesExactly(h: Host, genesis: Balances, run: seq<Call>, c: Context, id: Bytes32, t: Address, who: Address)
    requires Next(h, run, c)
    ensures var s, filed, registered := Exec(h, genesis, run), OpenFiling(h, genesis, run, id),
                                        Registration(h, genesis, run, id);
            var r := Finalize(h, s, c, id);
            && (filed.None? ==> !r.outcome.Done?)
            && (filed.Some? ==>
                  && registered.Some?
                  && var op := registered.value.op;
                     var k := h.sha256(op.resourceKey);
                     var first, bond := FirstDeposit(h, genesis, run, k), NetBond(h, genesis, run, k);
                     var paid := if op.amount < bond then op.amount else bond;
                     && first.Some?
                     && (r.outcome.Done? <==>
                           ResponseOver(filed.value.ctx.now) <= c.now && (c.tokenAccepts || paid == 0))
                     && (r.outcome.Done? ==>
                           && r.outcome.value == paid && BondOf(r.state, k) == bond - paid
                           && Balance(r.state.balances, t, who) == Balance(s.balances, t, who)
                              - (if t == first.value.1 && who == h.self then paid else 0)
                              + (if t == first.value.1 && who == op.payer then paid else 0)))
  {
    hide Exec, OpenFiling, Registration, FirstDeposit, NetBond, Finalize;
    var s := Exec(h, genesis, run);
    NextInv(h, genesis, run, c);
    FinalizeOutcome(h, s, c, id, t, who);
    DisputesMatchHistory(h, genesis, run, id);
    PaymentsMatchHistory(h, genesis, run, id);
    if id in s.disputes {
      PartiesMatchHistory(h, genesis, run, s.disputes[id].resourceKeyHash);
      BondsMatchHistory(h, genesis, run, s.disputes[id].resourceKeyHash);
    }
  }

  /** A delivery key is registered if and only if the first depositor signs for it. */
  lemma SetsKeyExactly(h: Host, genesis: Balances, run: seq<Call>, c: Context, seller: Address, key: Bytes,
                       pubkey: Bytes32)
    ensures var first := FirstDeposit(h, genesis, run, h.sha256(key));
            SetDeliveryKey(h, Exec(h, genesis, run), c, seller, key, pubkey).outcome.Done? <==>
              seller in c.signers && first.Some? && first.value.0 == seller
  {
    PartiesMatchHistory(h, genesis, run, h.sha256(key));
  }

  /** The contract is initialized if and only if it was not before and the admin to be signs. */
  lemma InitializesExactly(h: Host, genesis: Balances, run: seq<Call>, c: Context, admin: Address)
    ensures Initialize(Exec(h, genesis, run), c, admin).outcome.Done? <==>
              AdminOf(h, genesis, run).None? && admin in c.signers
  {
    AdminMatchesHistory(h, genesis, run);
  }

  // ---- Refusals ----

  /** The error names something that is so, and is one that this call can return. */
  ghost predicate IsCause(h: Host, genesis: Balances, run: seq<Call>, call: Call, e: Error) {
    var now := call.ctx.now;
    match call.op
    case OpInitialize(_) => e == AlreadyInitialized && AdminOf(h, genesis, run).Some?
    case OpRegister(id, _, _, _, amount) => (
      match e
      case NotInitialized => AdminOf(h, genesis, run).None?
      case InvalidAmount => amount <= 0
      case SettlementAlreadyRegistered => Registration(h, genesis, run, id).Some?
      case _ => false)
    case OpDeposit(seller, key, token, amount) => (
      var first := FirstDeposit(h, genesis, run, h.sha256(key));
      match e
      case InvalidAmount => amount <= 0
      case SellerMismatch => first.Some? && first.value.0 != seller
      case TokenMismatch => first.Some? && first.value.0 == seller && first.value.1 != token
      case _ => false)
    case OpWithdraw(seller, key) => (
      var k := h.sha256(key);
      var first := FirstDeposit(h, genesis, run, k);
      match e
      case ListingNotFound => first.None?
      case SellerMismatch => first.Some? && first.value.0 != seller
      case ClaimWindowStillOpen => now < UnlockTime(h, genesis, run, k)
      case DisputeOpen => !Undisputed(h, genesis, run, k)
      case NothingToWithdraw => NetBond(h, genesis, run, k) == 0
      case _ => false)
    case OpFile(payer, id) => (
      var registered := Registration(h, genesis, run, id);
      match e
      case SettlementNotFound => registered.None?
      case NotThePayer => registered.Some? && registered.value.op.payer != payer
      case ClaimWindowElapsed => registered.Some? && DeadlineFrom(registered.value.ctx.now) < now
      case ListingNotFound =>
        registered.Some? && FirstDeposit(h, genesis, run, h.sha256(registered.value.op.resourceKey)).None?
      case DisputeAlreadyOpen => OpenFiling(h, genesis, run, id).Some?
      case DisputeRateLimited =>
        CountIn(Filings(h, genesis, run, payer), if now < 3600 then 0 else now - 3600, now) >= 5
      case _ => false)
    case OpSetKey(seller, key, _) => (
      var first := FirstDeposit(h, genesis, run, h.sha256(key));
      match e
      case ListingNotFound => first.None?
      case NotTheSeller => first.Some? && first.value.0 != seller
      case _ => false)
    case OpReceipt(id, _, _, _) => (
      var filed := OpenFiling(h, genesis, run, id);
      match e
      case DisputeNotFound => filed.None?
      case NoDeliveryKeyRegistered =>
        var k := KeyOf(h, Registration(h, genesis, run, id)); k.Some? && LastKey(h, genesis, run, k.value).None?
      case ResponseWindowElapsed => filed.Some? && ResponseOver(filed.value.ctx.now) <= now
      case _ => false)
    case OpFinalize(id) => (
      var filed := OpenFiling(h, genesis, run, id);
      match e
      case DisputeNotFound => filed.None?
      case ResponseWindowStillOpen => filed.Some? && now < ResponseOver(filed.value.ctx.now)
      case _ => false)
    case OpOutside(_, _, _, _) => false
  }

  lemma FilingRefusals(h: Host, genesis: Balances, run: seq<Call>, call: Call)
    requires Next(h, run, call.ctx) && call.op.OpFile?
    ensures var outcome := Step(h, Exec(h, genesis, run), call).outcome;
            outcome.Err? ==> IsCause(h, genesis, run, call, outcome.error)
  {
    hide Exec, Filings, After, CountIn, FirstDeposit, OpenFiling, Registration;
    var s, payer, id, now := Exec(h, genesis, run), call.op.payer, call.op.paymentId, call.ctx.now;
    PaymentsMatchHistory(h, genesis, run, id);
    DisputesMatchHistory(h, genesis, run, id);
    var start := SatSub(now, DISPUTE_RATE_LIMIT_WINDOW_SECONDS);
    LogMatchesHistory(h, genesis, run, payer, start);
    FilingTimes(h, genesis, run, payer);
    AfterContents(Filings(h, genesis, run, payer), start, 0, now);
    if id in s.settlements { PartiesMatchHistory(h, genesis, run, s.settlements[id].resourceKeyHash); }
  }

  lemma EndingRefusals(h: Host, genesis: Balances, run: seq<Call>, call: Call)
    requires Next(h, run, call.ctx) && (call.op.OpReceipt? || call.op.OpFinalize?)
    ensures var outcome := Step(h, Exec(h, genesis, run), call).outcome;
            outcome.Err? ==> IsCause(h, genesis, run, call, outcome.error)
  {
    hide Exec, OpenFiling, Registration, LastKey, FirstDeposit;
    var s, id := Exec(h, genesis, run), call.op.paymentId;
    NextInv(h, genesis, run, call.ctx);
    DisputesMatchHistory(h, genesis, run, id);
    if id in s.disputes { PartiesMatchHistory(h, genesis, run, s.disputes[id].resourceKeyHash); }
  }

  lemma ListingRefusals(h: Host, genesis: Balances, run: seq<Call>, call: Call)
    requires Next(h, run, call.ctx) && (call.op.OpDeposit? || call.op.OpWithdraw? || call.op.OpSetKey?)
    ensures var outcome := Step(h, Exec(h, genesis, run), call).outcome;
            outcome.Err? ==> IsCause(h, genesis, run, call, outcome.error)
  {
    hide Exec, FirstDeposit, NetBond, UnlockTime, Undisputed;
    var s, k := Exec(h, genesis, run), h.sha256(call.op.resourceKey);
    NextInv(h, genesis, run, call.ctx);
    PartiesMatchHistory(h, genesis, run, k);
    BondsMatchHistory(h, genesis, run, k);
    UnlocksMatchHistory(h, genesis, run, k);
    if k in s.listings { UndisputedIsZero(h, genesis, run, k); }
  }

  /** Every refusal tells the truth: the error a call returns names a cause that holds in the history of the run. */
  lemma RefusalsAreTrue(h: Host, genesis: Balances, run: seq<Call>, call: Call)
    requires Next(h, run, call.ctx)
    ensures var outcome := Step(h, Exec(h, genesis, run), call).outcome;
            outcome.Err? ==> IsCause(h, genesis, run, call, outcome.error)
  {
    hide Exec, Registration, AdminOf;
    match call.op
    case OpInitialize(_) => AdminMatchesHistory(h, genesis, run);
    case OpRegister(id, _, _, _, _) =>
      AdminMatchesHistory(h, genesis, run);
      PaymentsMatchHistory(h, genesis, run, id);
    case OpFile(_, _) => FilingRefusals(h, genesis, run, call);
    case OpOutside(_, _, _, _) =>
    case OpReceipt(_, _, _, _) => EndingRefusals(h, genesis, run, call);
    case OpFinalize(_) => EndingRefusals(h, genesis, run, call);
    case _ => ListingRefusals(h, genesis, run, call);
  }
}
