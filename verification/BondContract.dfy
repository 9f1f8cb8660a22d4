/**
 The contract itself: storage records updated in place, entry point by entry point. Every method is proved to take its
 record fields through the step of the state machine, so all run theorems hold of it.
 */
module BondContract {
  import opened Basics
  import opened Windows
  import opened Tokens
  import opened BondEscrow

  class BondEscrowContract {
    const host: Host
    var admin: Option<Address>
    var listings: map<Bytes32, Listing>
    var settlements: map<Bytes32, Settlement>
    var disputes: map<Bytes32, Dispute>
    var disputeLogs: map<Address, seq<U64>>
    /** The token contracts' balances, which this contract moves only through transfers. */
    var balances: Balances

    /** The records as one value. */
    ghost function Abs(): State
      reads this
    {
      State(admin, listings, settlements, disputes, disputeLogs, balances)
    }

    constructor (host: Host, genesis: Balances)
      ensures this.host == host && Abs() == Deployed(genesis)
    {
      this.host := host;
      admin, listings, settlements, disputes, disputeLogs := None, map[], map[], map[], map[];
      balances := genesis;
    }

    method Transfer(token: Address, from: Address, to: Address, amount: nat, accepts: bool) returns (ok: bool)
      modifies this`balances
      ensures ok == (amount <= Balance(old(balances), token, from) && accepts)
      ensures balances == if ok then Move(old(balances), token, from, to, amount) else old(balances)
    {
      ok := amount <= Balance(balances, token, from) && accepts;
      if ok {
        balances := balances[(token, from) := Balance(balances, token, from) - amount];
        balances := balances[(token, to) := Balance(balances, token, to) + amount];
      }
    }

    method DoInitialize(c: Context, newAdmin: Address) returns (r: Outcome)
      modifies this
      ensures Reply(Abs(), r) == Initialize(old(Abs()), c, newAdmin)
    {
      if admin.Some? { return Err(AlreadyInitialized); }
      if newAdmin !in c.signers { return Trap; }
      admin := Some(newAdmin);
      return Done(0);
    }

    method DoRegisterSettlement(c: Context, paymentId: Bytes32, payer: Address, seller: Address, resourceKey: Bytes,
                                amount: I128) returns (r: Outcome)
      modifies this
      ensures Reply(Abs(), r) == RegisterSettlement(host, old(Abs()), c, paymentId, payer, seller, resourceKey, amount)
    {
      if admin.None? { return Err(NotInitialized); }
      if admin.value !in c.signers { return Trap; }
      if amount <= 0 { return Err(InvalidAmount); }
      if paymentId in settlements { return Err(SettlementAlreadyRegistered); }
      var k := host.sha256(resourceKey);
      var claimDeadline := SatAdd(c.now, DISPUTE_WINDOW_SECONDS);
      settlements := settlements[paymentId := Settlement(payer, seller, k, amount, claimDeadline)];
      if k in listings {
        listings := listings[k := listings[k].(lastClaimWindowEnd := SatAdd(c.now, DISPUTE_WINDOW_SECONDS))];
      }
      return Done(0);
    }

    method DoDeposit(c: Context, seller: Address, resourceKey: Bytes, token: Address, amount: I128)
      returns (r: Outcome)
      modifies this
      ensures Reply(Abs(), r) == Deposit(host, old(Abs()), c, seller, resourceKey, token, amount)
    {
      if seller !in c.signers { return Trap; }
      if amount <= 0 { return Err(InvalidAmount); }
      if amount < DUST_FLOOR { return Err(BelowDustFloor); }
      var k := host.sha256(resourceKey);
      var listing := Listing(seller, token, 0, 0, 0, None);
      if k in listings {
        if listings[k].seller != seller { return Err(SellerMismatch); }
        if listings[k].token != token { return Err(TokenMismatch); }
        listing := listings[k];
      }
      var before := balances;
      var ok := Transfer(token, seller, host.self, amount, c.tokenAccepts);
      if !ok { return Trap; }
      if listing.bondAmount + amount > I128_MAX {
        balances := before;  // the host rolls the transfer back
        return Trap;
      }
      listing := listing.(bondAmount := listing.bondAmount + amount);
      listings := listings[k := listing];
      return Done(listing.bondAmount);
    }

    method DoWithdraw(c: Context, seller: Address, resourceKey: Bytes) returns (r: Outcome)
      modifies this
      ensures Reply(Abs(), r) == Withdraw(host, old(Abs()), c, seller, resourceKey)
    {
      if seller !in c.signers { return Trap; }
      var k := host.sha256(resourceKey);
      if k !in listings { return Err(ListingNotFound); }
      var listing := listings[k];
      if listing.seller != seller { return Err(SellerMismatch); }
      if c.now < listing.lastClaimWindowEnd { return Err(ClaimWindowStillOpen); }
      if listing.openDisputeCount > 0 { return Err(DisputeOpen); }
      var amount := listing.bondAmount;
      if amount <= 0 { return Err(NothingToWithdraw); }
      var before := listings;
      listings := listings[k := listing.(bondAmount := 0)];
      var ok := Transfer(listing.token, host.self, seller, amount, c.tokenAccepts);
      if !ok {
        listings := before;  // the host rolls the record back
        return Trap;
      }
      return Done(amount);
    }

    /** Prune the payer's log by one pass over it, and record this filing unless the window is full. */
    method EnforceAndRecordRateLimit(payer: Address, now: U64) returns (limited: bool)
      modifies this`disputeLogs
      ensures limited == RateLimit(LogOf(old(Abs()), payer), now).None?
      ensures disputeLogs == if limited then old(disputeLogs)
                             else old(disputeLogs)[payer := RateLimit(LogOf(old(Abs()), payer), now).value]
    {
      var existing: seq<U64> := if payer in disputeLogs then disputeLogs[payer] else [];
      var windowStart := SatSub(now, DISPUTE_RATE_LIMIT_WINDOW_SECONDS);
      var pruned: seq<U64> := [];
      for i := 0 to |existing|
        invariant pruned == After(existing[..i], windowStart)
      {
        assert existing[..i + 1][..i] == existing[..i];
        if existing[i] > windowStart { pruned := pruned + [existing[i]]; }
      }
      assert existing[..|existing|] == existing;
      if |pruned| >= DISPUTE_RATE_LIMIT_MAX { return true; }
      disputeLogs := disputeLogs[payer := pruned + [now]];
      return false;
    }

    method DoFileDispute(c: Context, payer: Address, paymentId: Bytes32) returns (r: Outcome)
      modifies this
      ensures Reply(Abs(), r) == FileDispute(old(Abs()), c, payer, paymentId)
    {
      if paymentId !in settlements { return Err(SettlementNotFound); }
      var settlement := settlements[paymentId];
      if settlement.payer != payer { return Err(NotThePayer); }
      if payer !in c.signers { return Trap; }
      if c.now > settlement.claimDeadline { return Err(ClaimWindowElapsed); }
      var k := settlement.resourceKeyHash;
      if k !in listings { return Err(ListingNotFound); }
      if paymentId in disputes { return Err(DisputeAlreadyOpen); }
      var before := disputeLogs;
      var limited := EnforceAndRecordRateLimit(payer, c.now);
      if limited { return Err(DisputeRateLimited); }
      if listings[k].openDisputeCount == U32_MAX {
        disputeLogs := before;  // the host rolls the log back
        return Trap;
      }
      disputes := disputes[paymentId := Dispute(payer, c.now, k)];
      listings := listings[k := listings[k].(openDisputeCount := listings[k].openDisputeCount + 1)];
      return Done(0);
    }

    method DoSetDeliveryKey(c: Context, seller: Address, resourceKey: Bytes, pubkey: Bytes32) returns (r: Outcome)
      modifies this
      ensures Reply(Abs(), r) == SetDeliveryKey(host, old(Abs()), c, seller, resourceKey, pubkey)
    {
      if seller !in c.signers { return Trap; }
      var k := host.sha256(resourceKey);
      if k !in listings { return Err(ListingNotFound); }
      if listings[k].seller != seller { return Err(NotTheSeller); }
      listings := listings[k := listings[k].(deliveryPubkey := Some(pubkey))];
      return Done(0);
    }

    method DoPostReceipt(c: Context, paymentId: Bytes32, responseHash: Bytes32, timestamp: U64, signature: Bytes64)
      returns (r: Outcome)
      modifies this
      ensures Reply(Abs(), r) == PostReceipt(host, old(Abs()), c, paymentId, responseHash, timestamp, signature)
    {
      if paymentId !in disputes { return Err(DisputeNotFound); }
      var dispute := disputes[paymentId];
      var k := dispute.resourceKeyHash;
      if k !in listings { return Err(ListingNotFound); }
      var listing := listings[k];
      if listing.deliveryPubkey.None? { return Err(NoDeliveryKeyRegistered); }
      if c.now >= SatAdd(dispute.filedAt, RESPONSE_WINDOW_SECONDS) { return Err(ResponseWindowElapsed); }
      var message := ReceiptMessage(paymentId, responseHash, timestamp);
      if !host.ed25519Verify(listing.deliveryPubkey.value, message, signature) { return Trap; }
      disputes := disputes - {paymentId};
      listings := listings[k := listing.(openDisputeCount := SatDec(listing.openDisputeCount))];
      return Done(0);
    }

    method DoFinalize(c: Context, paymentId: Bytes32) returns (r: Outcome)
      modifies this
      ensures Reply(Abs(), r) == Finalize(host, old(Abs()), c, paymentId)
    {
      if paymentId !in disputes { return Err(DisputeNotFound); }
      if paymentId !in settlements { return Err(SettlementNotFound); }
      var dispute, settlement := disputes[paymentId], settlements[paymentId];
      var k := dispute.resourceKeyHash;
      if k !in listings { return Err(ListingNotFound); }
      var listing := listings[k];
      if c.now < SatAdd(dispute.filedAt, RESPONSE_WINDOW_SECONDS) { return Err(ResponseWindowStillOpen); }
      var slashAmount := if settlement.amount < listing.bondAmount then settlement.amount else listing.bondAmount;
      var before := balances;
      if slashAmount > 0 {
        var ok := Transfer(listing.token, host.self, settlement.payer, slashAmount, c.tokenAccepts);
        if !ok { return Trap; }
      }
      if listing.bondAmount - slashAmount > I128_MAX {
        balances := before;  // the host rolls the transfer back
        return Trap;
      }
      listing := listing.(bondAmount := listing.bondAmount - slashAmount);
      listing := listing.(openDisputeCount := SatDec(listing.openDisputeCount));
      listings := listings[k := listing];
      disputes := disputes - {paymentId};
      return Done(slashAmount);
    }
  }
}
