/**
 The bond escrow contract as a state machine: one pure function per entry point. Each takes the state and the
 circumstances of a call and returns the next state with what the caller sees. An error return and a host trap both
 leave the state as it was.
 */
module BondEscrow {
  import opened Basics
  import opened Windows
  import opened Tokens

  type Byte = x: int | 0 <= x < 256
  type Bytes = seq<Byte>
  type Bytes32 = b: Bytes | |b| == 32 witness seq(32, _ => 0)
  type Bytes64 = b: Bytes | |b| == 64 witness seq(64, _ => 0)

  const U32_MAX: nat := 0xFFFF_FFFF
  const U64_MAX: nat := 0xFFFF_FFFF_FFFF_FFFF
  const I128_MAX: int := 0x7FFF_FFFF_FFFF_FFFF_FFFF_FFFF_FFFF_FFFF
  type U32 = x: int | 0 <= x <= U32_MAX
  type U64 = x: int | 0 <= x <= U64_MAX
  type I128 = x: int | -I128_MAX - 1 <= x <= I128_MAX

  const RESPONSE_WINDOW_SECONDS: U64 := 300
  const DUST_FLOOR: I128 := 1
  const DISPUTE_WINDOW_SECONDS: U64 := 86400
  const DISPUTE_RATE_LIMIT_MAX: U32 := 5
  const DISPUTE_RATE_LIMIT_WINDOW_SECONDS: U64 := 3600

  datatype Error =
    | AlreadyInitialized | NotInitialized | SettlementAlreadyRegistered | InvalidAmount | BelowDustFloor
    | TokenMismatch | SellerMismatch | ListingNotFound | ClaimWindowStillOpen | DisputeOpen | NothingToWithdraw
    | SettlementNotFound | NotThePayer | DisputeAlreadyOpen | DisputeRateLimited | DisputeNotFound
    | ResponseWindowElapsed | ResponseWindowStillOpen | NotTheSeller | NoDeliveryKeyRegistered | ClaimWindowElapsed

  datatype Listing = Listing(
    seller: Address, token: Address, bondAmount: I128, lastClaimWindowEnd: U64, openDisputeCount: U32,
    deliveryPubkey: Option<Bytes32>)

  datatype Settlement = Settlement(
    payer: Address, seller: Address, resourceKeyHash: Bytes32, amount: I128, claimDeadline: U64)

  datatype Dispute = Dispute(filedBy: Address, filedAt: U64, resourceKeyHash: Bytes32)

  datatype State = State(
    admin: Option<Address>, listings: map<Bytes32, Listing>, settlements: map<Bytes32, Settlement>,
    disputes: map<Bytes32, Dispute>, logs: map<Address, seq<U64>>, balances: Balances)

  /** The host: the contract's own address and the two cryptographic functions it calls. */
  datatype Host = Host(
    self: Address, sha256: Bytes -> Bytes32, ed25519Verify: (Bytes32, Bytes, Bytes64) -> bool)

  /**
   The circumstances of a call: the ledger time, who signed, and whether the token contract accepts a transfer that
   the sender can afford (a frozen account, say, makes it refuse).
   */
  datatype Context = Context(now: U64, signers: set<Address>, tokenAccepts: bool)

  datatype Outcome = Done(value: I128) | Err(error: Error) | Trap
  datatype Reply = Reply(state: State, outcome: Outcome)

  function SatAdd(a: U64, b: U64): U64 {
    if a + b <= U64_MAX then a + b else U64_MAX
  }

  function SatSub(a: U64, b: U64): U64 {
    if b <= a then a - b else 0
  }

  function SatDec(n: U32): U32 {
    if n == 0 then 0 else n - 1
  }

  function LogOf(s: State, payer: Address): seq<U64> {
    if payer in s.logs then s.logs[payer] else []
  }

  function Initialize(s: State, c: Context, admin: Address): Reply {
    if s.admin.Some? then Reply(s, Err(AlreadyInitialized))
    else if admin !in c.signers then Reply(s, Trap)
    else Reply(s.(admin := Some(admin)), Done(0))
  }

  function RegisterSettlement(h: Host, s: State, c: Context, paymentId: Bytes32, payer: Address, seller: Address,
                              resourceKey: Bytes, amount: I128): Reply {
    if s.admin.None? then Reply(s, Err(NotInitialized))
    else if s.admin.value !in c.signers then Reply(s, Trap)
    else if amount <= 0 then Reply(s, Err(InvalidAmount))
    else if paymentId in s.settlements then Reply(s, Err(SettlementAlreadyRegistered))
    else
      var k := h.sha256(resourceKey);
      var deadline := SatAdd(c.now, DISPUTE_WINDOW_SECONDS);
      var listings :=
        if k in s.listings then s.listings[k := s.listings[k].(lastClaimWindowEnd := deadline)] else s.listings;
      Reply(s.(settlements := s.settlements[paymentId := Settlement(payer, seller, k, amount, deadline)],
               listings := listings), Done(0))
  }

  function Deposit(h: Host, s: State, c: Context, seller: Address, resourceKey: Bytes, token: Address,
                   amount: I128): Reply {
    var k := h.sha256(resourceKey);
    if seller !in c.signers then Reply(s, Trap)
    else if amount <= 0 then Reply(s, Err(InvalidAmount))
    else if amount < DUST_FLOOR then Reply(s, Err(BelowDustFloor))
    else if k in s.listings && s.listings[k].seller != seller then Reply(s, Err(SellerMismatch))
    else if k in s.listings && s.listings[k].token != token then Reply(s, Err(TokenMismatch))
    else
      var listing := if k in s.listings then s.listings[k] else Listing(seller, token, 0, 0, 0, None);
      if Balance(s.balances, token, seller) < amount || !c.tokenAccepts then Reply(s, Trap)
      else if listing.bondAmount + amount > I128_MAX then Reply(s, Trap)
      else
        var bonded := listing.(bondAmount := listing.bondAmount + amount);
        Reply(s.(balances := Move(s.balances, token, seller, h.self, amount),
                 listings := s.listings[k := bonded]), Done(bonded.bondAmount))
  }

  function Withdraw(h: Host, s: State, c: Context, seller: Address, resourceKey: Bytes): Reply {
    var k := h.sha256(resourceKey);
    if seller !in c.signers then Reply(s, Trap)
    else if k !in s.listings then Reply(s, Err(ListingNotFound))
    else
      var listing := s.listings[k];
      if listing.seller != seller then Reply(s, Err(SellerMismatch))
      else if c.now < listing.lastClaimWindowEnd then Reply(s, Err(ClaimWindowStillOpen))
      else if listing.openDisputeCount > 0 then Reply(s, Err(DisputeOpen))
      else if listing.bondAmount <= 0 then Reply(s, Err(NothingToWithdraw))
      else if Balance(s.balances, listing.token, h.self) < listing.bondAmount || !c.tokenAccepts then Reply(s, Trap)
      else Reply(s.(balances := Move(s.balances, listing.token, h.self, seller, listing.bondAmount),
                    listings := s.listings[k := listing.(bondAmount := 0)]), Done(listing.bondAmount))
  }

  /** The filing log after pruning, or None when the payer is over the limit. */
  function RateLimit(log: seq<U64>, now: U64): Option<seq<U64>> {
    var pruned := After(log, SatSub(now, DISPUTE_RATE_LIMIT_WINDOW_SECONDS));
    AfterIsSubset(log, SatSub(now, DISPUTE_RATE_LIMIT_WINDOW_SECONDS));
    if |pruned| >= DISPUTE_RATE_LIMIT_MAX then None else Some(pruned + [now])
  }

  lemma AfterIsSubset(log: seq<U64>, cutoff: int)
    ensures AllIn(After(log, cutoff), 0, U64_MAX)
  {
    AfterContents(log, cutoff, 0, U64_MAX);
  }

  function FileDispute(s: State, c: Context, payer: Address, paymentId: Bytes32): Reply {
    if paymentId !in s.settlements then Reply(s, Err(SettlementNotFound))
    else
      var settlement := s.settlements[paymentId];
      var k := settlement.resourceKeyHash;
      if settlement.payer != payer then Reply(s, Err(NotThePayer))
      else if payer !in c.signers then Reply(s, Trap)
      else if c.now > settlement.claimDeadline then Reply(s, Err(ClaimWindowElapsed))
      else if k !in s.listings then Reply(s, Err(ListingNotFound))
      else if paymentId in s.disputes then Reply(s, Err(DisputeAlreadyOpen))
      else
        var log := RateLimit(LogOf(s, payer), c.now);
        if log.None? then Reply(s, Err(DisputeRateLimited))
        else if s.listings[k].openDisputeCount == U32_MAX then Reply(s, Trap)
        else
          var listing := s.listings[k].(openDisputeCount := s.listings[k].openDisputeCount + 1);
          Reply(s.(logs := s.logs[payer := log.value],
                   disputes := s.disputes[paymentId := Dispute(payer, c.now, k)],
                   listings := s.listings[k := listing]), Done(0))
  }

  function SetDeliveryKey(h: Host, s: State, c: Context, seller: Address, resourceKey: Bytes,
                          pubkey: Bytes32): Reply {
    var k := h.sha256(resourceKey);
    if seller !in c.signers then Reply(s, Trap)
    else if k !in s.listings then Reply(s, Err(ListingNotFound))
    else if s.listings[k].seller != seller then Reply(s, Err(NotTheSeller))
    else Reply(s.(listings := s.listings[k := s.listings[k].(deliveryPubkey := Some(pubkey))]), Done(0))
  }

  /** `n` in big-endian order, `width` bytes wide. */
  function BigEndian(n: nat, width: nat): Bytes {
    if width == 0 then [] else BigEndian(n / 256, width - 1) + [n % 256]
  }

  /** The 72 bytes a seller signs: payment id, response hash, then the timestamp as eight big-endian bytes. */
  function ReceiptMessage(paymentId: Bytes32, responseHash: Bytes32, timestamp: U64): Bytes {
    paymentId + responseHash + BigEndian(timestamp, 8)
  }

  function PostReceipt(h: Host, s: State, c: Context, paymentId: Bytes32, responseHash: Bytes32, timestamp: U64,
                       signature: Bytes64): Reply {
    if paymentId !in s.disputes then Reply(s, Err(DisputeNotFound))
    else
      var dispute := s.disputes[paymentId];
      var k := dispute.resourceKeyHash;
      if k !in s.listings then Reply(s, Err(ListingNotFound))
      else
        var listing := s.listings[k];
        if listing.deliveryPubkey.None? then Reply(s, Err(NoDeliveryKeyRegistered))
        else if c.now >= SatAdd(dispute.filedAt, RESPONSE_WINDOW_SECONDS) then Reply(s, Err(ResponseWindowElapsed))
        else if !h.ed25519Verify(listing.deliveryPubkey.value, ReceiptMessage(paymentId, responseHash, timestamp),
                                 signature) then Reply(s, Trap)
        else Reply(s.(disputes := s.disputes - {paymentId},
                      listings := s.listings[k := listing.(openDisputeCount := SatDec(listing.openDisputeCount))]),
                   Done(0))
  }

  function Finalize(h: Host, s: State, c: Context, paymentId: Bytes32): Reply {
    if paymentId !in s.disputes then Reply(s, Err(DisputeNotFound))
    else if paymentId !in s.settlements then Reply(s, Err(SettlementNotFound))
    else
      var dispute, settlement := s.disputes[paymentId], s.settlements[paymentId];
      var k := dispute.resourceKeyHash;
      if k !in s.listings then Reply(s, Err(ListingNotFound))
      else
        var listing := s.listings[k];
        if c.now < SatAdd(dispute.filedAt, RESPONSE_WINDOW_SECONDS) then Reply(s, Err(ResponseWindowStillOpen))
        else
          var slash := if settlement.amount < listing.bondAmount then settlement.amount else listing.bondAmount;
          if slash > 0 && (Balance(s.balances, listing.token, h.self) < slash || !c.tokenAccepts) then
            Reply(s, Trap)
          else if listing.bondAmount - slash > I128_MAX then Reply(s, Trap)
          else
            var left := listing.(bondAmount := listing.bondAmount - slash,
                                 openDisputeCount := SatDec(listing.openDisputeCount));
            Reply(s.(balances := if slash > 0 then Move(s.balances, listing.token, h.self, settlement.payer, slash)
                                 else s.balances,
                     listings := s.listings[k := left],
                     disputes := s.disputes - {paymentId}), Done(slash))
  }

  /** A token transfer between other parties, or a gift into the contract. The contract itself never signs one. */
  function OutsideTransfer(h: Host, s: State, c: Context, token: Address, from: Address, to: Address,
                           amount: nat): Reply {
    if from !in c.signers || Balance(s.balances, token, from) < amount || !c.tokenAccepts then Reply(s, Trap)
    else Reply(s.(balances := Move(s.balances, token, from, to, amount)), Done(0))
  }

  datatype Op =
    | OpInitialize(admin: Address)
    | OpRegister(paymentId: Bytes32, payer: Address, seller: Address, resourceKey: Bytes, amount: I128)
    | OpDeposit(seller: Address, resourceKey: Bytes, token: Address, amount: I128)
    | OpWithdraw(seller: Address, resourceKey: Bytes)
    | OpFile(payer: Address, paymentId: Bytes32)
    | OpSetKey(seller: Address, resourceKey: Bytes, pubkey: Bytes32)
    | OpReceipt(paymentId: Bytes32, responseHash: Bytes32, timestamp: U64, signature: Bytes64)
    | OpFinalize(paymentId: Bytes32)
    | OpOutside(token: Address, from: Address, to: Address, moved: nat)

  datatype Call = Call(ctx: Context, op: Op)

  function Step(h: Host, s: State, call: Call): Reply {
    var c := call.ctx;
    match call.op
    case OpInitialize(admin) => Initialize(s, c, admin)
    case OpRegister(id, payer, seller, key, amount) => RegisterSettlement(h, s, c, id, payer, seller, key, amount)
    case OpDeposit(seller, key, token, amount) => Deposit(h, s, c, seller, key, token, amount)
    case OpWithdraw(seller, key) => Withdraw(h, s, c, seller, key)
    case OpFile(payer, id) => FileDispute(s, c, payer, id)
    case OpSetKey(seller, key, pubkey) => SetDeliveryKey(h, s, c, seller, key, pubkey)
    case OpReceipt(id, hash, timestamp, sig) => PostReceipt(h, s, c, id, hash, timestamp, sig)
    case OpFinalize(id) => Finalize(h, s, c, id)
    case OpOutside(token, from, to, moved) => OutsideTransfer(h, s, c, token, from, to, moved)
  }

  /** A contract just deployed, on a ledger whose token balances are `genesis`. */
  function Deployed(genesis: Balances): State {
    State(None, map[], map[], map[], map[], genesis)
  }

  function Exec(h: Host, genesis: Balances, run: seq<Call>): State {
    if run == [] then Deployed(genesis)
    else Step(h, Exec(h, genesis, run[..|run| - 1]), run[|run| - 1]).state
  }

  /** The reply to the last call of a run. */
  function LastReply(h: Host, genesis: Balances, run: seq<Call>): Reply
    requires run != []
  {
    Step(h, Exec(h, genesis, run[..|run| - 1]), run[|run| - 1])
  }

  /** The time of the last call; before any call, 0. */
  function Now(run: seq<Call>): U64 {
    if run == [] then 0 else run[|run| - 1].ctx.now
  }

  /** Ledger time never goes back, and the contract, which has no key, signs nothing. */
  ghost predicate ValidRun(h: Host, run: seq<Call>) {
    && (forall i, j :: 0 <= i < j < |run| ==> run[i].ctx.now <= run[j].ctx.now)
    && (forall i :: 0 <= i < |run| ==> h.self !in run[i].ctx.signers)
  }

  lemma ValidPrefix(h: Host, run: seq<Call>)
    requires ValidRun(h, run) && run != []
    ensures ValidRun(h, run[..|run| - 1]) && Now(run[..|run| - 1]) <= Now(run)
    ensures h.self !in run[|run| - 1].ctx.signers
  {
  }
}
