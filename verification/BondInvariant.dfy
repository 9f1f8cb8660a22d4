/**
 What every reachable state of the escrow keeps: the open-dispute count is the number of open disputes, every dispute
 has its settlement and its listing, bonds are not negative, and the money adds up.
 */
module BondInvariant {
  import opened Basics
  import opened Tokens
  import opened BondEscrow

  /** The payment ids with an open dispute against the listing `k`. */
  ghost function DisputesOn(disputes: map<Bytes32, Dispute>, k: Bytes32): set<Bytes32> {
    set id | id in disputes && disputes[id].resourceKeyHash == k
  }

  /** What a listing contributes to the bonds held in `token`. */
  function InToken(l: Listing, token: Address): I128 {
    if l.token == token then l.bondAmount else 0
  }

  ghost function BondIn(token: Address): Listing -> int {
    (l: Listing) => InToken(l, token)
  }

  function BondAt(s: State, k: Bytes32, token: Address): I128 {
    if k in s.listings then InToken(s.listings[k], token) else 0
  }

  /** All bonds of all listings bonded in `token`. */
  ghost function Bonded(s: State, token: Address): int {
    SumBy(s.listings, BondIn(token))
  }

  ghost predicate CountsAreExact(s: State) {
    forall k :: k in s.listings ==>
      s.listings[k].bondAmount >= 0 && s.listings[k].openDisputeCount == |DisputesOn(s.disputes, k)|
  }

  ghost predicate DisputesHaveStanding(s: State, now: U64) {
    forall id :: id in s.disputes ==>
      && id in s.settlements
      && s.settlements[id].payer == s.disputes[id].filedBy
      && s.settlements[id].resourceKeyHash == s.disputes[id].resourceKeyHash
      && s.disputes[id].resourceKeyHash in s.listings
      && s.disputes[id].filedAt <= s.settlements[id].claimDeadline
      && s.disputes[id].filedAt <= now
  }

  ghost predicate SettlementsAreSound(s: State, now: U64) {
    forall id :: id in s.settlements ==>
      s.settlements[id].amount > 0 && s.settlements[id].claimDeadline <= now + DISPUTE_WINDOW_SECONDS
  }

  ghost predicate Covered(h: Host, s: State) {
    forall token :: Bonded(s, token) <= Balance(s.balances, token, h.self)
  }

  ghost predicate Inv(h: Host, s: State, now: U64) {
    CountsAreExact(s) && DisputesHaveStanding(s, now) && SettlementsAreSound(s, now) && Covered(h, s)
  }

  /** How one listing's new record moves the sum of bonds. */
  lemma BondedUpdate(s: State, t: State, k: Bytes32, token: Address)
    requires k in t.listings && t.listings == s.listings[k := t.listings[k]]
    ensures Bonded(t, token) == Bonded(s, token) + InToken(t.listings[k], token) - BondAt(s, k, token)
  {
    SumUpdate(s.listings, k, t.listings[k], BondIn(token));
  }

  /** No listing's bond exceeds what the contract holds of its token. */
  lemma BondIsHeld(h: Host, s: State, k: Bytes32)
    requires CountsAreExact(s) && Covered(h, s) && k in s.listings
    ensures s.listings[k].bondAmount <= Balance(s.balances, s.listings[k].token, h.self)
  {
    var token := s.listings[k].token;
    TermBelowSum(s.listings, k, BondIn(token));
    assert Bonded(s, token) <= Balance(s.balances, token, h.self);
  }

  lemma DisputeOpens(disputes: map<Bytes32, Dispute>, id: Bytes32, d: Dispute, k: Bytes32)
    requires id !in disputes
    ensures |DisputesOn(disputes[id := d], k)| ==
            |DisputesOn(disputes, k)| + if d.resourceKeyHash == k then 1 else 0
  {
    assert DisputesOn(disputes[id := d], k) ==
           DisputesOn(disputes, k) + if d.resourceKeyHash == k then {id} else {};
  }

  lemma DisputeCloses(disputes: map<Bytes32, Dispute>, id: Bytes32, k: Bytes32)
    requires id in disputes
    ensures |DisputesOn(disputes - {id}, k)| ==
            |DisputesOn(disputes, k)| - if disputes[id].resourceKeyHash == k then 1 else 0
  {
    var gone := if disputes[id].resourceKeyHash == k then {id} else {};
    assert DisputesOn(disputes - {id}, k) == DisputesOn(disputes, k) - gone;
    assert gone <= DisputesOn(disputes, k);
  }

  /** A listing with an open dispute counts at least one, so closing it never hits the saturating floor. */
  lemma CountIsPositive(s: State, now: U64, id: Bytes32)
    requires CountsAreExact(s) && DisputesHaveStanding(s, now) && id in s.disputes
    ensures s.listings[s.disputes[id].resourceKeyHash].openDisputeCount > 0
  {
    assert id in DisputesOn(s.disputes, s.disputes[id].resourceKeyHash);
  }

  lemma LaterInv(h: Host, s: State, before: U64, now: U64)
    requires Inv(h, s, before) && before <= now
    ensures Inv(h, s, now)
  {
  }

  lemma CoveredAsBefore(h: Host, s: State, t: State)
    requires Covered(h, s) && t.listings == s.listings && t.balances == s.balances
    ensures Covered(h, t)
  {
    forall token ensures Bonded(t, token) <= Balance(t.balances, token, h.self) {
      assert Bonded(s, token) <= Balance(s.balances, token, h.self);
    }
  }

  /** A call that rewrites one listing keeps the bonds covered if the held tokens follow the bond. */
  lemma CoveredAfter(h: Host, s: State, t: State, k: Bytes32)
    requires Covered(h, s)
    requires k in t.listings && t.listings == s.listings[k := t.listings[k]]
    requires forall token :: Balance(t.balances, token, h.self) - Balance(s.balances, token, h.self) >=
                             InToken(t.listings[k], token) - BondAt(s, k, token)
    ensures Covered(h, t)
  {
    forall token ensures Bonded(t, token) <= Balance(t.balances, token, h.self) {
      assert Bonded(s, token) <= Balance(s.balances, token, h.self);
      BondedUpdate(s, t, k, token);
    }
  }

  lemma RegisterKeepsInv(h: Host, s: State, c: Context, id: Bytes32, payer: Address, seller: Address, key: Bytes,
                         amount: I128, before: U64)
    requires Inv(h, s, before) && before <= c.now
    ensures Inv(h, RegisterSettlement(h, s, c, id, payer, seller, key, amount).state, c.now)
  {
    hide Covered, Bonded;
    LaterInv(h, s, before, c.now);
    var reply := RegisterSettlement(h, s, c, id, payer, seller, key, amount);
    if reply.outcome.Done? {
      var t, k := reply.state, h.sha256(key);
      if k in s.listings {
        CoveredAfter(h, s, t, k);
      } else {
        CoveredAsBefore(h, s, t);
      }
      assert CountsAreExact(t);
      assert DisputesHaveStanding(t, c.now);
    }
  }

  lemma SetKeyKeepsInv(h: Host, s: State, c: Context, seller: Address, key: Bytes, pubkey: Bytes32, before: U64)
    requires Inv(h, s, before) && before <= c.now
    ensures Inv(h, SetDeliveryKey(h, s, c, seller, key, pubkey).state, c.now)
  {
    LaterInv(h, s, before, c.now);
    var reply := SetDeliveryKey(h, s, c, seller, key, pubkey);
    if reply.outcome.Done? {
      CoveredAfter(h, s, reply.state, h.sha256(key));
      assert CountsAreExact(reply.state);
      assert DisputesHaveStanding(reply.state, c.now);
    }
  }

  lemma DepositKeepsInv(h: Host, s: State, c: Context, seller: Address, key: Bytes, tok: Address, amount: I128,
                        before: U64)
    requires Inv(h, s, before) && before <= c.now && h.self !in c.signers
    ensures Inv(h, Deposit(h, s, c, seller, key, tok, amount).state, c.now)
  {
    LaterInv(h, s, before, c.now);
    var reply := Deposit(h, s, c, seller, key, tok, amount);
    if reply.outcome.Done? {
      var t, k := reply.state, h.sha256(key);
      if k !in s.listings { assert DisputesOn(s.disputes, k) == {}; }
      assert CountsAreExact(t);
      assert DisputesHaveStanding(t, c.now);
      CoveredAfter(h, s, t, k);
    }
  }

  lemma WithdrawKeepsInv(h: Host, s: State, c: Context, seller: Address, key: Bytes, before: U64)
    requires Inv(h, s, before) && before <= c.now && h.self !in c.signers
    ensures Inv(h, Withdraw(h, s, c, seller, key).state, c.now)
  {
    LaterInv(h, s, before, c.now);
    var reply := Withdraw(h, s, c, seller, key);
    if reply.outcome.Done? {
      assert CountsAreExact(reply.state);
      assert DisputesHaveStanding(reply.state, c.now);
      CoveredAfter(h, s, reply.state, h.sha256(key));
    }
  }

  lemma FileKeepsInv(h: Host, s: State, c: Context, payer: Address, id: Bytes32, before: U64)
    requires Inv(h, s, before) && before <= c.now
    ensures Inv(h, FileDispute(s, c, payer, id).state, c.now)
  {
    LaterInv(h, s, before, c.now);
    var reply := FileDispute(s, c, payer, id);
    if reply.outcome.Done? {
      var t, k := reply.state, s.settlements[id].resourceKeyHash;
      CoveredAfter(h, s, t, k);
      assert CountsAreExact(t) by {
        forall j | j in t.listings
          ensures t.listings[j].bondAmount >= 0 && t.listings[j].openDisputeCount == |DisputesOn(t.disputes, j)|
        {
          DisputeOpens(s.disputes, id, t.disputes[id], j);
        }
      }
      assert DisputesHaveStanding(t, c.now);
    }
  }

  lemma CountsAfterClose(s: State, t: State, id: Bytes32, k: Bytes32)
    requires CountsAreExact(s) && id in s.disputes && s.disputes[id].resourceKeyHash == k && k in s.listings
    requires t.disputes == s.disputes - {id} && k in t.listings && t.listings == s.listings[k := t.listings[k]]
    requires t.listings[k].bondAmount >= 0
    requires t.listings[k].openDisputeCount == SatDec(s.listings[k].openDisputeCount)
    ensures CountsAreExact(t)
  {
    assert id in DisputesOn(s.disputes, k);
    forall j | j in t.listings
      ensures t.listings[j].bondAmount >= 0 && t.listings[j].openDisputeCount == |DisputesOn(t.disputes, j)|
    {
      DisputeCloses(s.disputes, id, j);
    }
  }

  lemma ReceiptKeepsInv(h: Host, s: State, c: Context, id: Bytes32, hash: Bytes32, ts: U64, sig: Bytes64, before: U64)
    requires Inv(h, s, before) && before <= c.now
    ensures Inv(h, PostReceipt(h, s, c, id, hash, ts, sig).state, c.now)
  {
    LaterInv(h, s, before, c.now);
    var reply := PostReceipt(h, s, c, id, hash, ts, sig);
    if reply.outcome.Done? {
      var k := s.disputes[id].resourceKeyHash;
      CoveredAfter(h, s, reply.state, k);
      CountsAfterClose(s, reply.state, id, k);
      assert DisputesHaveStanding(reply.state, c.now);
    }
  }

  lemma FinalizeKeepsInv(h: Host, s: State, c: Context, id: Bytes32, before: U64)
    requires Inv(h, s, before) && before <= c.now
    ensures Inv(h, Finalize(h, s, c, id).state, c.now)
  {
    LaterInv(h, s, before, c.now);
    var reply := Finalize(h, s, c, id);
    if reply.outcome.Done? {
      var t, k := reply.state, s.disputes[id].resourceKeyHash;
      CountsAfterClose(s, t, id, k);
      assert DisputesHaveStanding(t, c.now);
      FinalizeCovers(h, s, c, id);
      assert SettlementsAreSound(t, c.now);
    }
  }

  lemma FinalizeCovers(h: Host, s: State, c: Context, id: Bytes32)
    requires CountsAreExact(s) && Covered(h, s) && Finalize(h, s, c, id).outcome.Done?
    requires s.settlements[id].amount > 0
    ensures Covered(h, Finalize(h, s, c, id).state)
  {
    var t, k, slash := Finalize(h, s, c, id).state, s.disputes[id].resourceKeyHash, Finalize(h, s, c, id).outcome.value;
    var listing := s.listings[k];
    forall token
      ensures Balance(t.balances, token, h.self) - Balance(s.balances, token, h.self) >=
              InToken(t.listings[k], token) - BondAt(s, k, token)
    {
      assert InToken(t.listings[k], token) - BondAt(s, k, token) == if listing.token == token then -slash else 0;
    }
    CoveredAfter(h, s, t, k);
  }

  lemma OutsideKeepsInv(h: Host, s: State, c: Context, tok: Address, from: Address, to: Address, moved: nat,
                        before: U64)
    requires Inv(h, s, before) && before <= c.now && h.self !in c.signers
    ensures Inv(h, OutsideTransfer(h, s, c, tok, from, to, moved).state, c.now)
  {
    LaterInv(h, s, before, c.now);
    var reply := OutsideTransfer(h, s, c, tok, from, to, moved);
    forall token ensures Bonded(reply.state, token) <= Balance(reply.state.balances, token, h.self) {
      assert Bonded(s, token) <= Balance(s.balances, token, h.self);
    }
  }

  lemma InitializeKeepsInv(h: Host, s: State, c: Context, admin: Address, before: U64)
    requires Inv(h, s, before) && before <= c.now
    ensures Inv(h, Initialize(s, c, admin).state, c.now)
  {
    hide Covered, Bonded;
    LaterInv(h, s, before, c.now);
    CoveredAsBefore(h, s, Initialize(s, c, admin).state);
  }

  /** One call of any kind, at any later time, keeps the invariant. */
  lemma StepKeepsInv(h: Host, s: State, call: Call, before: U64)
    requires Inv(h, s, before) && before <= call.ctx.now && h.self !in call.ctx.signers
    ensures Inv(h, Step(h, s, call).state, call.ctx.now)
  {
    hide Inv, Initialize, RegisterSettlement, Deposit, Withdraw, FileDispute, SetDeliveryKey, PostReceipt, Finalize,
         OutsideTransfer;
    var c := call.ctx;
    match call.op
    case OpInitialize(admin) => InitializeKeepsInv(h, s, c, admin, before);
    case OpRegister(id, payer, seller, key, amount) =>
      RegisterKeepsInv(h, s, c, id, payer, seller, key, amount, before);
    case OpDeposit(seller, key, token, amount) => DepositKeepsInv(h, s, c, seller, key, token, amount, before);
    case OpWithdraw(seller, key) => WithdrawKeepsInv(h, s, c, seller, key, before);
    case OpFile(payer, id) => FileKeepsInv(h, s, c, payer, id, before);
    case OpSetKey(seller, key, pubkey) => SetKeyKeepsInv(h, s, c, seller, key, pubkey, before);
    case OpReceipt(id, hash, timestamp, sig) => ReceiptKeepsInv(h, s, c, id, hash, timestamp, sig, before);
    case OpFinalize(id) => FinalizeKeepsInv(h, s, c, id, before);
    case OpOutside(token, from, to, moved) => OutsideKeepsInv(h, s, c, token, from, to, moved, before);
  }

  /** Every state a run can reach satisfies the invariant. */
  lemma {:induction false} ReachableInv(h: Host, genesis: Balances, run: seq<Call>)
    requires ValidRun(h, run)
    ensures Inv(h, Exec(h, genesis, run), Now(run))
  {
    hide Step;
    if run == [] {
    } else {
      ValidPrefix(h, run);
      ReachableInv(h, genesis, run[..|run| - 1]);
      StepKeepsInv(h, Exec(h, genesis, run[..|run| - 1]), run[|run| - 1], Now(run[..|run| - 1]));
    }
  }
}
