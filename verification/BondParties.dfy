/** Who a listing belongs to over a whole run, whose key defends it, and where its bond goes. */
module BondParties {
  import opened Basics
  import opened Tokens
  import opened BondEscrow

  /** The call went through and was for `k`. */
  predicate Hits(h: Host, s: State, call: Call, k: Bytes32) {
    && Step(h, s, call).outcome.Done?
    && (call.op.OpDeposit? || call.op.OpSetKey? || call.op.OpWithdraw?) && h.sha256(call.op.resourceKey) == k
  }

  /** The last call of the run succeeded and was for the resource with hash `k`. */
  ghost predicate Touches(h: Host, genesis: Balances, run: seq<Call>, k: Bytes32) {
    run != [] && Hits(h, Exec(h, genesis, run[..|run| - 1]), run[|run| - 1], k)
  }

  /** Who deposited first for `k`, and in which token. */
  ghost function FirstDeposit(h: Host, genesis: Balances, run: seq<Call>, k: Bytes32): Option<(Address, Address)> {
    if run == [] then None
    else
      var before, op := FirstDeposit(h, genesis, run[..|run| - 1], k), run[|run| - 1].op;
      if before.None? && op.OpDeposit? && Touches(h, genesis, run, k) then Some((op.seller, op.token)) else before
  }

  /** The delivery key last registered for `k`. */
  ghost function LastKey(h: Host, genesis: Balances, run: seq<Call>, k: Bytes32): Option<Bytes32> {
    if run == [] then None
    else
      var op := run[|run| - 1].op;
      if op.OpSetKey? && Touches(h, genesis, run, k) then Some(op.pubkey)
      else LastKey(h, genesis, run[..|run| - 1], k)
  }

  ghost predicate SameParties(s: State, t: State, k: Bytes32) {
    && (k in t.listings <==> k in s.listings)
    && (k in s.listings ==> t.listings[k].seller == s.listings[k].seller && t.listings[k].token == s.listings[k].token
                            && t.listings[k].deliveryPubkey == s.listings[k].deliveryPubkey)
  }

  lemma OthersKeepParties(h: Host, s: State, call: Call, k: Bytes32)
    requires !Hits(h, s, call, k)
    ensures SameParties(s, Step(h, s, call).state, k)
  {
    if Step(h, s, call).outcome.Done? {
      match call.op
      case OpInitialize(_) =>
      case OpRegister(_, _, _, _, _) =>
      case OpDeposit(_, _, _, _) =>
      case OpWithdraw(_, _) =>
      case OpFile(_, _) =>
      case OpSetKey(_, _, _) =>
      case OpReceipt(_, _, _, _) =>
      case OpFinalize(_) =>
      case OpOutside(_, _, _, _) =>
    }
  }

  /** What a call for `k` does to the parties of its listing. */
  lemma HitParties(h: Host, s: State, call: Call, k: Bytes32)
    requires Hits(h, s, call, k)
    ensures var t, op := Step(h, s, call).state, call.op;
            && k in t.listings && (k in s.listings || op.OpDeposit?)
            && op.seller in call.ctx.signers && t.listings[k].seller == op.seller
            && (op.OpDeposit? ==> t.listings[k].token == op.token)
            && (k in s.listings ==> t.listings[k].seller == s.listings[k].seller
                                    && t.listings[k].token == s.listings[k].token)
            && t.listings[k].deliveryPubkey ==
                 if op.OpSetKey? then Some(op.pubkey)
                 else if k in s.listings then s.listings[k].deliveryPubkey else None
  {
    hide Initialize, RegisterSettlement, FileDispute, PostReceipt, Finalize, OutsideTransfer;
  }

  /**
   A listing belongs to its first depositor for good, in the first depositor's token, and its delivery key is the one
   last registered: no other call of the run touches them.
   */
  lemma {:induction false} PartiesMatchHistory(h: Host, genesis: Balances, run: seq<Call>, k: Bytes32)
    ensures var s, first := Exec(h, genesis, run), FirstDeposit(h, genesis, run, k);
            && (k in s.listings <==> first.Some?)
            && (k in s.listings ==>
                  && (s.listings[k].seller, s.listings[k].token) == first.value
                  && s.listings[k].deliveryPubkey == LastKey(h, genesis, run, k))
            && (k !in s.listings ==> LastKey(h, genesis, run, k) == None)
  {
    hide Step;
    if run == [] {
    } else {
      PartiesMatchHistory(h, genesis, run[..|run| - 1], k);
      var s, call := Exec(h, genesis, run[..|run| - 1]), run[|run| - 1];
      if Hits(h, s, call, k) { HitParties(h, s, call, k); } else { OthersKeepParties(h, s, call, k); }
    }
  }

  /** Event `j` registers a delivery key for `k`, signed by the seller. */
  ghost predicate RegistersKey(h: Host, run: seq<Call>, j: int, k: Bytes32, seller: Address, pubkey: Bytes32) {
    && 0 <= j < |run| && run[j].op.OpSetKey? && h.sha256(run[j].op.resourceKey) == k
    && run[j].op.seller == seller && seller in run[j].ctx.signers && run[j].op.pubkey == pubkey
  }

  ghost predicate WasRegistered(h: Host, run: seq<Call>, k: Bytes32, seller: Address, pubkey: Bytes32) {
    exists j :: RegistersKey(h, run, j, k, seller, pubkey)
  }

  lemma {:induction false} KeyWasRegistered(h: Host, genesis: Balances, run: seq<Call>, k: Bytes32)
    ensures var first, key := FirstDeposit(h, genesis, run, k), LastKey(h, genesis, run, k);
            key.Some? ==> first.Some? && WasRegistered(h, run, k, first.value.0, key.value)
  {
    hide Step;
    if run == [] {
    } else {
      var n := |run| - 1;
      var prefix := run[..n];
      KeyWasRegistered(h, genesis, prefix, k);
      PartiesMatchHistory(h, genesis, prefix, k);
      PartiesMatchHistory(h, genesis, run, k);
      var s := Exec(h, genesis, prefix);
      if Hits(h, s, run[n], k) { HitParties(h, s, run[n], k); }
      if run[n].op.OpSetKey? && Touches(h, genesis, run, k) {
        assert RegistersKey(h, run, n, k, FirstDeposit(h, genesis, run, k).value.0, run[n].op.pubkey);
      } else if LastKey(h, genesis, run, k).Some? {
        var j :| RegistersKey(h, prefix, j, k, FirstDeposit(h, genesis, prefix, k).value.0,
                              LastKey(h, genesis, prefix, k).value);
        assert RegistersKey(h, run, j, k, FirstDeposit(h, genesis, run, k).value.0, LastKey(h, genesis, run, k).value);
      }
    }
  }

  lemma ReceiptPassed(h: Host, s: State, call: Call)
    requires call.op.OpReceipt? && Step(h, s, call).outcome.Done?
    ensures var op, id := call.op, call.op.paymentId;
            && id in s.disputes && s.disputes[id].resourceKeyHash in s.listings
            && call.ctx.now < SatAdd(s.disputes[id].filedAt, RESPONSE_WINDOW_SECONDS)
            && s.listings[s.disputes[id].resourceKeyHash].deliveryPubkey.Some?
            && h.ed25519Verify(s.listings[s.disputes[id].resourceKeyHash].deliveryPubkey.value,
                               ReceiptMessage(id, op.responseHash, op.timestamp), op.signature)
  {
  }

  /**
   A dispute is only ever defeated by its seller. When the last call of a run posts a receipt that goes through, it came
   inside the response window, and its signature over this very payment verifies under a key that the first depositor of
   the disputed listing registered, by a signed call, earlier in the run.
   */
  lemma ReceiptsAreTheSellers(h: Host, genesis: Balances, run: seq<Call>)
    requires run != [] && run[|run| - 1].op.OpReceipt? && LastReply(h, genesis, run).outcome.Done?
    ensures var s, op, now := Exec(h, genesis, run[..|run| - 1]), run[|run| - 1].op, run[|run| - 1].ctx.now;
            && op.paymentId in s.disputes
            && var k := s.disputes[op.paymentId].resourceKeyHash;
               var first := FirstDeposit(h, genesis, run[..|run| - 1], k);
               var key := LastKey(h, genesis, run[..|run| - 1], k);
               && now < SatAdd(s.disputes[op.paymentId].filedAt, RESPONSE_WINDOW_SECONDS)
               && first.Some? && key.Some?
               && WasRegistered(h, run[..|run| - 1], k, first.value.0, key.value)
               && h.ed25519Verify(key.value, ReceiptMessage(op.paymentId, op.responseHash, op.timestamp), op.signature)
  {
    hide Step;
    var prefix := run[..|run| - 1];
    ReceiptPassed(h, Exec(h, genesis, prefix), run[|run| - 1]);
    var k := Exec(h, genesis, prefix).disputes[run[|run| - 1].op.paymentId].resourceKeyHash;
    PartiesMatchHistory(h, genesis, prefix, k);
    KeyWasRegistered(h, genesis, prefix, k);
  }

  /** A withdrawal pays the whole bond to the first depositor, who signed for it, and to nobody else. */
  lemma WithdrawalPaysTheDepositor(h: Host, genesis: Balances, run: seq<Call>, who: Address)
    requires run != [] && run[|run| - 1].op.OpWithdraw? && LastReply(h, genesis, run).outcome.Done?
    requires h.self !in run[|run| - 1].ctx.signers && who != h.self
    ensures var s, call := Exec(h, genesis, run[..|run| - 1]), run[|run| - 1];
            var k := h.sha256(call.op.resourceKey);
            var first := FirstDeposit(h, genesis, run[..|run| - 1], k);
            && k in s.listings && first.Some? && first.value.0 in call.ctx.signers
            && var t, token := Exec(h, genesis, run), first.value.1;
               Balance(t.balances, token, who) == Balance(s.balances, token, who)
                                                  + if who == first.value.0 then s.listings[k].bondAmount else 0
  {
    var s, call := Exec(h, genesis, run[..|run| - 1]), run[|run| - 1];
    PartiesMatchHistory(h, genesis, run[..|run| - 1], h.sha256(call.op.resourceKey));
    assert Exec(h, genesis, run) == Withdraw(h, s, call.ctx, call.op.seller, call.op.resourceKey).state;
  }
}
