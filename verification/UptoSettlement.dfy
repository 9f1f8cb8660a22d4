/**
 The `upto` settlement contract. Replay protection rests on a temporary record that the ledger may drop, so single use
 is a fact about whole runs: calls, ledger advances and removals of expired records in any order.
 */
module UptoSettlement {
  import opened Basics
  import opened Tokens

  type Nonce = string

  /** What a buyer signs. The amount actually charged is not part of it. */
  datatype Authorization = Authorization(
    token: Address, from: Address, to: Address, maxAmount: int, expirationLedger: nat, nonce: Nonce)

  datatype Allowance = Allowance(amount: int, expirationLedger: nat)

  /** By (token, owner, spender). */
  type Allowances = map<(Address, Address, Address), Allowance>

  /** The contract's own address, and the ledger's shortest and longest life of a temporary record, in ledgers. */
  datatype Host = Host(self: Address, minTtl: nat, maxTtl: nat)

  datatype State = State(
    sequence: nat,
    /** The live records, each with the last ledger it is guaranteed to be there. */
    nonces: map<(Address, Nonce), nat>,
    balances: Balances,
    allowances: Allowances)

  /** Which authorizations are signed, and whether the token accepts the two calls made to it. */
  datatype Context = Context(signed: set<Authorization>, tokenAccepts: bool)

  function Max(a: int, b: int): int {
    if a < b then b else a
  }

  /** How long the record of a nonce written at `sequence` lives, after the extension to the expiry. */
  function LiveUntil(h: Host, sequence: nat, expiration: nat): int {
    Max(sequence + h.minTtl - 1, expiration)
  }

  /** Why a settlement panics, in the order of the checks; a panic reverts everything. */
  datatype Outcome =
    | Settled | Unauthorized | NegativeAmount | AboveCeiling | Expired | NonceUsed | TtlTooLong | TokenRefused

  /** The token's `approve`: what the spender was allowed before does not matter. */
  function Approve(before: Allowances, token: Address, from: Address, spender: Address, amount: int, expiration: nat)
    : Allowances
  {
    before[(token, from, spender) := Allowance(amount, expiration)]
  }

  /** What the spender may draw now: nothing without an allowance, or after its expiry. */
  function Granted(all: Allowances, token: Address, from: Address, spender: Address, sequence: nat): int {
    var key := (token, from, spender);
    if key in all && sequence <= all[key].expirationLedger then all[key].amount else 0
  }

  /** The token's `transfer_from`: draws on the allowance and moves the amount, or None. */
  function TransferFrom(all: Allowances, b: Balances, token: Address, spender: Address, from: Address, to: Address,
                        amount: nat, sequence: nat): (r: Option<(Allowances, Balances)>)
  {
    if Granted(all, token, from, spender, sequence) < amount || Balance(b, token, from) < amount then None
    else
      var key := (token, from, spender);
      var left := if key in all then all[key := all[key].(amount := all[key].amount - amount)] else all;
      Some((left, Move(b, token, from, to, amount)))
  }

  /** Approve the ceiling, then draw the metered amount. */
  function Payment(h: Host, s: State, a: Authorization, actual: nat): Option<(Allowances, Balances)> {
    var approved := Approve(s.allowances, a.token, a.from, h.self, a.maxAmount, a.expirationLedger);
    TransferFrom(approved, s.balances, a.token, h.self, a.from, a.to, actual, s.sequence)
  }

  function Check(h: Host, s: State, c: Context, a: Authorization, actual: int): Outcome {
    if a !in c.signed then Unauthorized
    else if actual < 0 then NegativeAmount
    else if actual > a.maxAmount then AboveCeiling
    else if s.sequence > a.expirationLedger then Expired
    else if (a.from, a.nonce) in s.nonces then NonceUsed
    else if a.expirationLedger > s.sequence && a.expirationLedger > s.sequence + h.maxTtl - 1 then TtlTooLong
    else if !c.tokenAccepts || Payment(h, s, a, actual).None? then TokenRefused
    else Settled
  }

  function Settle(h: Host, s: State, c: Context, a: Authorization, actual: int): State
    requires h.minTtl > 0
  {
    if Check(h, s, c, a, actual) != Settled then s
    else
      var (allowances, balances) := Payment(h, s, a, actual).value;
      s.(nonces := s.nonces[(a.from, a.nonce) := LiveUntil(h, s.sequence, a.expirationLedger)],
         allowances := allowances, balances := balances)
  }

  function IsUsed(s: State, from: Address, nonce: Nonce): bool {
    (from, nonce) in s.nonces
  }

  datatype Event =
    | Call(ctx: Context, auth: Authorization, actual: int)
    | Advance(ledgers: nat)
    | Drop(from: Address, nonce: Nonce)

  function Step(h: Host, s: State, e: Event): State
    requires h.minTtl > 0
  {
    match e
    case Call(c, a, actual) => Settle(h, s, c, a, actual)
    case Advance(n) => s.(sequence := s.sequence + n)
    case Drop(from, nonce) =>
      if (from, nonce) in s.nonces && s.nonces[(from, nonce)] < s.sequence
      then s.(nonces := s.nonces - {(from, nonce)}) else s
  }

  function Exec(h: Host, start: State, run: seq<Event>): State
    requires h.minTtl > 0
  {
    if run == [] then start else Step(h, Exec(h, start, run[..|run| - 1]), run[|run| - 1])
  }

  /** Event `i` of the run is a settlement that went through. */
  ghost predicate Succeeds(h: Host, start: State, run: seq<Event>, i: int)
    requires h.minTtl > 0
  {
    && 0 <= i < |run| && run[i].Call?
    && Check(h, Exec(h, start, run[..i]), run[i].ctx, run[i].auth, run[i].actual) == Settled
  }

  /** The contract has no key: it never signs as a buyer. */
  ghost predicate NeverSigns(h: Host, run: seq<Event>) {
    forall i, a :: 0 <= i < |run| && run[i].Call? && a in run[i].ctx.signed ==> a.from != h.self
  }

  // ---- Single use ----

  /** After a settlement, the nonce's record stays for as long as the authorization could still be settled. */
  lemma {:induction false} NonceOutlivesAuthorization(h: Host, start: State, run: seq<Event>, i: nat)
    requires h.minTtl > 0 && Succeeds(h, start, run, i)
    ensures var s, a := Exec(h, start, run), run[i].auth;
            s.sequence <= a.expirationLedger ==>
              IsUsed(s, a.from, a.nonce) && s.nonces[(a.from, a.nonce)] >= a.expirationLedger
  {
    var prefix := run[..|run| - 1];
    if i == |run| - 1 {
    } else {
      assert prefix[..i] == run[..i];
      NonceOutlivesAuthorization(h, start, prefix, i);
    }
  }

  /**
   Single use. If two settlements of a run succeed with the same payer and nonce, the ledger of the later one is
   strictly past the expiry of the earlier one.
   */
  lemma SecondUseIsAfterExpiry(h: Host, start: State, run: seq<Event>, i: nat, j: nat)
    requires h.minTtl > 0 && i < j && Succeeds(h, start, run, i) && Succeeds(h, start, run, j)
    requires run[i].auth.from == run[j].auth.from && run[i].auth.nonce == run[j].auth.nonce
    ensures Exec(h, start, run[..j]).sequence > run[i].auth.expirationLedger
  {
    assert run[..j][..i] == run[..i];
    NonceOutlivesAuthorization(h, start, run[..j], i);
  }

  /** Two successes of one authorization never happen: the second would be past its own expiry. */
  lemma AuthorizationSettlesOnce(h: Host, start: State, run: seq<Event>, i: nat, j: nat)
    requires h.minTtl > 0 && Succeeds(h, start, run, i) && Succeeds(h, start, run, j) && run[i].auth == run[j].auth
    ensures i == j
  {
    if i < j { SecondUseIsAfterExpiry(h, start, run, i, j); }
    if j < i { SecondUseIsAfterExpiry(h, start, run, j, i); }
  }

  lemma SuccessIsInRange(h: Host, start: State, run: seq<Event>, i: nat)
    requires h.minTtl > 0 && Succeeds(h, start, run, i)
    ensures 0 <= run[i].actual <= run[i].auth.maxAmount
  {
  }

  /** All that a run moved under one authorization. */
  ghost function Moved(h: Host, start: State, run: seq<Event>, a: Authorization): int
    requires h.minTtl > 0
  {
    if run == [] then 0
    else
      var last := |run| - 1;
      Moved(h, start, run[..last], a) +
      if Succeeds(h, start, run, last) && run[last].auth == a then run[last].actual else 0
  }

  lemma {:induction false} MovedOnce(h: Host, start: State, run: seq<Event>, a: Authorization)
    requires h.minTtl > 0
    ensures 0 <= Moved(h, start, run, a) <= Max(0, a.maxAmount)
    ensures Moved(h, start, run, a) > 0 ==> exists i :: Succeeds(h, start, run, i) && run[i].auth == a
  {
    if run == [] {
    } else {
      var last, prefix := |run| - 1, run[..|run| - 1];
      MovedOnce(h, start, prefix, a);
      hide Step, Check;
      if i: nat :| Succeeds(h, start, prefix, i) && prefix[i].auth == a {
        assert prefix[..i] == run[..i];
        assert Succeeds(h, start, run, i) && run[i].auth == a;
        if Succeeds(h, start, run, last) && run[last].auth == a { AuthorizationSettlesOnce(h, start, run, i, last); }
      } else if Succeeds(h, start, run, last) && run[last].auth == a {
        SuccessIsInRange(h, start, run, last);
      }
    }
  }

  /** The ceiling: over a whole run, one authorization moves at most the amount the buyer signed. */
  lemma CeilingHoldsForever(h: Host, start: State, run: seq<Event>, a: Authorization)
    requires h.minTtl > 0
    ensures 0 <= Moved(h, start, run, a) <= Max(0, a.maxAmount)
  {
    MovedOnce(h, start, run, a);
  }

  // ---- When a settlement goes through ----

  /** The ledger can keep the record until the expiry. */
  predicate Keepable(h: Host, s: State, expiration: nat) {
    expiration <= s.sequence || expiration <= s.sequence + h.maxTtl - 1
  }

  /**
   A settlement goes through if and only if it is signed, its amount is within the ceiling, it has not expired, this
   very nonce of this payer has no live record, the ledger can keep the record so long, the token accepts, and the
   payer has the amount. No other use of the payer's nonces or allowances is in its way.
   */
  lemma SettlesExactly(h: Host, s: State, c: Context, a: Authorization, actual: int)
    ensures Check(h, s, c, a, actual) == Settled <==>
              && a in c.signed && 0 <= actual <= a.maxAmount && s.sequence <= a.expirationLedger
              && (a.from, a.nonce) !in s.nonces && Keepable(h, s, a.expirationLedger)
              && c.tokenAccepts && actual <= Balance(s.balances, a.token, a.from)
  {
    hide Payment;
    if actual >= 0 { SamePayment(h, s, a, actual, s.allowances); }
  }

  /** Every panic names a cause that holds. */
  lemma RefusalsAreTrue(h: Host, s: State, c: Context, a: Authorization, actual: int)
    ensures match Check(h, s, c, a, actual)
            case Settled => true
            case Unauthorized => a !in c.signed
            case NegativeAmount => actual < 0
            case AboveCeiling => actual > a.maxAmount
            case Expired => s.sequence > a.expirationLedger
            case NonceUsed => IsUsed(s, a.from, a.nonce)
            case TtlTooLong => !Keepable(h, s, a.expirationLedger)
            case TokenRefused => !c.tokenAccepts || Balance(s.balances, a.token, a.from) < actual
  {
    hide Payment;
    if actual >= 0 { SamePayment(h, s, a, actual, s.allowances); }
  }

  /** A nonce is used only by a settlement that went through with it. */
  lemma {:induction false} UsedBySettling(h: Host, start: State, run: seq<Event>, from: Address, nonce: Nonce)
    returns (i: int)
    requires h.minTtl > 0 && !IsUsed(start, from, nonce) && IsUsed(Exec(h, start, run), from, nonce)
    ensures Succeeds(h, start, run, i) && run[i].auth.from == from && run[i].auth.nonce == nonce
  {
    var prefix := run[..|run| - 1];
    i := |run| - 1;
    if !IsUsed(Exec(h, start, prefix), from, nonce) {
    } else {
      i := UsedBySettling(h, start, prefix, from, nonce);
      assert prefix[..i] == run[..i];
    }
  }

  /**
   What a settlement leaves: the nonce's record, which lives to the expiry or for the ledger's shortest life if that is
   longer; the rest of the ceiling as the contract's allowance; and every other record and allowance as it was.
   */
  lemma SettlementLeaves(h: Host, s: State, c: Context, a: Authorization, actual: int)
    requires h.minTtl > 0 && Check(h, s, c, a, actual) == Settled
    ensures var t, shortest := Settle(h, s, c, a, actual), s.sequence + h.minTtl - 1;
            && t.sequence == s.sequence
            && t.nonces == s.nonces[(a.from, a.nonce) :=
                                      if shortest < a.expirationLedger then a.expirationLedger else shortest]
            && t.allowances == s.allowances[(a.token, a.from, h.self) :=
                                              Allowance(a.maxAmount - actual, a.expirationLedger)]
  {
  }

  // ---- No custody ----

  /** What a run paid to the contract's own address as a recipient. */
  ghost function Received(h: Host, start: State, run: seq<Event>, token: Address): int
    requires h.minTtl > 0
  {
    if run == [] then 0
    else
      var last := |run| - 1;
      Received(h, start, run[..last], token) +
      if Succeeds(h, start, run, last) && run[last].auth.token == token && run[last].auth.to == h.self
      then run[last].actual else 0
  }

  /** A settlement pays the recipient exactly the metered amount out of the payer's balance, and nobody else. */
  lemma SettlementIsDirect(h: Host, s: State, c: Context, a: Authorization, actual: int, token: Address, who: Address)
    requires h.minTtl > 0 && Check(h, s, c, a, actual) == Settled
    ensures var t := Settle(h, s, c, a, actual);
            Balance(t.balances, token, who) == Balance(s.balances, token, who)
              - (if token == a.token && who == a.from then actual else 0)
              + (if token == a.token && who == a.to then actual else 0)
    ensures 0 <= actual <= a.maxAmount && s.sequence <= a.expirationLedger
  {
    MoveChanges(s.balances, a.token, a.from, a.to, actual, token, who);
  }

  lemma OnlySignedSettles(h: Host, s: State, c: Context, a: Authorization, actual: int)
    requires h.minTtl > 0
    ensures if Check(h, s, c, a, actual) == Settled then a in c.signed else Settle(h, s, c, a, actual) == s
  {
  }

  /** The contract's own balance changes only by what buyers chose to send to it. */
  lemma {:induction false} NoCustody(h: Host, start: State, run: seq<Event>, token: Address)
    requires h.minTtl > 0 && NeverSigns(h, run)
    ensures Balance(Exec(h, start, run).balances, token, h.self) ==
            Balance(start.balances, token, h.self) + Received(h, start, run, token)
  {
    if run == [] {
    } else {
      hide Check, Settle;
      var s, e := Exec(h, start, run[..|run| - 1]), run[|run| - 1];
      NoCustody(h, start, run[..|run| - 1], token);
      if e.Call? {
        if Check(h, s, e.ctx, e.auth, e.actual) == Settled {
          SettlementIsDirect(h, s, e.ctx, e.auth, e.actual, token, h.self);
        }
        OnlySignedSettles(h, s, e.ctx, e.auth, e.actual);
      }
    }
  }

  /**
   Leftover allowance is never drawn: whatever earlier settlements left behind, a run does the same to every balance,
   every nonce and the ledger. Each draw is backed by the approval made in its own call.
   */
  lemma {:induction false} LeftoverIsNeverDrawn(h: Host, start: State, run: seq<Event>, other: Allowances)
    requires h.minTtl > 0
    ensures var s, t := Exec(h, start, run), Exec(h, start.(allowances := other), run);
            t == s.(allowances := t.allowances)
  {
    hide Settle;
    if run == [] {
    } else {
      var prefix, e := run[..|run| - 1], run[|run| - 1];
      LeftoverIsNeverDrawn(h, start, prefix, other);
      if e.Call? {
        SameSettlement(h, Exec(h, start, prefix), e.ctx, e.auth, e.actual,
                       Exec(h, start.(allowances := other), prefix).allowances);
      }
    }
  }

  /** An approval sets the allowance rather than adding to it, so the draw after it sees nothing of what was left. */
  lemma SamePayment(h: Host, s: State, a: Authorization, actual: nat, other: Allowances)
    ensures var p, q := Payment(h, s, a, actual), Payment(h, s.(allowances := other), a, actual);
            && (p.Some? <==> q.Some?) && (p.Some? ==> p.value.1 == q.value.1)
            && (p.Some? <==> actual <= Balance(s.balances, a.token, a.from)
                             && actual <= if s.sequence <= a.expirationLedger then a.maxAmount else 0)
  {
  }

  lemma SameSettlement(h: Host, s: State, c: Context, a: Authorization, actual: int, other: Allowances)
    requires h.minTtl > 0
    ensures var t, u := Settle(h, s, c, a, actual), Settle(h, s.(allowances := other), c, a, actual);
            u == t.(allowances := u.allowances)
    ensures Check(h, s.(allowances := other), c, a, actual) == Check(h, s, c, a, actual)
  {
    hide Payment;
    if actual >= 0 { SamePayment(h, s, a, actual, other); }
  }

  // ---- The bound is exact ----

  /**
   Reuse past the expiry does happen: once the first record has lapsed, the same nonce under a later expiry settles
   again. `is_used` therefore answers "can this nonce be used now", not "was it ever used".
   */
  lemma NonceComesBack(h: Host, a: Authorization, b: Authorization)
    requires h.minTtl > 0 && a.from == b.from && a.nonce == b.nonce && a.maxAmount >= 0 && b.maxAmount >= 0
    requires b.expirationLedger == LiveUntil(h, 0, a.expirationLedger) + 1 && a.expirationLedger < h.maxTtl
    ensures var start := State(0, map[], map[], map[]);
            var c := Context({a, b}, true);
            var run := [Call(c, a, 0), Advance(b.expirationLedger), Drop(a.from, a.nonce), Call(c, b, 0)];
            Succeeds(h, start, run, 0) && Succeeds(h, start, run, 3)
            && !IsUsed(Exec(h, start, run[..3]), a.from, a.nonce)
  {
    var start := State(0, map[], map[], map[]);
    var c := Context({a, b}, true);
    var run := [Call(c, a, 0), Advance(b.expirationLedger), Drop(a.from, a.nonce), Call(c, b, 0)];
    assert run[..3][..2] == run[..2] && run[..2][..1] == run[..1] && run[..1][..0] == [] == run[..0];
    assert Exec(h, start, run[..0]) == start;
    assert Exec(h, start, run[..1]) == Settle(h, start, c, a, 0);
    assert Exec(h, start, run[..2]) == Step(h, Exec(h, start, run[..1]), run[1]);
    assert Exec(h, start, run[..3]) == Step(h, Exec(h, start, run[..2]), run[2]);
  }

  // ---- The contract ----

  class UptoVellar {
    const host: Host
    /** The contract's temporary storage: each live nonce record with the last ledger it is guaranteed. */
    var temporary: map<(Address, Nonce), nat>
    var sequence: nat
    var balances: Balances
    var allowances: Allowances

    ghost function Abs(): State
      reads this
    {
      State(sequence, temporary, balances, allowances)
    }

    constructor (host: Host, start: State)
      ensures this.host == host && Abs() == start
    {
      this.host := host;
      temporary, sequence, balances, allowances := start.nonces, start.sequence, start.balances, start.allowances;
    }

    /** The token's `approve`, then `transfer_from` by the contract as the spender. */
    method ApproveAndDraw(a: Authorization, actual: nat, accepts: bool) returns (ok: bool)
      modifies this`allowances, this`balances
      ensures ok == (accepts && Payment(host, old(Abs()), a, actual).Some?)
      ensures ok ==> (allowances, balances) == Payment(host, old(Abs()), a, actual).value
      ensures ok && actual > 0 ==> allowances == old(allowances)[(a.token, a.from, host.self) :=
                                                                   Allowance(a.maxAmount - actual, a.expirationLedger)]
      ensures !ok ==> balances == old(balances) && allowances == old(allowances)
    {
      if !accepts { return false; }
      var before, key := allowances, (a.token, a.from, host.self);
      allowances := allowances[key := Allowance(a.maxAmount, a.expirationLedger)];
      var granted := if sequence <= allowances[key].expirationLedger then allowances[key].amount else 0;
      if granted < actual || Balance(balances, a.token, a.from) < actual {
        allowances := before;
        return false;
      }
      allowances := allowances[key := allowances[key].(amount := allowances[key].amount - actual)];
      balances := Move(balances, a.token, a.from, a.to, actual);
      return true;
    }

    method DoSettle(c: Context, a: Authorization, actual: int) returns (r: Outcome)
      requires host.minTtl > 0
      modifies this
      ensures r == Check(host, old(Abs()), c, a, actual)
      ensures Abs() == Settle(host, old(Abs()), c, a, actual)
    {
      if a !in c.signed { return Unauthorized; }
      if actual < 0 { return NegativeAmount; }
      if actual > a.maxAmount { return AboveCeiling; }
      if sequence > a.expirationLedger { return Expired; }
      var key := (a.from, a.nonce);
      if key in temporary { return NonceUsed; }
      var before := temporary;
      temporary := temporary[key := sequence + host.minTtl - 1];
      var ttl := if a.expirationLedger >= sequence then a.expirationLedger - sequence else 0;
      if ttl > 0 {
        if sequence + ttl > sequence + host.maxTtl - 1 {
          temporary := before;  // the panic reverts the record
          return TtlTooLong;
        }
        if temporary[key] - sequence <= ttl { temporary := temporary[key := sequence + ttl]; }
      }
      var ok := ApproveAndDraw(a, actual, c.tokenAccepts);
      if !ok {
        temporary := before;  // the panic reverts the record
        return TokenRefused;
      }
      return Settled;
    }
  }
}
