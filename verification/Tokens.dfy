/** Token contracts seen from outside: exact balances, moved only by transfers. */
module Tokens {
  type Address = string

  /** Balances by (token, holder); an absent pair holds nothing. */
  type Balances = map<(Address, Address), nat>

  function Balance(b: Balances, token: Address, who: Address): nat {
    if (token, who) in b then b[(token, who)] else 0
  }

  function Move(b: Balances, token: Address, from: Address, to: Address, amount: nat): Balances
    requires amount <= Balance(b, token, from)
  {
    var debited := b[(token, from) := Balance(b, token, from) - amount];
    debited[(token, to) := Balance(debited, token, to) + amount]
  }

  /** A transfer takes from one holder what it gives another, and touches nobody else. */
  lemma MoveChanges(b: Balances, token: Address, from: Address, to: Address, amount: nat, t: Address, who: Address)
    requires amount <= Balance(b, token, from)
    ensures Balance(Move(b, token, from, to, amount), t, who) ==
            Balance(b, t, who) - (if t == token && who == from then amount else 0)
                               + (if t == token && who == to then amount else 0)
  {
  }
}
