/** The two kinds of asset a pool trades, and who holds how much of each. */
module Assets {
  import opened Base

  datatype TokenType = Native(denom: string) | CreatorToken(contract: Addr)

  /** Every unit of a token names its holder, so a holder's balance is a multiplicity and the
      supply is a cardinality. */
  type Bank = map<TokenType, multiset<Addr>>

  function Units(b: Bank, t: TokenType): multiset<Addr> {
    if t in b then b[t] else multiset{}
  }

  function Held(b: Bank, t: TokenType, a: Addr): nat {
    Units(b, t)[a]
  }

  function Supply(b: Bank, t: TokenType): nat {
    |Units(b, t)|
  }

  function Move(b: Bank, t: TokenType, from: Addr, to: Addr, amount: nat): Bank
    requires amount <= Held(b, t, from)
  {
    var u := Units(b, t);
    var debited := u[from := u[from] - amount];
    b[t := debited[to := debited[to] + amount]]
  }

  /** A transfer moves the amount, conserves the supply and touches nobody else and nothing else. */
  lemma MoveEffect(b: Bank, t: TokenType, from: Addr, to: Addr, amount: nat)
    requires amount <= Held(b, t, from)
    ensures var b' := Move(b, t, from, to, amount);
      && (forall x :: Supply(b', x) == Supply(b, x))
      && forall x, a :: Held(b', x, a) ==
           if x != t || from == to then Held(b, x, a)
           else if a == from then Held(b, x, a) - amount
           else if a == to then Held(b, x, a) + amount
           else Held(b, x, a)
  {
  }
}
