/** Token contracts as ideal balance maps. */
module Tokens {
  import opened MapSums

  /** An account of one token. */
  datatype Account = Account(token: nat, owner: nat)

  type Balances = map<Account, int>

  function BalanceOf(b: Balances, token: nat, owner: nat): int {
    Get(b, Account(token, owner))
  }

  predicate CanMove(b: Balances, token: nat, from: nat, amount: int) {
    BalanceOf(b, token, from) >= amount
  }

  /** Debit, then credit what is then stored, so that a transfer to oneself changes nothing. */
  function Moved(b: Balances, token: nat, from: nat, to: nat, amount: int): Balances {
    var debited := b[Account(token, from) := BalanceOf(b, token, from) - amount];
    debited[Account(token, to) := BalanceOf(debited, token, to) + amount]
  }

  /** from has paid amount of the token to another account, and nothing else moved. */
  ghost predicate PaidTo(b: Balances, after: Balances, token: nat, from: nat, to: nat, amount: int) {
    var payer, payee := Account(token, from), Account(token, to);
    && Sum(after) == Sum(b)
    && Get(after, payee) == Get(b, payee) + (if from == to then 0 else amount)
    && Get(after, payer) == Get(b, payer) - (if from == to then 0 else amount)
    && forall x :: x != payer && x != payee ==> Get(after, x) == Get(b, x)
  }

  /** A transfer moves the amount from one account to the other, leaves every other account alone, and keeps the sum. */
  lemma MovedExactly(b: Balances, token: nat, from: nat, to: nat, amount: int)
    ensures PaidTo(b, Moved(b, token, from, to, amount), token, from, to, amount)
  {
    var debited := b[Account(token, from) := BalanceOf(b, token, from) - amount];
    SumUpdate(b, Account(token, from), BalanceOf(b, token, from) - amount);
    SumUpdate(debited, Account(token, to), BalanceOf(debited, token, to) + amount);
  }
}
