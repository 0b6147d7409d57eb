/** The ledger store (internal/repo/wallet.go): the wallets table, keyed by
    wallet id, with one balance per row. `Deposit` and `Withdraw` are single
    conditional UPDATE statements; the store, not the queue above it, is what
    keeps every balance non-negative. */
module Repo {
  import opened Common

  /** The wallets table: id -> balance. Rows are never created or deleted here. */
  type Table = map<string, int>

  predicate NonNegative(t: Table) {
    forall id :: id in t ==> t[id] >= 0
  }

  /** The table after a write, and the error the write returns. */
  datatype Change = Change(table: Table, outcome: Outcome)

  /** `UPDATE wallets SET balance = balance + amount WHERE id = ?`, after the
      positive-amount guard; no matching row means "wallet not found". */
  function ApplyDeposit(t: Table, id: string, amount: int): (r: Change)
    ensures r.outcome == Ok <==> amount > 0 && id in t
    ensures r.outcome == Fail(AmountMustBePositive) <==> amount <= 0
    ensures r.outcome == Fail(WalletNotFound) <==> amount > 0 && id !in t
    ensures r.outcome.Ok? ==> r.table == t[id := t[id] + amount]
    ensures r.outcome.Fail? ==> r.table == t
  {
    if amount <= 0 then Change(t, Fail(AmountMustBePositive))
    else if id !in t then Change(t, Fail(WalletNotFound))
    else Change(t[id := t[id] + amount], Ok)
  }

  /** `UPDATE wallets SET balance = balance - amount WHERE id = ? AND
      balance >= amount`; when no row matched, a re-read tells a missing
      wallet from an insufficient balance. */
  function ApplyWithdraw(t: Table, id: string, amount: int): (r: Change)
    ensures r.outcome == Ok <==> amount > 0 && id in t && t[id] >= amount
    ensures r.outcome == Fail(AmountMustBePositive) <==> amount <= 0
    ensures r.outcome == Fail(WalletNotFound) <==> amount > 0 && id !in t
    ensures r.outcome == Fail(InsufficientBalance) <==> amount > 0 && id in t && t[id] < amount
    ensures r.outcome.Ok? ==> r.table == t[id := t[id] - amount]
    ensures r.outcome.Fail? ==> r.table == t
  {
    if amount <= 0 then Change(t, Fail(AmountMustBePositive))
    else if id in t && t[id] >= amount then Change(t[id := t[id] - amount], Ok)
    else if id !in t then Change(t, Fail(WalletNotFound))
    else Change(t, Fail(InsufficientBalance))
  }

  /** Both writes keep every balance non-negative, create no row, and touch
      no row but the one named. */
  lemma WritesPreserveLedger(t: Table, id: string, amount: int)
    requires NonNegative(t)
    ensures var d := ApplyDeposit(t, id, amount);
      NonNegative(d.table) && d.table.Keys == t.Keys
      && forall other :: other in t && other != id ==> d.table[other] == t[other]
    ensures var w := ApplyWithdraw(t, id, amount);
      NonNegative(w.table) && w.table.Keys == t.Keys
      && forall other :: other in t && other != id ==> w.table[other] == t[other]
  {
  }

  class WalletRepo {
    var wallets: Table

    ghost predicate Valid()
      reads this
    {
      NonNegative(wallets)
    }

    /** The table's rows come from the schema migrations, outside this model. */
    constructor (initial: Table)
      requires NonNegative(initial)
      ensures Valid() && wallets == initial
    {
      wallets := initial;
    }

    /** A row that does not exist reads as balance 0 with no error. */
    method GetBalance(walletId: string) returns (balance: int, err: Outcome)
      ensures err == Ok
      ensures walletId in wallets ==> balance == wallets[walletId]
      ensures walletId !in wallets ==> balance == 0
    {
      if walletId !in wallets {
        return 0, Ok;
      }
      return wallets[walletId], Ok;
    }

    method Deposit(walletId: string, amount: int) returns (err: Outcome)
      requires Valid()
      modifies this
      ensures Valid()
      ensures Change(wallets, err) == ApplyDeposit(old(wallets), walletId, amount)
    {
      if amount <= 0 {
        return Fail(AmountMustBePositive);
      }
      var rowsAffected := 0;
      if walletId in wallets {
        wallets := wallets[walletId := wallets[walletId] + amount];
        rowsAffected := 1;
      }
      if rowsAffected == 0 {
        return Fail(WalletNotFound);
      }
      return Ok;
    }

    method Withdraw(walletId: string, amount: int) returns (err: Outcome)
      requires Valid()
      modifies this
      ensures Valid()
      ensures Change(wallets, err) == ApplyWithdraw(old(wallets), walletId, amount)
    {
      if amount <= 0 {
        return Fail(AmountMustBePositive);
      }
      var rowsAffected := 0;
      if walletId in wallets && wallets[walletId] >= amount {
        wallets := wallets[walletId := wallets[walletId] - amount];
        rowsAffected := 1;
      }
      if rowsAffected == 0 {
        if walletId !in wallets {
          return Fail(WalletNotFound);
        }
        return Fail(InsufficientBalance);
      }
      return Ok;
    }
  }
}
