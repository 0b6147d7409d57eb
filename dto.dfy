/** The request bodies of the HTTP layer and their validation
    (internal/http/dto/wallet_dto.go). */
module Dto {
  import opened Common

  /** The two values of `OperationType`. */
  const DEPOSIT: string := "DEPOSIT"
  const WITHDRAW: string := "WITHDRAW"

  /** An operation string is valid only when it is one of the two constants,
      character for character. */
  predicate IsOperationType(op: string) {
    op == DEPOSIT || op == WITHDRAW
  }

  /** The three ways a request body can be rejected. */
  datatype ValidationError = WalletIdRequired | BadOperationType | AmountNotPositive
  {
    function Message(): string {
      match this
      case WalletIdRequired => "walletId is required"
      case BadOperationType => "operationType must be DEPOSIT or WITHDRAW"
      case AmountNotPositive => "amount must be positive"
    }
  }

  datatype UpdateWalletBalanceRequest = UpdateWalletBalanceRequest(walletId: string, operationType: string, amount: Int64)
  {
    /** Checks the wallet id, then the operation, then the amount, and
        reports the first check that fails. */
    function Validate(): (r: Option<ValidationError>)
      ensures r == None <==> walletId != "" && IsOperationType(operationType) && amount > 0
      // precedence: a missing id hides every other problem, a bad
      // operation hides a bad amount
      ensures walletId == "" ==> r == Some(WalletIdRequired)
      ensures r == Some(BadOperationType) <==> walletId != "" && !IsOperationType(operationType)
      ensures r == Some(AmountNotPositive) <==> walletId != "" && IsOperationType(operationType) && amount <= 0
    {
      if walletId == "" then Some(WalletIdRequired)
      else if operationType != DEPOSIT && operationType != WITHDRAW then Some(BadOperationType)
      else if amount <= 0 then Some(AmountNotPositive)
      else None
    }
  }

  datatype GetWalletBalanceRequest = GetWalletBalanceRequest(walletId: string)
  {
    function Validate(): (r: Option<ValidationError>)
      ensures r == None <==> walletId != ""
      ensures r != None ==> r == Some(WalletIdRequired)
    {
      if walletId == "" then Some(WalletIdRequired) else None
    }
  }

  /** The comparison is case-sensitive: a lower-case operation is refused. */
  lemma OperationTypeIsCaseSensitive(walletId: string, amount: Int64)
    requires walletId != ""
    ensures UpdateWalletBalanceRequest(walletId, "deposit", amount).Validate() == Some(BadOperationType)
    ensures UpdateWalletBalanceRequest(walletId, "Withdraw", amount).Validate() == Some(BadOperationType)
  {
    assert "deposit"[0] != DEPOSIT[0];
    assert "Withdraw"[1] != WITHDRAW[1];
  }

  function AmountSum(reqs: seq<UpdateWalletBalanceRequest>): int
    decreases |reqs|
  {
    if reqs == [] then 0 else AmountSum(reqs[..|reqs| - 1]) + reqs[|reqs| - 1].amount
  }

  /** Every validated amount is at least 1, so any sum of n validated
      amounts is at least n: a non-empty sum is positive. */
  lemma {:induction false} ValidatedSumPositive(reqs: seq<UpdateWalletBalanceRequest>)
    requires forall i :: 0 <= i < |reqs| ==> reqs[i].Validate() == None
    ensures AmountSum(reqs) >= |reqs|
    ensures reqs != [] ==> AmountSum(reqs) > 0
    decreases |reqs|
  {
    if reqs != [] {
      ValidatedSumPositive(reqs[..|reqs| - 1]);
    }
  }
}
