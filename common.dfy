/** Types shared by every layer of the wallet service: the 64-bit integer
    domain of amounts, the tagged error kinds the operations report, and the
    outcome (a Go `error`, nil or not) that a write delivers to its caller. */
module Common {

  const MinInt64: int := -0x8000_0000_0000_0000
  const MaxInt64: int := 0x7FFF_FFFF_FFFF_FFFF

  predicate InInt64(x: int) { MinInt64 <= x <= MaxInt64 }

  /** Go's `int64`. */
  type Int64 = x: int | InInt64(x)

  datatype Option<+T> = None | Some(value: T)

  /** Every error the modelled code can produce. Each one is built in the
      source with `fmt.Errorf`, so callers tell them apart by `Message()`. */
  datatype Error =
    | AmountMustBePositive
    | WalletNotFound
    | InsufficientBalance
    | UnknownOperationType(op: string)
    | AmountOverflow
  {
    function Message(): string {
      match this
      case AmountMustBePositive => "amount must be positive"
      case WalletNotFound => "wallet not found"
      case InsufficientBalance => "insufficient balance"
      case UnknownOperationType(op) => "unknown operation type: " + op
      case AmountOverflow => "amount overflow"
    }
  }

  /** A Go `error` value: nil (`Ok`) or an error. */
  datatype Outcome = Ok | Fail(error: Error)

  /** Callers compare error texts, so distinct errors must have distinct texts. */
  lemma MessageInjective(e1: Error, e2: Error)
    requires e1.Message() == e2.Message()
    ensures e1 == e2
  {
    var m1, m2 := e1.Message(), e2.Message();
    assert m1[0] == m2[0];
    if e1.UnknownOperationType? && e2.UnknownOperationType? {
      var p := "unknown operation type: ";
      assert m1 == p + e1.op && m2 == p + e2.op;
      assert e1.op == m1[|p|..] == m2[|p|..] == e2.op;
    } else if e1.AmountMustBePositive? || e1.AmountOverflow? {
      assert m1[7] == m2[7];
    }
  }
}
