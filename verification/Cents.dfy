/** Signed 64-bit cents and the checked operations on them (`src/domain/money.rs`). */
module Cents {
  import opened Wrappers

  const MIN_CENTS := -0x8000_0000_0000_0000
  const MAX_CENTS := 0x7fff_ffff_ffff_ffff

  type Money = x: int | MIN_CENTS <= x <= MAX_CENTS witness 0

  datatype MoneyError = Invalid | Overflow | RoundingRequired

  predicate InRange(x: int) {
    MIN_CENTS <= x <= MAX_CENTS
  }

  /** The wide result of an operation if it fits 64 bits. */
  function Narrow(wide: int): Result<Money, MoneyError> {
    if InRange(wide) then Ok(wide) else Err(Overflow)
  }

  function CheckedAdd(a: Money, b: Money): Result<Money, MoneyError> {
    Narrow(a + b)
  }

  function CheckedSub(a: Money, b: Money): Result<Money, MoneyError> {
    Narrow(a - b)
  }

  function CheckedNeg(a: Money): Result<Money, MoneyError> {
    Narrow(0 - a)
  }

  function Positive(a: Money): Money {
    if a > 0 then a else 0
  }

  /** The absolute value, which for the least amount is not itself an amount. */
  function Magnitude(a: int): nat {
    if a < 0 then 0 - a else a
  }

  function Min(a: int, b: int): int {
    if a < b then a else b
  }

  function Max(a: int, b: int): int {
    if a < b then b else a
  }
}
