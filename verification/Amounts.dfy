/** The amount range every money helper shares: a signed 128-bit integer. */
module Amounts {
  const MAX_AMOUNT: int := 170141183460469231731687303715884105727

  predicate InRange(value: int) {
    -MAX_AMOUNT - 1 <= value <= MAX_AMOUNT
  }

  lemma RangeIsSigned128Bits(value: int)
    ensures InRange(value)
            <==> -0x8000_0000_0000_0000_0000_0000_0000_0000 <= value < 0x8000_0000_0000_0000_0000_0000_0000_0000
  {
  }
}
