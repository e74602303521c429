/** Machine-width integers, the failure-carrying result type, and the fee split. */
module Money {
  const I64_MAX: int := 0x7FFF_FFFF_FFFF_FFFF
  const I64_MIN: int := -0x8000_0000_0000_0000
  const U128_LIMIT: int := 0x1_0000_0000_0000_0000_0000_0000_0000_0000

  /** An `i64` of the source: micro-USD, micro-shares and ledger balances. */
  type I64 = x: int | I64_MIN <= x <= I64_MAX
  /** A `u16` rate in basis points; rates above 10 000 are representable and rejected. */
  type Bps = x: int | 0 <= x < 65536
  /** A `u128` intermediate of the market maker. */
  type U128 = x: int | 0 <= x < U128_LIMIT

  predicate FitsI64(x: int) { I64_MIN <= x <= I64_MAX }
  predicate FitsU128(x: int) { 0 <= x < U128_LIMIT }

  datatype Option<+T> = None | Some(value: T)

  datatype Result<+T, +E> = Ok(value: T) | Err(error: E) {
    predicate IsFailure() { Err? }
    function PropagateFailure<U>(): Result<U, E>
      requires Err?
    {
      Err(error)
    }
    function Extract(): T
      requires Ok?
    {
      value
    }
  }

  datatype MoneyError = NegativeAmount | AmountOverflow | FeeTooHigh

  datatype FeeSplit = FeeSplit(net: I64, fee: I64)

  /** The fee rounds up, so what is left of `gross` is its floor share. */
  function CeilFee(gross: nat, bps: nat): nat {
    (gross * bps + 9_999) / 10_000
  }

  function ApplyFee(gross: I64, bps: Bps): (r: Result<FeeSplit, MoneyError>)
    ensures r.Ok? <==> 0 <= gross && bps <= 10_000
    ensures r.Ok? ==> r.value.net + r.value.fee == gross
    ensures r.Ok? ==> 0 <= r.value.fee && 0 <= r.value.net
    ensures r.Ok? ==> r.value.fee == CeilFee(gross, bps)
    ensures r.Err? ==> r.error == if gross < 0 then NegativeAmount else FeeTooHigh
  {
    if gross < 0 then Err(NegativeAmount)
    else if bps > 10_000 then Err(FeeTooHigh)
    else
      FeeIsAtMostGross(gross, bps);
      var fee := (gross * bps + 9_999) / 10_000;
      if !FitsI64(fee) then Err(AmountOverflow) else Ok(FeeSplit(gross - fee, fee))
  }

  lemma FeeIsAtMostGross(gross: nat, bps: nat)
    requires bps <= 10_000
    ensures CeilFee(gross, bps) <= gross
  {
    assert gross * bps <= gross * 10_000;
  }

  /** Paying in two parts at one rate never costs less in fees than paying at once. */
  lemma FeeIsSubadditive(first: nat, second: nat, bps: nat)
    ensures CeilFee(first + second, bps) <= CeilFee(first, bps) + CeilFee(second, bps)
  {
    assert (first + second) * bps == first * bps + second * bps;
  }

  /** `fee` is the least whole amount covering `bps` parts in 10 000 of `gross`. */
  lemma FeeIsLeastCover(gross: nat, bps: nat, other: nat)
    ensures other * 10_000 >= gross * bps <==> other >= CeilFee(gross, bps)
  {
  }
}
