/**
 Integer constant-product market maker over complete sets. Every product is a
 checked 128-bit value and every rounding favours the pool.
 */
module Amm {
  import opened Money

  const MAX_RESERVE: nat := 1_000_000_000_000_000
  const MAX_AMOUNT: nat := 1_000_000_000_000_000

  datatype Side = Yes | No {
    function Other(): Side { if Yes? then No else Yes }
  }

  datatype AmmError = EmptyPool | AmountTooSmall | DrainsPool | InputTooLarge | Overflow

  datatype Pool = Pool(yes: I64, no: I64, fee: Bps) {
    ghost predicate Valid() {
      1 <= yes <= MAX_RESERVE && 1 <= no <= MAX_RESERVE && fee <= 10_000
    }

    function Reserve(side: Side): I64 { if side.Yes? then yes else no }

    function WithReserves(side: Side, own: I64, other: I64): Pool {
      if side.Yes? then Pool(own, other, fee) else Pool(other, own, fee)
    }

    ghost function Product(): int { yes * no }
  }

  datatype BuyQuote = BuyQuote(sharesOut: I64, fee: I64, poolAfter: Pool, avgPrice: I64)

  datatype SellQuote = SellQuote(collateralOut: I64, fee: I64, poolAfter: Pool)

  function NewPool(yes: I64, no: I64, fee: Bps): (r: Result<Pool, AmmError>)
    ensures r.Ok? <==> Pool(yes, no, fee).Valid()
    ensures r.Ok? ==> r.value == Pool(yes, no, fee)
    ensures r.Err? ==> r.error == if yes <= 0 || no <= 0 then EmptyPool else InputTooLarge
  {
    if yes <= 0 || no <= 0 then Err(EmptyPool)
    else if yes > MAX_RESERVE || no > MAX_RESERVE || fee > 10_000 then Err(InputTooLarge)
    else Ok(Pool(yes, no, fee))
  }

  /** Fee failures in the market maker's vocabulary. */
  function SplitFee(gross: I64, fee: Bps): Result<FeeSplit, AmmError> {
    match ApplyFee(gross, fee)
    case Ok(split) => Ok(split)
    case Err(NegativeAmount) => Err(AmountTooSmall)
    case Err(AmountOverflow) => Err(Overflow)
    case Err(FeeTooHigh) => Err(InputTooLarge)
  }

  /** Reserves of the bought and the opposite side after `net` sets are minted, the shares, the price. */
  datatype BuyFill = BuyFill(own: I64, other: I64, shares: I64, avgPrice: I64)

  function FillBuy(a: nat, b: nat, net: nat, collateral: nat): Result<BuyFill, AmmError>
    requires b > 0
  {
    var after := b + net;
    if !FitsU128(after) then Err(Overflow)
    else if after > MAX_RESERVE then Err(InputTooLarge)
    else if !FitsU128(a * b) || !FitsU128(a * b + (after - 1)) then Err(Overflow)
    else
      var kept := CeilDiv(a * b, after);
      if !FitsU128(a + net) || !FitsU128(a + net - kept) then Err(Overflow)
      else if a + net - kept == 0 then Err(AmountTooSmall)
      else
        var avg :- AveragePrice(collateral, a + net - kept);
        if !FitsI64(a + net - kept) || !FitsI64(kept) || !FitsI64(after) then Err(Overflow)
        else Ok(BuyFill(kept, after, a + net - kept, avg))
  }

  function CeilDiv(k: nat, d: nat): (q: nat)
    requires d > 0
    ensures (q - 1) * d < k <= q * d
  {
    CeilingBracket(k, d);
    (k + (d - 1)) / d
  }

  /** All-in gross price per whole share, floored; display only. */
  function AveragePrice(collateral: nat, out: nat): Result<I64, AmmError>
    requires out > 0
  {
    if !FitsU128(collateral * 1_000_000) || !FitsI64(collateral * 1_000_000 / out) then Err(Overflow)
    else Ok(collateral * 1_000_000 / out)
  }

  /** Split out the fee, mint `net` complete sets, keep the ceiling on the bought side. */
  function QuoteBuy(pool: Pool, side: Side, collateral: I64, fee: Bps): (r: Result<BuyQuote, AmmError>)
    requires pool.Valid()
    ensures r.Ok? ==> r.value.poolAfter.Valid()
  {
    if collateral > MAX_AMOUNT then Err(InputTooLarge)
    else
      var split :- SplitFee(collateral, fee);
      RetainedReserve(pool.Reserve(side), pool.Reserve(side.Other()), split.net);
      var fill :- FillBuy(pool.Reserve(side), pool.Reserve(side.Other()), split.net, collateral);
      Ok(BuyQuote(fill.shares, split.fee, pool.WithReserves(side, fill.own, fill.other), fill.avgPrice))
  }

  // ---------------------------------------------------------------- arithmetic

  lemma ProductBound(a: nat, b: nat, m: nat, n: nat)
    requires a <= m && b <= n
    ensures a * b <= m * n
  {
    assert a * b <= m * b <= m * n;
  }

  lemma CeilingBracket(k: nat, d: nat)
    requires d > 0
    ensures var q := (k + (d - 1)) / d; q >= 0 && (q - 1) * d < k <= q * d
  {
    var n := k + (d - 1);
    assert n == d * (n / d) + n % d;
  }

  lemma DivisionOrder(q: int, p: int, d: nat)
    requires d > 0 && q * d < p * d
    ensures q < p
  {
  }

  lemma RetainedBetween(a: nat, b: nat, net: nat, kept: nat)
    requires a >= 1 && b >= 1 && (kept - 1) * (b + net) < a * b <= kept * (b + net)
    ensures 1 <= kept <= a && (net == 0 ==> kept == a)
  {
    ProductBound(1, 1, a, b);
    ProductBound(a, b, a, b + net);
    DivisionOrder(kept - 1, a, b + net);
    if net == 0 { DivisionOrder(a - 1, kept, b); }
  }

  /** The retained reserve is at least one and at most the old one. */
  lemma RetainedReserve(a: nat, b: nat, net: nat)
    requires a >= 1 && b >= 1
    ensures var kept := CeilDiv(a * b, b + net);
            1 <= kept <= a && (net == 0 ==> kept == a)
  {
    RetainedBetween(a, b, net, CeilDiv(a * b, b + net));
  }

  // ---------------------------------------------------------------- buying

  /** What a buy needs, and everything it changes. */
  ghost predicate BuyAccepted(pool: Pool, side: Side, collateral: I64, fee: Bps) {
    && 0 <= collateral <= MAX_AMOUNT
    && fee <= 10_000
    && collateral - CeilFee(collateral, fee) > 0
    && pool.Reserve(side.Other()) + (collateral - CeilFee(collateral, fee)) <= MAX_RESERVE
  }

  lemma NetCoversGross(collateral: nat, fee: nat)
    requires fee <= 10_000
    requires collateral - CeilFee(collateral, fee) > 0
    ensures collateral <= 20_000 * (collateral - CeilFee(collateral, fee))
  {
    var cut := CeilFee(collateral, fee);
    var spare := collateral * (10_000 - fee);
    assert collateral * fee <= 10_000 * cut <= collateral * fee + 9_999;
    assert spare == 10_000 * collateral - collateral * fee;
    assert fee < 10_000;
    assert spare >= collateral by {
      assert spare == collateral + collateral * (9_999 - fee);
    }
  }

  lemma QuotientAtMost(n: nat, d: nat, bound: nat)
    requires d > 0 && n <= bound * d
    ensures 0 <= n / d <= bound
  {
    assert n == d * (n / d) + n % d;
    DivisionOrder(n / d, bound + 1, d);
  }

  lemma AveragePriceFits(collateral: nat, net: nat, out: nat)
    requires collateral <= 20_000 * net && 0 < net <= out
    requires collateral <= MAX_AMOUNT
    ensures AveragePrice(collateral, out).Ok?
  {
    QuotientAtMost(collateral * 1_000_000, out, 20_000_000_000);
  }

  ghost predicate FillEffect(a: nat, b: nat, net: nat, collateral: nat, f: BuyFill) {
    && 1 <= f.own <= a
    && f.other == b + net
    && f.own + f.shares == a + net
    && (f.own - 1) * f.other < a * b <= f.own * f.other
    && f.avgPrice * f.shares <= collateral * 1_000_000 < (f.avgPrice + 1) * f.shares
  }

  lemma QuotientBracket(n: nat, d: nat)
    requires d > 0
    ensures n / d * d <= n < (n / d + 1) * d
  {
    assert n == d * (n / d) + n % d;
  }

  lemma FillSucceeds(a: nat, b: nat, net: nat, collateral: nat)
    requires 1 <= a <= MAX_RESERVE && 1 <= b <= MAX_RESERVE
    requires 0 < net <= collateral <= MAX_AMOUNT
    requires collateral <= 20_000 * net
    requires b + net <= MAX_RESERVE
    ensures FillBuy(a, b, net, collateral).Ok?
    ensures FillEffect(a, b, net, collateral, FillBuy(a, b, net, collateral).value)
  {
    ProductBound(a, b, MAX_RESERVE, MAX_RESERVE);
    RetainedReserve(a, b, net);
    var out := a + net - CeilDiv(a * b, b + net);
    AveragePriceFits(collateral, net, out);
    QuotientBracket(collateral * 1_000_000, out);
  }

  lemma FillFails(a: nat, b: nat, net: nat, collateral: nat)
    requires 1 <= a <= MAX_RESERVE && 1 <= b <= MAX_RESERVE
    requires net <= collateral <= MAX_AMOUNT
    requires net == 0 || b + net > MAX_RESERVE
    ensures FillBuy(a, b, net, collateral)
         == Err(if b + net > MAX_RESERVE then InputTooLarge else AmountTooSmall)
  {
    ProductBound(a, b, MAX_RESERVE, MAX_RESERVE);
    RetainedReserve(a, b, net);
  }

  /**
   A buy is accepted exactly under the caps with something left after the fee.
   It never overflows; it mints `net` sets, keeps the pool valid, never lowers
   the product, and hands out the most shares that keep the product.
   */
  lemma BuyIsExact(pool: Pool, side: Side, collateral: I64, fee: Bps)
    requires pool.Valid()
    ensures var r := QuoteBuy(pool, side, collateral, fee);
            && (r.Ok? <==> BuyAccepted(pool, side, collateral, fee))
            && (r.Err? ==> r.error == BuyError(pool, side, collateral, fee))
            && (r.Ok? ==> BuyEffect(pool, side, collateral, fee, r.value))
  {
    if 0 <= collateral <= MAX_AMOUNT && fee <= 10_000 {
      var net := collateral - CeilFee(collateral, fee);
      FeeIsAtMostGross(collateral, fee);
      if BuyAccepted(pool, side, collateral, fee) {
        NetCoversGross(collateral, fee);
        FillSucceeds(pool.Reserve(side), pool.Reserve(side.Other()), net, collateral);
      } else {
        FillFails(pool.Reserve(side), pool.Reserve(side.Other()), net, collateral);
      }
    }
  }

  ghost function BuyError(pool: Pool, side: Side, collateral: I64, fee: Bps): AmmError {
    if collateral > MAX_AMOUNT then InputTooLarge
    else if collateral < 0 then AmountTooSmall
    else if fee > 10_000 then InputTooLarge
    else if pool.Reserve(side.Other()) + (collateral - CeilFee(collateral, fee)) > MAX_RESERVE then InputTooLarge
    else AmountTooSmall
  }

  /** The fee is taken first; the rest is minted, and all but what keeps the product is handed out. */
  ghost predicate BuyMoves(pool: Pool, side: Side, collateral: nat, fee: Bps, sharesOut: int, taken: int, after: Pool) {
    var net := collateral - taken;
    var own, other := after.Reserve(side), after.Reserve(side.Other());
    && taken == CeilFee(collateral, fee)
    && net > 0
    && after.Valid()
    && after.fee == pool.fee
    && other == pool.Reserve(side.Other()) + net
    && own + sharesOut == pool.Reserve(side) + net
    && sharesOut >= net
    && (own - 1) * other < pool.Reserve(side) * pool.Reserve(side.Other()) <= own * other
  }

  ghost predicate BuyEffect(pool: Pool, side: Side, collateral: I64, fee: Bps, q: BuyQuote)
    requires 0 <= collateral
  {
    && BuyMoves(pool, side, collateral, fee, q.sharesOut, q.fee, q.poolAfter)
    && q.avgPrice * q.sharesOut <= collateral * 1_000_000 < (q.avgPrice + 1) * q.sharesOut
  }
}
