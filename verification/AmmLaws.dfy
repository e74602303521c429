/** Laws over several quotes: splitting, round trips, and the value of a reserve shift. */
module AmmLaws {
  import opened Money
  import opened Amm
  import opened AmmSell

  ghost predicate SellEffect(pool: Pool, side: Side, shares: I64, q: SellQuote) {
    var gross := q.collateralOut + q.fee;
    var own, other := q.poolAfter.Reserve(side), q.poolAfter.Reserve(side.Other());
    && 0 < gross && gross < pool.Reserve(side.Other())
    && 0 <= q.fee && 0 <= q.collateralOut
    && gross <= shares
    && q.poolAfter.Valid()
    && q.poolAfter.fee == pool.fee
    && own + gross == pool.Reserve(side) + shares
    && other + gross == pool.Reserve(side.Other())
    && own * other >= pool.Reserve(side) * pool.Reserve(side.Other())
  }

  /** A burn never exceeds the shares sold. */
  lemma BurnAtMostShares(sell: nat, s: nat, other: nat)
    requires sell >= 1 && other >= 1 && s >= 1
    ensures GreatestBurn(sell, s, other) <= s
  {
    var c := GreatestBurn(sell, s, other);
    GreatestBurnIsGreatest(sell, s, other, 0);
    if c > s {
      assert sell + s - c < sell && other - c < other;
      ProductBound(sell + s - c, other - c, sell, other - c);
      assert sell * (other - c) == sell * other - sell * c;
      ProductBound(1, 1, sell, c);
    }
  }

  /** Both sides lose `gross`, the seller's shares come in, the product does not fall. */
  lemma SellIsSound(pool: Pool, side: Side, shares: I64, fee: Bps)
    requires pool.Valid()
    requires SellSpec(pool, side, shares, fee).Ok?
    ensures SellEffect(pool, side, shares, SellSpec(pool, side, shares, fee).value)
  {
    var sell, other := pool.Reserve(side), pool.Reserve(side.Other());
    GreatestBurnIsGreatest(sell, shares, other, 0);
    BurnAtMostShares(sell, shares, other);
    FeeIsAtMostGross(GreatestBurn(sell, shares, other), fee);
  }

  // ---------------------------------------------------------------- splitting a buy

  lemma KeptShrinks(k: nat, k': nat, d: nat, d': nat, q: nat, q': nat)
    requires d' > 0
    requires (q - 1) * d < k <= q * d
    requires (q' - 1) * d' < k' <= q' * d'
    requires k' <= k && d <= d'
    ensures q' <= q
  {
    assert q * d <= q * d';
    DivisionOrder(q' - 1, q, d');
  }

  /**
   Two consecutive buys of `first` and `second` at one rate never yield more
   shares than one buy of their sum.
   */
  lemma SplitBuyNeverGainsShares(pool: Pool, side: Side, first: I64, second: I64, fee: Bps)
    requires pool.Valid()
    requires FitsI64(first + second)
    requires QuoteBuy(pool, side, first, fee).Ok?
    requires QuoteBuy(QuoteBuy(pool, side, first, fee).value.poolAfter, side, second, fee).Ok?
    requires QuoteBuy(pool, side, first + second, fee).Ok?
    ensures var one := QuoteBuy(pool, side, first, fee).value;
            var two := QuoteBuy(one.poolAfter, side, second, fee).value;
            one.sharesOut + two.sharesOut <= QuoteBuy(pool, side, first + second, fee).value.sharesOut
  {
    BuyIsExact(pool, side, first, fee);
    BuyIsExact(QuoteBuy(pool, side, first, fee).value.poolAfter, side, second, fee);
    BuyIsExact(pool, side, first + second, fee);
    SplitEffects(pool, side, first, second, fee, QuoteBuy(pool, side, first, fee).value,
                 QuoteBuy(QuoteBuy(pool, side, first, fee).value.poolAfter, side, second, fee).value,
                 QuoteBuy(pool, side, first + second, fee).value);
  }

  lemma SplitEffects(pool: Pool, side: Side, first: I64, second: I64, fee: Bps,
                     one: BuyQuote, two: BuyQuote, all: BuyQuote)
    requires 0 <= first && 0 <= second && FitsI64(first + second) && pool.Valid()
    requires BuyEffect(pool, side, first, fee, one) && BuyEffect(one.poolAfter, side, second, fee, two)
    requires BuyEffect(pool, side, first + second, fee, all)
    ensures one.sharesOut + two.sharesOut <= all.sharesOut
  {
    FeeIsSubadditive(first, second, fee);
    SplitKeepsMore(pool.Reserve(side), pool.Reserve(side.Other()),
                   one.poolAfter.Reserve(side), one.poolAfter.Reserve(side.Other()),
                   two.poolAfter.Reserve(side), two.poolAfter.Reserve(side.Other()),
                   all.poolAfter.Reserve(side), all.poolAfter.Reserve(side.Other()));
  }

  /** After two roundings up, no less of the bought side is left in the pool than after one. */
  lemma SplitKeepsMore(a: nat, b: nat, a1: nat, b1: nat, a2: nat, b2: nat, a3: nat, b3: nat)
    requires b3 > 0 && b2 <= b3
    requires a * b <= a1 * b1
    requires (a2 - 1) * b2 < a1 * b1 <= a2 * b2
    requires (a3 - 1) * b3 < a * b <= a3 * b3
    ensures a3 <= a2
  {
    KeptShrinks(a1 * b1, a * b, b2, b3, a2, a3);
  }

  // ---------------------------------------------------------------- shifting both reserves

  lemma ProductDrops(a: nat, b: nat, drop: nat)
    requires 0 < drop < a && drop < b
    ensures (a - drop) * (b - drop) < a * b
  {
    ProductBound(a - drop, b - drop, a, b - drop);
    assert a * (b - drop) == a * b - a * drop;
    ProductBound(1, 1, a, drop);
  }

  /** If moving both reserves by one amount does not lower the product, the amount is not negative. */
  lemma ShiftWithoutLoss(a: int, b: int, shift: int)
    requires a > 0 && b > 0 && a + shift > 0 && b + shift > 0
    requires (a + shift) * (b + shift) >= a * b
    ensures shift >= 0
  {
    if shift < 0 {
      ProductDrops(a, b, -shift);
    }
  }

  /** Selling at once everything just bought returns no more than the net that was paid in. */
  lemma RoundTripNeverProfits(pool: Pool, side: Side, collateral: I64, buyFee: Bps, sellFee: Bps)
    requires pool.Valid()
    requires QuoteBuy(pool, side, collateral, buyFee).Ok?
    requires var bought := QuoteBuy(pool, side, collateral, buyFee).value;
             SellSpec(bought.poolAfter, side, bought.sharesOut, sellFee).Ok?
    ensures var bought := QuoteBuy(pool, side, collateral, buyFee).value;
            var sold := SellSpec(bought.poolAfter, side, bought.sharesOut, sellFee).value;
            sold.collateralOut + sold.fee <= collateral - bought.fee
  {
    var bought := QuoteBuy(pool, side, collateral, buyFee).value;
    BuyIsExact(pool, side, collateral, buyFee);
    SellIsSound(bought.poolAfter, side, bought.sharesOut, sellFee);
    var sold := SellSpec(bought.poolAfter, side, bought.sharesOut, sellFee).value;
    ShiftWithoutLoss(pool.Reserve(side), pool.Reserve(side.Other()),
                     (collateral - bought.fee) - (sold.collateralOut + sold.fee));
  }
}
