/**
 Selling shares back: the burn is the floored smaller root of a quadratic,
 repaired by a guard loop. The simple form searches down for the greatest burn.
 */
module AmmSell {
  import opened Money
  import opened Isqrt
  import opened Amm

  /** Burning `c` sets after `s` shares came in keeps the product. */
  ghost predicate Keeps(sell: nat, s: nat, other: nat, c: int) {
    (sell + s - c) * (other - c) >= sell * other
  }

  /** The simple form: search downwards for the first burn that keeps the product. */
  ghost function BurnFrom(sell: nat, s: nat, other: nat, c: nat): nat {
    if c == 0 || Keeps(sell, s, other, c) then c else BurnFrom(sell, s, other, c - 1)
  }

  ghost function GreatestBurn(sell: nat, s: nat, other: nat): nat {
    BurnFrom(sell, s, other, other)
  }

  lemma {:induction false} BurnFromIsGreatest(sell: nat, s: nat, other: nat, c: nat, d: nat)
    ensures var burn := BurnFrom(sell, s, other, c);
            burn <= c && Keeps(sell, s, other, burn) && (burn < d <= c ==> !Keeps(sell, s, other, d))
  {
    if c == 0 {
      assert (sell + s) * other == sell * other + s * other;
      assert s * other >= 0;
    } else if !Keeps(sell, s, other, c) {
      BurnFromIsGreatest(sell, s, other, c - 1, d);
    }
  }

  /** The burn keeps the product, no larger one does, and it empties neither side. */
  lemma GreatestBurnIsGreatest(sell: nat, s: nat, other: nat, d: nat)
    requires sell >= 1 && other >= 1
    ensures var burn := GreatestBurn(sell, s, other);
            && Keeps(sell, s, other, burn)
            && burn < other && burn < sell + s
            && (burn < d <= other ==> !Keeps(sell, s, other, d))
  {
    var burn := GreatestBurn(sell, s, other);
    BurnFromIsGreatest(sell, s, other, other, d);
    ProductBound(1, 1, sell, other);
    SignOfProduct(sell + s - burn, other - burn);
  }

  lemma SignOfProduct(x: int, y: int)
    ensures x <= 0 <= y ==> x * y <= 0
    ensures 0 <= x && 0 <= y ==> x * y >= 0
  {
  }

  /** Only one burn below `other` both keeps the product and dominates the rest. */
  lemma BurnIsUnique(sell: nat, s: nat, other: nat, c: nat)
    requires sell >= 1 && other >= 1
    requires c <= other && Keeps(sell, s, other, c)
    requires forall d :: c < d <= other ==> !Keeps(sell, s, other, d)
    ensures c == GreatestBurn(sell, s, other)
  {
    GreatestBurnIsGreatest(sell, s, other, c);
  }

  // ---------------------------------------------------------------- the quadratic

  ghost function Discriminant(sell: nat, s: nat, other: nat): int {
    (sell + s + other) * (sell + s + other) - 4 * (s * other)
  }

  /** Completing the square: the guard compares `(b - 2c)^2` with the discriminant. */
  lemma CompleteSquare(sell: nat, s: nat, other: nat, c: int)
    ensures var t := sell + s + other - 2 * c;
            Keeps(sell, s, other, c) <==> t * t >= Discriminant(sell, s, other)
  {
    var u, v := sell + s - c, other - c;
    var t := u + v;
    assert t * t == (u - v) * (u - v) + 4 * (u * v);
    var w := sell + s - other;
    assert u - v == w;
    DiscriminantForm(sell, s, other);
  }

  lemma DiscriminantForm(sell: nat, s: nat, other: nat)
    ensures var w := sell + s - other;
            Discriminant(sell, s, other) == w * w + 4 * (sell * other)
  {
    var p := sell + s;
    var w := p - other;
    assert (p + other) * (p + other) == w * w + 4 * (p * other);
    assert p * other == sell * other + s * other;
  }

  lemma SquareOrder(a: int, b: int)
    requires 0 <= a && 0 <= b && a * a < b * b
    ensures a < b
  {
    if b <= a { SquareMonotone(b, a); }
  }

  lemma AbsSquare(a: int)
    ensures a * a == (if a < 0 then -a else a) * (if a < 0 then -a else a)
  {
  }

  /** The root of the discriminant lies above the distance between the two sides. */
  lemma RootBounds(sell: nat, s: nat, other: nat, root: nat)
    requires sell >= 1 && other >= 1
    requires Discriminant(sell, s, other) >= 0 && IsFloorSqrt(Discriminant(sell, s, other), root)
    ensures sell + s - other <= root && other - (sell + s) <= root
    ensures root <= sell + s + other
  {
    var w := sell + s - other;
    var b := sell + s + other;
    DiscriminantForm(sell, s, other);
    ProductBound(1, 1, sell, other);
    AbsSquare(w);
    SquareOrder(if w < 0 then -w else w, root + 1);
    assert s * other >= 0;
    if root > b { SquareStrict(b, root); }
  }

  lemma SquareStrict(a: nat, b: nat)
    requires a < b
    ensures a * a < b * b
  {
    assert a * a <= a * b;
    assert a * b < b * b;
  }

  lemma BelowStart(d: nat, b: nat, root: nat, c: int)
    requires IsFloorSqrt(d, root) && root <= b
    requires c < (b - root) / 2
    ensures (b - 2 * c) * (b - 2 * c) >= d
  {
    SquareMonotone(root + 1, b - 2 * c);
  }

  lemma AboveStart(d: nat, b: nat, root: nat, w: int, c: int)
    requires IsFloorSqrt(d, root) && root <= b
    requires (b - root) / 2 < c && w <= b - 2 * c
    requires w * w < d
    ensures (b - 2 * c) * (b - 2 * c) < d
  {
    var t := b - 2 * c;
    if t >= 0 {
      SquareStrict(t, root);
    } else {
      SquareMonotone(-t, -w);
      AbsSquare(t);
      AbsSquare(w);
    }
  }

  /** The repair: below the floored root every burn keeps the product, above it none does. */
  lemma GuardAround(sell: nat, s: nat, other: nat, root: nat, c: int)
    requires sell >= 1 && other >= 1
    requires Discriminant(sell, s, other) >= 0 && IsFloorSqrt(Discriminant(sell, s, other), root)
    ensures var start := (sell + s + other - root) / 2;
            && (c < start ==> Keeps(sell, s, other, c))
            && (start < c <= other ==> !Keeps(sell, s, other, c))
  {
    var d := Discriminant(sell, s, other);
    var b := sell + s + other;
    RootBounds(sell, s, other, root);
    CompleteSquare(sell, s, other, c);
    if c < (b - root) / 2 {
      BelowStart(d, b, root, c);
    } else if (b - root) / 2 < c <= other {
      DiscriminantForm(sell, s, other);
      ProductBound(1, 1, sell, other);
      AboveStart(d, b, root, sell + s - other, c);
    }
  }

  /** The drain guard fires exactly when `2*sell*other <= sell + s - other`. */
  lemma DrainGuard(sell: nat, s: nat, other: nat, root: nat)
    requires sell >= 1 && other >= 1
    requires Discriminant(sell, s, other) >= 0 && IsFloorSqrt(Discriminant(sell, s, other), root)
    ensures (sell + s + other - root) / 2 >= other <==> 2 * (sell * other) <= sell + s - other
  {
    var w := sell + s - other;
    var k := sell * other;
    DiscriminantForm(sell, s, other);
    ProductBound(1, 1, sell, other);
    assert (w + 1) * (w + 1) == w * w + 2 * w + 1;
    if root <= w {
      SquareMonotone(root + 1, w + 1);
    }
    if 2 * k <= w {
      SquareOrder(root, w + 1);
    }
  }

  // ---------------------------------------------------------------- quoting

  /** What the quote must be, with no square root and no loop in it. */
  ghost function SellSpec(pool: Pool, side: Side, shares: I64, fee: Bps): Result<SellQuote, AmmError>
    requires pool.Valid()
  {
    var sell, other := pool.Reserve(side), pool.Reserve(side.Other());
    if shares <= 0 then Err(AmountTooSmall)
    else if shares > MAX_AMOUNT then Err(InputTooLarge)
    else if 2 * (sell * other) <= sell + shares - other then Err(DrainsPool)
    else
      GreatestBurnIsGreatest(sell, shares, other, 0);
      var c := GreatestBurn(sell, shares, other);
      if c == 0 then Err(AmountTooSmall)
      else if sell + shares - c > MAX_RESERVE then Err(InputTooLarge)
      else if fee > 10_000 then Err(InputTooLarge)
      else
        FeeIsAtMostGross(c, fee);
        Ok(SellQuote(c - CeilFee(c, fee), CeilFee(c, fee), pool.WithReserves(side, sell + shares - c, other - c)))
  }

  /** A burn of `m` can be had: it empties nothing and keeps the product. */
  ghost predicate CanBurn(sell: nat, s: nat, other: nat, m: int) { m <= 0 || (m <= other && Keeps(sell, s, other, m)) }

  lemma BurnReaches(sell: nat, s: nat, other: nat, m: int)
    requires sell >= 1 && other >= 1
    ensures GreatestBurn(sell, s, other) >= m <==> CanBurn(sell, s, other, m)
  {
    var c := GreatestBurn(sell, s, other);
    GreatestBurnIsGreatest(sell, s, other, if m > 0 then m else 0);
    if 0 < m <= c { ProductBound(sell + s - c, other - c, sell + s - m, other - m); }
  }

  /** What a sell needs: sane inputs, a burn of at least one, and room for the shares that stay in the pool. */
  ghost predicate SellAccepted(pool: Pool, side: Side, shares: I64, fee: Bps)
    requires pool.Valid()
  {
    var sell, other := pool.Reserve(side), pool.Reserve(side.Other());
    && 0 < shares <= MAX_AMOUNT && fee <= 10_000
    && sell + shares - other < 2 * (sell * other)
    && CanBurn(sell, shares, other, 1) && CanBurn(sell, shares, other, sell + shares - MAX_RESERVE)
  }

  ghost function SellError(pool: Pool, side: Side, shares: I64): AmmError
    requires pool.Valid()
  {
    var sell, other := pool.Reserve(side), pool.Reserve(side.Other());
    if shares <= 0 then AmountTooSmall
    else if shares > MAX_AMOUNT then InputTooLarge
    else if sell + shares - other >= 2 * (sell * other) then DrainsPool
    else if !CanBurn(sell, shares, other, 1) then AmountTooSmall
    else InputTooLarge
  }

  /**
   Seller and fee share the greatest burn that keeps the product, the fee is
   its rate rounded up, and both reserves give up the burn.
   */
  ghost predicate SellShares(pool: Pool, side: Side, shares: nat, fee: Bps, q: SellQuote)
    requires pool.Valid()
  {
    var sell, other := pool.Reserve(side), pool.Reserve(side.Other());
    var gross := q.collateralOut + q.fee;
    && 0 < gross && 0 <= q.collateralOut
    && gross * fee <= 10_000 * q.fee < gross * fee + 10_000
    && Keeps(sell, shares, other, gross) && (forall d :: gross < d <= other ==> !Keeps(sell, shares, other, d))
    && q.poolAfter.Reserve(side) == sell + shares - gross && q.poolAfter.Reserve(side.Other()) == other - gross
    && q.poolAfter.fee == pool.fee
  }

  /** Exactly when a sell is quoted, why it is not otherwise, and what the quote is. */
  lemma SellIsExact(pool: Pool, side: Side, shares: I64, fee: Bps)
    requires pool.Valid()
    ensures var r := SellSpec(pool, side, shares, fee);
            && (r.Ok? <==> SellAccepted(pool, side, shares, fee))
            && (r.Err? ==> r.error == SellError(pool, side, shares))
            && (r.Ok? ==> SellShares(pool, side, shares, fee, r.value))
  {
    var sell, other := pool.Reserve(side), pool.Reserve(side.Other());
    if shares > 0 {
      BurnReaches(sell, shares, other, 1);
      BurnReaches(sell, shares, other, sell + shares - MAX_RESERVE);
      GreatestBurnIsGreatest(sell, shares, other, 0);
      forall d: nat | GreatestBurn(sell, shares, other) < d <= other ensures !Keeps(sell, shares, other, d) {
        GreatestBurnIsGreatest(sell, shares, other, d);
      }
      if fee <= 10_000 { FeeIsAtMostGross(GreatestBurn(sell, shares, other), fee); }
    }
  }

  /** Every sell refused as draining could have burned down to exactly one unit of the other side. */
  lemma DrainRefusalLeavesOne(pool: Pool, side: Side, shares: I64, fee: Bps)
    requires pool.Valid() && SellSpec(pool, side, shares, fee) == Err(DrainsPool)
    ensures GreatestBurn(pool.Reserve(side), shares, pool.Reserve(side.Other())) == pool.Reserve(side.Other()) - 1
  {
    var sell, other := pool.Reserve(side), pool.Reserve(side.Other());
    ProductBound(1, 1, sell, other);
    assert (sell + shares - other) * 0 == 0;
    BurnIsUnique(sell, shares, other, other - 1);
  }

  /** Such a sell: five shares into a reserve of one against two burn one set, and are refused. */
  lemma DrainRefusalHappens(pool: Pool, fee: Bps)
    requires pool.yes == 1 && pool.no == 2 && pool.fee <= 10_000
    ensures pool.Valid() && SellSpec(pool, Yes, 5, fee) == Err(DrainsPool)
    ensures GreatestBurn(1, 5, 2) == 1
  {
  }

  lemma SellProductsFit(sell: nat, s: nat, other: nat)
    requires sell <= MAX_RESERVE && s <= MAX_AMOUNT && other <= MAX_RESERVE
    ensures FitsU128(sell * other)
    ensures FitsU128((sell + s + other) * (sell + s + other))
    ensures FitsU128(4 * (s * other))
    ensures FitsU128(Discriminant(sell, s, other))
  {
    var b := sell + s + other;
    ProductBound(sell, other, MAX_RESERVE, MAX_RESERVE);
    ProductBound(s, other, MAX_AMOUNT, MAX_RESERVE);
    ProductBound(b, b, 3 * MAX_RESERVE, 3 * MAX_RESERVE);
    SignOfProduct(s, other);
    DiscriminantNonNegative(sell, s, other);
  }

  lemma DiscriminantNonNegative(sell: nat, s: nat, other: nat)
    ensures Discriminant(sell, s, other) >= 0
  {
    DiscriminantForm(sell, s, other);
    AbsSquare(sell + s - other);
    SignOfProduct(sell, other);
  }

  lemma GuardProductFits(sell: nat, s: nat, other: nat, c: nat)
    requires sell <= MAX_RESERVE && s <= MAX_AMOUNT && other <= MAX_RESERVE
    requires c <= sell + s && c <= other
    ensures FitsU128((sell + s - c) * (other - c))
  {
    ProductBound(sell + s - c, other - c, 2 * MAX_RESERVE, MAX_RESERVE);
  }

  /** The guard loop: step down while the product would shrink; one step is always enough. */
  method RepairBurn(sell: nat, s: nat, other: nat, ghost root: nat, start: nat) returns (c: nat)
    requires 1 <= sell <= MAX_RESERVE && s <= MAX_AMOUNT && 1 <= other <= MAX_RESERVE
    requires Discriminant(sell, s, other) >= 0 && IsFloorSqrt(Discriminant(sell, s, other), root)
    requires start == (sell + s + other - root) / 2 < other
    ensures c == GreatestBurn(sell, s, other)
    ensures start - 1 <= c <= start
  {
    RootBounds(sell, s, other, root);
    GuardProductFits(sell, 0, other, 0);
    var k: U128 := sell * other;
    forall d: int | start < d <= other
      ensures !Keeps(sell, s, other, d)
    {
      GuardAround(sell, s, other, root, d);
    }
    GuardAround(sell, s, other, root, start - 1);
    c := start;
    while c > 0
      invariant start - 1 <= c <= start
      invariant forall d :: c < d <= other ==> !Keeps(sell, s, other, d)
    {
      GuardProductFits(sell, s, other, c);
      var after: U128 := (sell + s - c) * (other - c);
      if after >= k { break; }
      c := c - 1;
    }
    if c == 0 {
      GreatestBurnIsGreatest(sell, s, other, 1);
    } else {
      BurnIsUnique(sell, s, other, c);
    }
  }

  /** The floored root of the quadratic, the drain guard on it, then the repair. */
  method FindBurn(sell: nat, shares: nat, other: nat) returns (burn: Option<nat>)
    requires 1 <= sell <= MAX_RESERVE && shares <= MAX_AMOUNT && 1 <= other <= MAX_RESERVE
    ensures burn.None? <==> 2 * (sell * other) <= sell + shares - other
    ensures burn.Some? ==> burn.value == GreatestBurn(sell, shares, other)
  {
    SellProductsFit(sell, shares, other);
    var bsum: U128 := sell + shares + other;
    var disc: U128 := bsum * bsum - 4 * (shares * other);
    var root := IsqrtU128(disc);
    RootBounds(sell, shares, other, root);
    DrainGuard(sell, shares, other, root);
    var c := (bsum - root) / 2;
    if c >= other { return None; }
    c := RepairBurn(sell, shares, other, root, c);
    return Some(c);
  }

  /**
   The quote as computed: floored root, drain guard, repair loop, caps, fee.
   The guard loop takes at most one step and nothing underflows or overflows.
   */
  method QuoteSell(pool: Pool, side: Side, shares: I64, fee: Bps) returns (r: Result<SellQuote, AmmError>)
    requires pool.Valid()
    ensures r == SellSpec(pool, side, shares, fee)
    ensures r.Ok? <==> SellAccepted(pool, side, shares, fee)
    ensures if r.Ok? then SellShares(pool, side, shares, fee, r.value) else r.error == SellError(pool, side, shares)
  {
    SellIsExact(pool, side, shares, fee);
    if shares <= 0 { return Err(AmountTooSmall); }
    if shares > MAX_AMOUNT { return Err(InputTooLarge); }
    var sell, other := pool.Reserve(side), pool.Reserve(side.Other());
    var burn := FindBurn(sell, shares, other);
    if burn.None? { return Err(DrainsPool); }
    var c := burn.value;
    GreatestBurnIsGreatest(sell, shares, other, 0);
    if c == 0 { return Err(AmountTooSmall); }
    var sellAfter, otherAfter := sell + shares - c, other - c;
    if sellAfter > MAX_RESERVE { return Err(InputTooLarge); }
    if fee > 10_000 { return Err(InputTooLarge); }
    var split := ApplyFee(c, fee);
    return Ok(SellQuote(split.value.net, split.value.fee, pool.WithReserves(side, sellAfter, otherAfter)));
  }
}
