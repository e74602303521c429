/** One trade's legs: the quote, the position formula and the money each party moves. */
module Trading {
  import opened Money
  import opened Amm
  import opened AmmSell
  import opened AmmLaws

  datatype Action = Buy | Sell

  /** Collateral for a buy, shares for a sell. */
  datatype Order = Order(side: Side, action: Action, amount: I64)

  datatype Position = Position(shares: I64, cost: I64, realized: I64) {
    /** Nothing is held at a negative amount, and nothing held means nothing at cost. */
    predicate Held() { 0 <= shares && 0 <= cost && (shares == 0 ==> cost == 0) }
  }

  const NOTHING: Position := Position(0, 0, 0)

  datatype TradeError = Quote(error: AmmError) | InsufficientShares | TradeOverflow

  datatype Legs = Legs(
    shares: I64, gross: I64, fee: I64, poolAfter: Pool,
    userDelta: I64, escrowDelta: I64, feeDelta: I64,
    position: Position, realizedDelta: Option<I64>)

  /** Floor share of the cost relieved when `sold` of `shares` go. */
  function CostRelieved(cost: nat, sold: nat, shares: nat): (r: nat)
    requires 0 < sold <= shares
    ensures r * shares <= cost * sold < (r + 1) * shares
    ensures r <= cost
    ensures sold == shares ==> r == cost
  {
    QuotientBracket(cost * sold, shares);
    RelievedAtMostCost(cost, sold, shares, cost * sold / shares);
    cost * sold / shares
  }

  lemma RelievedAtMostCost(cost: nat, sold: nat, shares: nat, r: int)
    requires 0 < sold <= shares && r * shares <= cost * sold < (r + 1) * shares
    ensures 0 <= r <= cost && (sold == shares ==> r == cost)
  {
    ProductBound(cost, sold, cost, shares);
    DivisionOrder(r, cost + 1, shares);
    DivisionOrder(-1, r, shares);
    if sold == shares { DivisionOrder(cost, r + 1, shares); }
  }

  ghost function BuySpec(pool: Pool, order: Order, held: Position, fee: Bps): Result<Legs, TradeError>
    requires pool.Valid()
  {
    var q := QuoteBuy(pool, order.side, order.amount, fee);
    if q.Err? then Err(Quote(q.error))
    else
      BuyIsExact(pool, order.side, order.amount, fee);
      if !FitsI64(held.shares + q.value.sharesOut) || !FitsI64(held.cost + order.amount) then Err(TradeOverflow)
      else Ok(Legs(q.value.sharesOut, order.amount, q.value.fee, q.value.poolAfter,
                   -order.amount, order.amount - q.value.fee, q.value.fee,
                   Position(held.shares + q.value.sharesOut, held.cost + order.amount, held.realized), None))
  }

  ghost function SellLegsSpec(pool: Pool, order: Order, held: Position, fee: Bps): Result<Legs, TradeError>
    requires pool.Valid() && held.Held()
  {
    if held.shares < order.amount || order.amount <= 0 then Err(InsufficientShares)
    else
      var q := SellSpec(pool, order.side, order.amount, fee);
      if q.Err? then Err(Quote(q.error))
      else
        SellIsSound(pool, order.side, order.amount, fee);
        var out, gross := q.value.collateralOut, q.value.collateralOut + q.value.fee;
        var relieved := CostRelieved(held.cost, order.amount, held.shares);
        if !FitsI64(held.realized + (out - relieved)) then Err(TradeOverflow)
        else Ok(Legs(order.amount, gross, q.value.fee, q.value.poolAfter,
                     out, -gross, q.value.fee,
                     Position(held.shares - order.amount, held.cost - relieved, held.realized + (out - relieved)),
                     Some(out - relieved)))
  }

  ghost function LegsSpec(pool: Pool, order: Order, held: Position, fee: Bps): Result<Legs, TradeError>
    requires pool.Valid() && held.Held()
  {
    if order.action.Buy? then BuySpec(pool, order, held, fee) else SellLegsSpec(pool, order, held, fee)
  }

  /** The legs as computed, with every checked step in place; the average price never overflows. */
  method QuoteLegs(pool: Pool, order: Order, held: Option<Position>, fee: Bps) returns (r: Result<Legs, TradeError>)
    requires pool.Valid() && (held.Some? ==> held.value.Held())
    ensures r == LegsSpec(pool, order, if held.Some? then held.value else NOTHING, fee)
  {
    var position := if held.Some? then held.value else NOTHING;
    match order.action
    case Buy => r := BuyLegs(pool, order, position, fee);
    case Sell => r := SellLegs(pool, order, position, fee);
  }

  method BuyLegs(pool: Pool, order: Order, held: Position, fee: Bps) returns (r: Result<Legs, TradeError>)
    requires pool.Valid()
    ensures r == BuySpec(pool, order, held, fee)
  {
    var q := QuoteBuy(pool, order.side, order.amount, fee);
    if q.Err? { return Err(Quote(q.error)); }
    BuyIsExact(pool, order.side, order.amount, fee);
    var net, position := order.amount - q.value.fee, held;
    if !FitsI64(position.shares + q.value.sharesOut) { return Err(TradeOverflow); }
    position := position.(shares := position.shares + q.value.sharesOut);
    if !FitsI64(position.cost + order.amount) { return Err(TradeOverflow); }
    position := position.(cost := position.cost + order.amount);
    return Ok(Legs(q.value.sharesOut, order.amount, q.value.fee, q.value.poolAfter,
                   -order.amount, net, q.value.fee, position, None));
  }

  method SellLegs(pool: Pool, order: Order, held: Position, fee: Bps) returns (r: Result<Legs, TradeError>)
    requires pool.Valid() && held.Held()
    ensures r == SellLegsSpec(pool, order, held, fee)
  {
    var shares := order.amount;
    if held.shares < shares || shares <= 0 { return Err(InsufficientShares); }
    var q := QuoteSell(pool, order.side, shares, fee);
    if q.Err? { return Err(Quote(q.error)); }
    SellIsSound(pool, order.side, shares, fee);
    var out, proceeds := q.value.collateralOut, q.value.collateralOut + q.value.fee;
    var after := Relieve(held, shares, out);
    if after.None? { return Err(TradeOverflow); }
    SellPriceFits(proceeds, shares);
    return Ok(Legs(shares, proceeds, q.value.fee, q.value.poolAfter,
                   out, -proceeds, q.value.fee, after.value, Some(after.value.realized - held.realized)));
  }

  /** The position once `shares` of it are sold for `out`; none if its profit leaves the 64-bit range. */
  method Relieve(held: Position, shares: I64, out: I64) returns (after: Option<Position>)
    requires held.Held() && 0 < shares <= held.shares
    ensures var relieved := CostRelieved(held.cost, shares, held.shares);
            if FitsI64(held.realized + (out - relieved))
            then after == Some(Position(held.shares - shares, held.cost - relieved, held.realized + (out - relieved)))
            else after.None?
  {
    var relieved := CostRelieved(held.cost, shares, held.shares);
    var position, pnl := held, out - relieved;
    if !FitsI64(position.realized + pnl) { return None; }
    position := position.(realized := position.realized + pnl);
    position := position.(shares := position.shares - shares);
    position := position.(cost := position.cost - relieved);
    return Some(position);
  }

  lemma SellPriceFits(proceeds: nat, shares: nat)
    requires proceeds <= shares && 0 < shares <= MAX_AMOUNT
    ensures AveragePrice(proceeds, shares).Ok?
  {
    QuotientAtMost(proceeds * 1_000_000, shares, 1_000_000);
  }

  /** Shares the order hands to (or takes from) the user on `side`. */
  ghost function ShareDelta(order: Order, legs: Legs, side: Side): int {
    if side != order.side then 0 else if order.action.Buy? then legs.shares else 0 - legs.shares
  }

  /** The pool stays valid, its product does not fall, and both sides move by the escrow leg. */
  ghost predicate PoolConserved(pool: Pool, order: Order, legs: Legs) {
    && legs.poolAfter.Valid()
    && legs.poolAfter.fee == pool.fee
    && legs.poolAfter.Product() >= pool.Product()
    && (forall side ::
          legs.poolAfter.Reserve(side) + ShareDelta(order, legs, side) == pool.Reserve(side) + legs.escrowDelta)
    && pool.Reserve(order.side.Other()) + legs.escrowDelta > 0
  }

  /** The three money legs cancel; only a sell's user leg can be zero. */
  ghost predicate MoneyConserved(order: Order, legs: Legs) {
    && legs.userDelta + legs.escrowDelta + legs.feeDelta == 0
    && legs.feeDelta >= 0
    && legs.escrowDelta != 0
    && (if order.action.Buy? then legs.userDelta < 0 else legs.userDelta >= 0)
  }

  /** The position stays sane, moves by the shares, and its realized less cost moves by the user's cash. */
  ghost predicate PositionConserved(order: Order, held: Position, legs: Legs) {
    && legs.position.Held()
    && legs.position.shares == held.shares + ShareDelta(order, legs, order.side)
    && legs.position.realized - legs.position.cost == held.realized - held.cost + legs.userDelta
    && legs.position.realized == held.realized + (if legs.realizedDelta.Some? then legs.realizedDelta.value else 0)
  }

  lemma ProductBySide(pool: Pool, side: Side)
    ensures pool.Product() == pool.Reserve(side) * pool.Reserve(side.Other())
  {
  }

  lemma LegsAreSound(pool: Pool, order: Order, held: Position, fee: Bps)
    requires pool.Valid() && held.Held()
    requires LegsSpec(pool, order, held, fee).Ok?
    ensures var legs := LegsSpec(pool, order, held, fee).value;
            PoolConserved(pool, order, legs) && MoneyConserved(order, legs) && PositionConserved(order, held, legs)
  {
    var legs := LegsSpec(pool, order, held, fee).value;
    ProductBySide(pool, order.side);
    ProductBySide(legs.poolAfter, order.side);
    match order.action
    case Buy => BuyIsExact(pool, order.side, order.amount, fee);
    case Sell => SellIsSound(pool, order.side, order.amount, fee);
  }

  // ---------------------------------------------------------------- the legs, exactly

  /** A buy pays the gross amount; all of it becomes cost, and nothing is realized. */
  ghost predicate BuyLegsExact(pool: Pool, order: Order, held: Position, fee: Bps, legs: Legs)
    requires order.amount >= 0
  {
    && BuyMoves(pool, order.side, order.amount, fee, legs.shares, legs.fee, legs.poolAfter)
    && legs.gross == order.amount && legs.feeDelta == legs.fee
    && legs.userDelta == 0 - order.amount && legs.escrowDelta == order.amount - legs.fee
    && legs.position.shares == held.shares + legs.shares && legs.position.cost == held.cost + order.amount
    && legs.position.realized == held.realized && legs.realizedDelta.None?
  }

  /** A sell relieves its floored share of the cost; what it brings beyond that is realized. */
  ghost predicate SellLegsExact(pool: Pool, order: Order, held: Position, fee: Bps, legs: Legs)
    requires pool.Valid() && order.amount > 0
  {
    var relieved := held.cost - legs.position.cost;
    && SellShares(pool, order.side, order.amount, fee, SellQuote(legs.userDelta, legs.fee, legs.poolAfter))
    && legs.shares == order.amount && legs.gross == legs.userDelta + legs.fee
    && legs.escrowDelta == 0 - legs.gross && legs.feeDelta == legs.fee
    && relieved * held.shares <= held.cost * order.amount < (relieved + 1) * held.shares
    && legs.position.shares == held.shares - order.amount
    && legs.position.realized == held.realized + (legs.userDelta - relieved)
    && legs.realizedDelta == Some(legs.userDelta - relieved)
  }

  /** Why an order has no legs: the shares, the quote, or a 64-bit overflow of the position, in this order. */
  ghost function LegsError(pool: Pool, order: Order, held: Position, fee: Bps): Option<TradeError>
    requires pool.Valid() && held.Held()
  {
    if order.action.Buy? then
      if !BuyAccepted(pool, order.side, order.amount, fee)
      then Some(Quote(BuyError(pool, order.side, order.amount, fee)))
      else
        BuyIsExact(pool, order.side, order.amount, fee);
        var shares := QuoteBuy(pool, order.side, order.amount, fee).value.sharesOut;
        if FitsI64(held.shares + shares) && FitsI64(held.cost + order.amount) then None else Some(TradeOverflow)
    else if order.amount <= 0 || held.shares < order.amount then Some(InsufficientShares)
    else if !SellAccepted(pool, order.side, order.amount, fee)
    then Some(Quote(SellError(pool, order.side, order.amount)))
    else
      SellIsExact(pool, order.side, order.amount, fee);
      var out := SellSpec(pool, order.side, order.amount, fee).value.collateralOut;
      if FitsI64(held.realized + (out - CostRelieved(held.cost, order.amount, held.shares)))
      then None else Some(TradeOverflow)
  }

  /** Exactly which orders have legs, and exactly which legs they are. */
  lemma LegsAreExact(pool: Pool, order: Order, held: Position, fee: Bps)
    requires pool.Valid() && held.Held()
    ensures var r := LegsSpec(pool, order, held, fee);
            && (if r.Ok? then LegsError(pool, order, held, fee).None?
                else LegsError(pool, order, held, fee) == Some(r.error))
            && (r.Ok? && order.action.Buy? ==> order.amount >= 0 && BuyLegsExact(pool, order, held, fee, r.value))
            && (r.Ok? && order.action.Sell? ==> order.amount > 0 && SellLegsExact(pool, order, held, fee, r.value))
  {
    match order.action
    case Buy => BuyIsExact(pool, order.side, order.amount, fee);
    case Sell => SellIsExact(pool, order.side, order.amount, fee);
  }
}
