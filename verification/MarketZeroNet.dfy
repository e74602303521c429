/** A market, reached from seeding, in which a quoted sell is refused because its fee takes the whole burn. */
module MarketZeroNet {
  import opened Money
  import opened Amm
  import opened AmmSell
  import opened Ledger
  import opened Lifecycle
  import opened Trading
  import opened MarketWorld
  import opened MarketResolve
  import opened MarketRuns
  import opened MarketPayable

  // ---------------------------------------------------------------- a placed trade

  lemma ContraUntouched(w: World, cmd: TradeCmd, legs: Legs, ext: AccountId)
    requires ExternalOf(w.accounts, ext, Usdc) && Filed(w.accounts)
    ensures Delta(TradeEntries(w, cmd, legs), ext) == 0
    ensures ext in TradeAccounts(w, cmd, legs) && TradeAccounts(w, cmd, legs)[ext] == w.accounts[ext]
  {
    TradeDeltas(w, cmd, legs, ext);
  }

  lemma FundedAfterTrade(w: World, cmd: TradeCmd, fee: Bps, ext: AccountId)
    requires w.pool.Valid() && PositionsKept(w) && Funded(w.accounts, ext)
    requires TradeNext(w, cmd, fee, false, true).1.Placed?
    ensures Funded(TradeNext(w, cmd, fee, false, true).0.accounts, ext)
  {
    TradeKeepsBooks(w, cmd, fee, false, true);
    ContraUntouched(w, cmd, LegsSpec(w.pool, cmd.order, w.PositionAt(Slot(cmd.user, cmd.order.side)), fee).value, ext);
  }

  /** A live market in a funded ledger: its pool, a voter's balance, and the trades it has seen. */
  ghost predicate Stage(w: World, user: nat, ext: AccountId, yes: int, no: int, balance: int, keys: set<nat>) {
    && Inv(w) && Funded(w.accounts, ext) && w.state.Live? && user in w.votes
    && w.pool.yes == yes && w.pool.no == no
    && Balance(w.accounts, UserId(user)) >= balance && w.receipts.Keys <= keys
  }

  /** An affordable buy moves the market to its next stage. */
  lemma BuyAdvances(w: World, user: nat, ext: AccountId, yes: int, no: int, balance: int, keys: set<nat>,
                    cmd: TradeCmd, legs: Legs)
    requires Stage(w, user, ext, yes, no, balance, keys)
    requires cmd.user == user && cmd.version.Some? && cmd.key !in keys && cmd.order.action.Buy?
    requires LegsSpec(w.pool, cmd.order, Kept(w, Slot(user, cmd.order.side)), 0) == Ok(legs)
    requires legs.userDelta == 0 - cmd.order.amount && 0 < cmd.order.amount <= balance
    ensures var w' := TradeNext(w, cmd, 0, false, true).0;
            && Stage(w', user, ext, legs.poolAfter.yes, legs.poolAfter.no, balance - cmd.order.amount, keys + {cmd.key})
            && w'.positions == w.positions[Slot(user, cmd.order.side) := legs.position]
  {
    QuotedIsPlaced(w, cmd, 0, ext);
    TradeKeepsInv(w, cmd, 0, false, true);
    FundedAfterTrade(w, cmd, 0, ext);
    TradePosts(w, cmd, legs);
  }

  lemma FirstBuyLegs(pool: Pool)
    requires pool.Valid() && pool.yes == 4 && pool.no == 4
    ensures LegsSpec(pool, Order(Yes, Action.Buy, 4), NOTHING, 0)
         == Ok(Legs(6, 4, 0, Amm.Pool.Pool(2, 8, pool.fee), -4, 4, 0, Position(6, 4, 0), None))
  {
    assert FillBuy(4, 4, 4, 4) == Ok(BuyFill(2, 8, 6, 666_666));
    assert QuoteBuy(pool, Yes, 4, 0) == Ok(BuyQuote(6, 0, Amm.Pool.Pool(2, 8, pool.fee), 666_666));
  }

  lemma SecondBuyLegs(pool: Pool)
    requires pool.Valid() && pool.yes == 2 && pool.no == 8
    ensures LegsSpec(pool, Order(No, Action.Buy, 2), NOTHING, 0)
         == Ok(Legs(6, 2, 0, Amm.Pool.Pool(4, 4, pool.fee), -2, 2, 0, Position(6, 2, 0), None))
  {
    assert FillBuy(8, 2, 2, 2) == Ok(BuyFill(4, 4, 6, 333_333));
    assert QuoteBuy(pool, No, 2, 0) == Ok(BuyQuote(6, 0, Amm.Pool.Pool(4, 4, pool.fee), 333_333));
  }

  // ---------------------------------------------------------------- the sell

  lemma SmallBurn(r: nat)
    requires r >= 2
    ensures GreatestBurn(r, 3, r) == 1
  {
    assert (r + 3 - 1) * (r - 1) == r * r + r - 2;
    assert (r + 3 - 2) * (r - 2) == r * r - r - 2;
    BurnIsUnique(r, 3, r, 1);
  }

  /** Three shares into any even pool, at any positive fee, are quoted and pay nothing. */
  lemma ZeroNetSell(pool: Pool, held: Position, fee: Bps)
    requires pool.Valid() && pool.yes == pool.no && 4 <= pool.yes <= MAX_RESERVE - 2
    requires held.Held() && held.shares >= 3 && held.realized == 0 && 0 < fee <= 10_000
    ensures LegsSpec(pool, Order(Yes, Action.Sell, 3), held, fee).Ok?
    ensures LegsSpec(pool, Order(Yes, Action.Sell, 3), held, fee).value.userDelta == 0
  {
    SmallBurn(pool.yes);
    ProductBound(4, 4, pool.yes, pool.no);
  }

  // ---------------------------------------------------------------- the run

  ghost function BuyYes(user: nat): TradeCmd { TradeCmd(1, user, Order(Yes, Action.Buy, 4), Some(1)) }
  ghost function BuyNo(user: nat): TradeCmd { TradeCmd(2, user, Order(No, Action.Buy, 2), Some(1)) }
  ghost function SellYes(user: nat): TradeCmd { TradeCmd(3, user, Order(Yes, Action.Sell, 3), Some(1)) }

  /** Go live, vote, buy YES for 4 and NO for 2 without a fee: the pool is even again. */
  ghost function EvenAgain(user: nat): seq<Step> {
    [AdvanceStep(GoLive), VoteStep(VoteCmd(0, user, Yes, 50), true, true),
     TradeStep(BuyYes(user), 0, false, true), TradeStep(BuyNo(user), 0, false, true)]
  }

  lemma RunThen(w: World, steps: seq<Step>, step: Step)
    requires Inv(w)
    ensures MarketRuns.Run(w, steps + [step]) == Perform(MarketRuns.Run(w, steps), step)
  {
    assert (steps + [step])[..|steps|] == steps;
  }

  /** A fresh market of seed 4 with money for the trades. */
  ghost predicate Seeded(w: World, user: nat, ext: AccountId) {
    && Inv(w) && Funded(w.accounts, ext) && w.state.Scheduled? && w.pool.yes == 4 && w.pool.no == 4
    && w.positions == map[] && w.receipts == map[] && w.votes == map[] && w.ballots == map[]
    && Balance(w.accounts, UserId(user)) >= 6
  }

  lemma GoesLive(w: World, user: nat, ext: AccountId)
    requires Seeded(w, user, ext)
    ensures var live := MarketRuns.Run(w, EvenAgain(user)[..2]);
            Stage(live, user, ext, 4, 4, 6, {}) && live.positions == map[]
  {
    var steps := EvenAgain(user);
    RunThen(w, [], steps[0]);
    assert [] + [steps[0]] == steps[..1];
    assert MarketRuns.Run(w, steps[..1]) == w.(state := Live);
    RunThen(w, steps[..1], steps[1]);
    assert steps[..1] + [steps[1]] == steps[..2];
  }

  lemma BuysYes(w: World, user: nat, ext: AccountId)
    requires Seeded(w, user, ext)
    ensures var bought := MarketRuns.Run(w, EvenAgain(user)[..3]);
            && Stage(bought, user, ext, 2, 8, 2, {1})
            && bought.positions == map[Slot(user, Yes) := Position(6, 4, 0)]
  {
    var steps := EvenAgain(user);
    GoesLive(w, user, ext);
    RunThen(w, steps[..2], steps[2]);
    assert steps[..2] + [steps[2]] == steps[..3];
    var live := MarketRuns.Run(w, steps[..2]);
    FirstBuyLegs(live.pool);
    var legs := Legs(6, 4, 0, Amm.Pool.Pool(2, 8, live.pool.fee), -4, 4, 0, Position(6, 4, 0), None);
    BuyAdvances(live, user, ext, 4, 4, 6, {}, BuyYes(user), legs);
  }

  lemma BuysNo(w: World, user: nat, ext: AccountId)
    requires Seeded(w, user, ext)
    ensures var even := MarketRuns.Run(w, EvenAgain(user));
            Stage(even, user, ext, 4, 4, 0, {1, 2}) && even.PositionAt(Slot(user, Yes)) == Position(6, 4, 0)
  {
    var steps := EvenAgain(user);
    BuysYes(w, user, ext);
    RunThen(w, steps[..3], steps[3]);
    assert steps[..3] + [steps[3]] == steps;
    var bought := MarketRuns.Run(w, steps[..3]);
    SecondBuyLegs(bought.pool);
    var legs := Legs(6, 2, 0, Amm.Pool.Pool(4, 4, bought.pool.fee), -2, 2, 0, Position(6, 2, 0), None);
    BuyAdvances(bought, user, ext, 2, 8, 2, {1}, BuyNo(user), legs);
  }

  lemma SeedOfFour(accounts: Accounts, market: nat, user: nat, ext: AccountId, poolFee: Bps)
    requires Funded(accounts, ext) && EscrowOf(market) !in accounts && poolFee <= 10_000
    requires Balance(accounts, HOUSE) >= 4 && Balance(accounts, UserId(user)) >= 6
    ensures SeedNext(accounts, market, 4, poolFee, 0, true).Ok?
    ensures Seeded(SeedNext(accounts, market, 4, poolFee, 0, true).value, user, ext)
  {
    var ready := SeedAccounts(accounts, market);
    var pool := AccountId(MarketPool(market), Usdc);
    FundedAfterOpening(accounts, ext, pool);
    FundedAfterOpening(WithAccount(accounts, pool), ext, HOUSE);
    FundedAfterOpening(WithAccount(WithAccount(accounts, pool), HOUSE), ext, EscrowOf(market));
    SeedIsTaken(ready, market, ext);
    SeedIsSolvent(accounts, market, 4, poolFee, 0, true);
    PostingKeepsBooks(ready, SeedEntries(market, 4));
    SeedDelta(market, 4, ext);
    SeedDelta(market, 4, UserId(user));
  }

  lemma SeedIsTaken(ready: Accounts, market: nat, ext: AccountId)
    requires Funded(ready, ext) && HOUSE in ready && EscrowOf(market) in ready && ready[HOUSE].balance >= 4
    ensures WellFormed(SeedEntries(market, 4)) && Acceptable(ready, SeedEntries(market, 4))
  {
    var entries := SeedEntries(market, 4);
    assert entries[..1] == [entries[0]] && entries[..1][..0] == [];
    assert EntrySum(entries[..1]) == -4;
    forall a | a in Touched(entries) ensures a in ready && ready[a].balance + Delta(entries, a) >= 0 {
      SeedDelta(market, 4, a);
      assert a == HOUSE || a == EscrowOf(market);
    }
    InternalCashIsTaken(ready, entries, ext);
  }

  lemma SellIsRefused(w: World, user: nat, ext: AccountId, fee: Bps)
    requires Stage(w, user, ext, 4, 4, 0, {1, 2}) && 0 < fee <= 10_000
    requires w.PositionAt(Slot(user, Yes)) == Position(6, 4, 0)
    ensures ReachesQuote(w, SellYes(user), fee)
    ensures TradeNext(w, SellYes(user), fee, false, true) == (w, Refused(Malformed(ZeroEntry)))
  {
    ZeroNetSell(w.pool, Position(6, 4, 0), fee);
    QuotedIsPlaced(w, SellYes(user), fee, ext);
  }

  /**
   In every funded ledger with a little money, for every pool fee and every
   positive rate, this run ends in a market where a sell of three shares is
   quoted and yet refused, because its user leg is zero.
   */
  lemma ZeroNetSellIsRefused(accounts: Accounts, market: nat, user: nat, ext: AccountId, poolFee: Bps, fee: Bps)
    requires Funded(accounts, ext) && EscrowOf(market) !in accounts && poolFee <= 10_000 && 0 < fee <= 10_000
    requires Balance(accounts, HOUSE) >= 4 && Balance(accounts, UserId(user)) >= 6
    ensures SeedNext(accounts, market, 4, poolFee, 0, true).Ok?
    ensures var start := SeedNext(accounts, market, 4, poolFee, 0, true).value;
            && Inv(start)
            && var w := MarketRuns.Run(start, EvenAgain(user));
               && ReachesQuote(w, SellYes(user), fee)
               && TradeNext(w, SellYes(user), fee, false, true) == (w, Refused(Malformed(ZeroEntry)))
  {
    SeedOfFour(accounts, market, user, ext, poolFee);
    var start := SeedNext(accounts, market, 4, poolFee, 0, true).value;
    BuysNo(start, user, ext);
    SellIsRefused(MarketRuns.Run(start, EvenAgain(user)), user, ext, fee);
  }
}
