/** Which commands a market takes, exactly, and what a taken command leaves behind. */
module MarketGates {
  import opened Money
  import opened Ledger
  import opened Resolution
  import opened Lifecycle
  import opened Trading
  import opened MarketWorld
  import opened MarketResolve
  import opened MarketRuns
  import opened MarketPayable

  // ---------------------------------------------------------------- votes

  function WhyNoVote(w: World, cmd: VoteCmd, beforeCutoff: bool, eligible: bool): Option<VoteRefusal> {
    if cmd.guess > 100 then Some(BadGuess)
    else if cmd.key in w.ballots then if w.ballots[cmd.key] == cmd then None else Some(VoteConflict)
    else if Rank(w.state) != 2 && Rank(w.state) != 3 then Some(NotOpen)
    else if !beforeCutoff then Some(PastCutoff)
    else if !eligible then Some(NotEligible)
    else if cmd.user in w.votes then Some(AlreadyVoted)
    else None
  }

  /**
   A fresh ballot is cast exactly while the market is live or closing, before
   the cutoff, by an eligible user who has not voted; it adds that one vote.
   A refused ballot names the first thing wrong with it and changes nothing.
   */
  lemma VoteIsExact(w: World, cmd: VoteCmd, beforeCutoff: bool, eligible: bool)
    ensures var (after, r) := VoteNext(w, cmd, beforeCutoff, eligible);
            && (r.VoteCast? <==>
                  && cmd.guess <= 100 && cmd.key !in w.ballots && (w.state.Live? || w.state.Closing?)
                  && beforeCutoff && eligible && cmd.user !in w.votes)
            && (r.VoteCast? ==>
                  && after == w.(votes := after.votes, ballots := w.ballots[cmd.key := cmd])
                  && after.votes.Keys == w.votes.Keys + {cmd.user} && after.votes[cmd.user] == cmd.side
                  && forall u :: u in w.votes ==> after.votes[u] == w.votes[u])
            && (!r.VoteCast? ==> after == w)
            && (r.VoteRefused? ==> WhyNoVote(w, cmd, beforeCutoff, eligible) == Some(r.reason))
  {
  }

  // ---------------------------------------------------------------- trades

  /** The first gate that stops a fresh, versioned trade before it is quoted. */
  function WhyNoQuote(w: World, cmd: TradeCmd, hidden: bool, admitted: bool): Option<Refusal> {
    if Rank(w.state) == 3 || (Rank(w.state) == 2 && hidden) then Some(TradingFrozen)
    else if Rank(w.state) != 2 then Some(MarketNotOpen)
    else if cmd.user !in w.votes then Some(VoteRequired)
    else if !admitted then Some(NotAdmitted)
    else None
  }

  /** A trade is quoted exactly in an open market with the tally in sight, for a voter who is let through. */
  lemma TradeGatesAreExact(w: World, cmd: TradeCmd, fee: Bps, hidden: bool, admitted: bool)
    requires Inv(w) && cmd.version.Some? && cmd.key !in w.receipts
    ensures var (after, r) := TradeNext(w, cmd, fee, hidden, admitted);
            var gate := WhyNoQuote(w, cmd, hidden, admitted);
            var error := LegsError(w.pool, cmd.order, Kept(w, Slot(cmd.user, cmd.order.side)), fee);
            && (gate.None? <==> w.state.Live? && !hidden && cmd.user in w.votes && admitted)
            && (gate.Some? ==> r == Refused(gate.value))
            && (gate.None? && error.Some? ==> r == Refused(Rejected(error.value)))
            && (gate.None? && error.None? ==>
                  r.Placed? || (r.Refused? && (r.reason.Malformed? || r.reason.LedgerRefused?)))
            && (!r.Placed? ==> after == w)
  {
    LegsAreExact(w.pool, cmd.order, Kept(w, Slot(cmd.user, cmd.order.side)), fee);
  }

  /** The rows of a placed trade: one position, the pool, a receipt, and a fact for what was realized. */
  ghost predicate WrittenDown(w: World, after: World, cmd: TradeCmd, legs: Legs) {
    var slot := Slot(cmd.user, cmd.order.side);
    && after.pool == legs.poolAfter && after.PositionAt(slot) == legs.position
    && (forall s :: s != slot ==> after.PositionAt(s) == w.PositionAt(s) && after.CashOf(s) == w.CashOf(s))
    && after.CashOf(slot) == w.CashOf(slot) + legs.userDelta && after.fees == w.fees + legs.feeDelta
    && after.receipts == w.receipts[cmd.key := Receipt(cmd, legs.shares, legs.gross, legs.fee)]
    && after.facts == w.facts + (if legs.realizedDelta.Some? then [Fact(slot, legs.realizedDelta.value)] else [])
    && after.votes == w.votes && after.ballots == w.ballots && after.state == w.state && after.payout == w.payout
  }

  /** A placed trade writes down exactly the legs of its order against the pool and position it found. */
  lemma PlacedIsExact(w: World, cmd: TradeCmd, fee: Bps, hidden: bool, admitted: bool) returns (legs: Legs)
    requires Inv(w) && TradeNext(w, cmd, fee, hidden, admitted).1.Placed?
    ensures WrittenDown(w, TradeNext(w, cmd, fee, hidden, admitted).0, cmd, legs)
    ensures var held := w.PositionAt(Slot(cmd.user, cmd.order.side));
            if cmd.order.action.Buy?
            then cmd.order.amount >= 0 && BuyLegsExact(w.pool, cmd.order, held, fee, legs)
            else cmd.order.amount > 0 && SellLegsExact(w.pool, cmd.order, held, fee, legs)
  {
    var held := Kept(w, Slot(cmd.user, cmd.order.side));
    LegsAreExact(w.pool, cmd.order, held, fee);
    legs := LegsSpec(w.pool, cmd.order, held, fee).value;
    BookedIsWritten(w, cmd, legs);
  }

  lemma WrittenIsDown(w: World, accounts: Accounts, cmd: TradeCmd, legs: Legs)
    ensures WrittenDown(w, Written(w.(accounts := accounts), cmd, legs), cmd, legs)
  {
  }

  lemma BookedIsWritten(w: World, cmd: TradeCmd, legs: Legs)
    requires Obstacle(w, cmd, legs).None?
    ensures WrittenDown(w, Booked(w, cmd, legs).0, cmd, legs)
  {
    WrittenIsDown(w, Posted(TradeAccounts(w, cmd, legs), TradeEntries(w, cmd, legs)), cmd, legs);
  }

  // ---------------------------------------------------------------- seeding

  lemma SeedIsAffordable(accounts: Accounts, market: nat, seed: I64, ext: AccountId)
    requires Funded(accounts, ext) && seed > 0 && EscrowOf(market) !in accounts
    ensures WellFormed(SeedEntries(market, seed))
    ensures Acceptable(SeedAccounts(accounts, market), SeedEntries(market, seed)) <==> Balance(accounts, HOUSE) >= seed
  {
    var ready, entries := SeedAccounts(accounts, market), SeedEntries(market, seed);
    var pool := AccountId(MarketPool(market), Usdc);
    FundedAfterOpening(accounts, ext, pool);
    FundedAfterOpening(WithAccount(accounts, pool), ext, HOUSE);
    FundedAfterOpening(WithAccount(WithAccount(accounts, pool), HOUSE), ext, EscrowOf(market));
    SeedSums(market, seed);
    forall a
      ensures Delta(entries, a) == (if a == HOUSE then 0 - seed else 0) + (if a == EscrowOf(market) then seed else 0)
    {
      SeedDelta(market, seed, a);
    }
    assert entries[0].account == HOUSE && entries[1].account == EscrowOf(market);
    assert Touched(entries) == {HOUSE, EscrowOf(market)};
    if Balance(accounts, HOUSE) >= seed { InternalCashIsTaken(ready, entries, ext); }
  }

  lemma SeedSums(market: nat, seed: I64)
    requires seed > 0
    ensures EntrySum(SeedEntries(market, seed)) == 0 && WellFormed(SeedEntries(market, seed))
  {
    var house, escrow := Entry(HOUSE, 0 - seed), Entry(EscrowOf(market), seed);
    assert [house, escrow] == [house] + [escrow];
    EntrySumAppend([house], [escrow]);
    SingleEntrySum(house);
    SingleEntrySum(escrow);
  }

  /** A market is seeded exactly with a positive seed the house can pay, legal pool limits, and an open breaker. */
  lemma SeedIsExact(accounts: Accounts, market: nat, seed: I64, fee: Bps, minFee: nat, lpOpen: bool, ext: AccountId)
    requires Funded(accounts, ext) && EscrowOf(market) !in accounts
    ensures var r := SeedNext(accounts, market, seed, fee, minFee, lpOpen);
            && (r.Ok? <==> && 0 < seed <= 1_000_000_000_000_000 && minFee <= fee <= 10_000 && lpOpen
                           && Balance(accounts, HOUSE) >= seed)
            && (r.Ok? ==>
                  && r.value.pool.yes == seed && r.value.pool.no == seed && r.value.pool.fee == fee
                  && r.value.state.Scheduled? && r.value.seed == seed
                  && Balance(r.value.accounts, HOUSE) == Balance(accounts, HOUSE) - seed
                  && Balance(r.value.accounts, EscrowOf(market)) == seed)
  {
    if seed > 0 {
      SeedIsAffordable(accounts, market, seed, ext);
      SeedDelta(market, seed, HOUSE);
      SeedDelta(market, seed, EscrowOf(market));
    }
  }
}
