/** The stored market: its rows are changed in place, one command at a time. */
module MarketStore {
  import opened Money
  import opened Sums
  import opened Amm
  import opened Ledger
  import opened Resolution
  import opened Lifecycle
  import opened Trading
  import opened MarketWorld
  import opened MarketResolve
  import opened MarketRuns
  import Cascade

  // ---------------------------------------------------------------- one more position closed

  lemma CloseOne(w: World, done: seq<Holder>, slot: Slot, bps: Bps)
    requires PositionsKept(w) && bps <= 10_000 && RealizedFits(w, done, bps)
    requires UserOf(slot) !in done && slot in w.positions
    ensures ClosedPositions(w, done, bps)[slot] == Kept(w, slot)
    ensures var realized := Kept(w, slot).realized + Gain(w, bps)(slot);
            && (RealizedFits(w, done + [UserOf(slot)], bps) <==> FitsI64(realized))
            && (FitsI64(realized) ==>
                  ClosedPositions(w, done + [UserOf(slot)], bps)
                  == ClosedPositions(w, done, bps)[slot := Position(0, 0, realized)])
  {
    var grown := done + [UserOf(slot)];
    assert UserOf(slot) in grown;
    assert forall s :: UserOf(s) in grown <==> UserOf(s) in done || s == slot;
  }

  lemma SkipPool(w: World, done: seq<Holder>, side: Side, bps: Bps)
    requires PositionsKept(w) && bps <= 10_000 && RealizedFits(w, done, bps)
    ensures RealizedFits(w, done + [PoolOf(side)], bps)
    ensures ClosedPositions(w, done + [PoolOf(side)], bps) == ClosedPositions(w, done, bps)
  {
    assert forall s :: UserOf(s) in done + [PoolOf(side)] <==> UserOf(s) in done;
  }

  /** The positions once the holders in `done` are closed. */
  ghost predicate ClosedSoFar(w: World, done: seq<Holder>, bps: Bps, positions: map<Slot, Position>)
    requires PositionsKept(w) && bps <= 10_000
  {
    RealizedFits(w, done, bps) && positions == ClosedPositions(w, done, bps)
  }

  lemma NoneClosed(w: World, bps: Bps)
    requires PositionsKept(w) && bps <= 10_000
    ensures ClosedSoFar(w, [], bps, w.positions)
  {
  }

  lemma NextHolder(w: World, order: seq<Holder>, i: nat, bps: Bps)
    requires PositionsKept(w) && bps <= 10_000 && Listing(w, order) && i < |order|
    ensures order[..i + 1] == order[..i] + [order[i]] && order[..i + 1][..i] == order[..i]
    ensures order[i] !in order[..i] && order[i] in Holders(w)
    ensures RealizedFits(w, order, bps) ==> RealizedFits(w, order[..i + 1], bps)
  {
    assert order[i] in HolderFamily(w);
  }

  lemma SameListing(w: World, accounts: Accounts, order: seq<Holder>)
    ensures Listing(w.(accounts := accounts), order) <==> Listing(w, order)
  {
    assert HolderFamily(w.(accounts := accounts)) == HolderFamily(w);
  }

  /** What a keyed advance does to the market row is a step of the market, or nothing. */
  lemma AdvanceIsAStep(w: World, row: Cascade.Row, key: Cascade.Key, event: MarketEvent)
    requires Inv(w) && row.state == w.state
    ensures var (row', reply) := Cascade.AdvanceNext(row, key, event);
            && Inv(w.(state := row'.state))
            && w.(state := row'.state) == (if reply.Moved? then Perform(w, AdvanceStep(event)) else w)
  {
    if event.IsNonFinancial() && Transition(w.state, event).Some? { AdvanceKeepsInv(w, event); }
  }

  /** The rows the payout of `w` writes beside the ledger, in a market that differs from `w` in accounts only. */
  ghost function RowsPaid(w: World, now: World, order: seq<Holder>, voided: bool, bps: Bps, curated: bool): World
    requires PositionsKept(w) && bps <= 10_000 && RealizedFits(w, order, bps)
  {
    now.(state := if voided then Voided else Paid,
         flagged := if curated then false else now.flagged,
         positions := ClosedPositions(w, order, bps),
         facts := now.facts + FactsFrom(order, Gain(w, bps)),
         cash := CashAfter(w, order, bps),
         payout := Some(PayoutRecord(voided, bps)))
  }

  lemma PostedThenPaid(w: World, now: World, order: seq<Holder>, voided: bool, bps: Bps, curated: bool)
    requires EscrowOpen(w) && PositionsKept(w) && bps <= 10_000 && CanPay(w, order, bps)
    requires now == w.(accounts := Posted(w.accounts, PayLegs(w, order, bps)))
    ensures PaidOut(w, order, voided, bps, curated) == RowsPaid(w, now, order, voided, bps, curated)
  {
  }

  lemma PostedThenWritten(w: World, cmd: TradeCmd, legs: Legs, accounts: Accounts)
    requires Acceptable(TradeAccounts(w, cmd, legs), TradeEntries(w, cmd, legs))
    requires accounts == Posted(TradeAccounts(w, cmd, legs), TradeEntries(w, cmd, legs))
    ensures Traded(Prepared(w, cmd, legs), cmd, legs) == Written(w.(accounts := accounts), cmd, legs)
  {
  }

  class Store {
    const market: nat
    const ledger: Balances
    var state: MarketState
    var flagged: bool
    var pool: Amm.Pool
    var positions: map<Slot, Position>
    var receipts: map<nat, Receipt>
    var facts: seq<Fact>
    var votes: map<nat, Side>
    var ballots: map<nat, VoteCmd>
    var payout: Option<PayoutRecord>
    var commands: map<Cascade.Key, Cascade.Recorded>
    ghost const seed: int
    ghost var cash: map<Slot, int>
    ghost var fees: int

    ghost function View(): World
      reads this, ledger
    {
      World(market, state, flagged, pool, ledger.accounts, positions, receipts, facts, votes, ballots, payout,
            seed, cash, fees)
    }

    /** The market row with the lifecycle commands recorded for it. */
    ghost function Row(): Cascade.Row
      reads this
    {
      Cascade.Row(state, commands, flagged)
    }

    ghost predicate Valid()
      reads this, ledger
    {
      Inv(View()) && Filed(ledger.accounts)
    }

    constructor (ledger: Balances, market: nat, pool: Amm.Pool, ghost seed: int)
      ensures this.ledger == ledger
      ensures View() == World(market, Scheduled, false, pool, ledger.accounts, map[], map[], [], map[], map[], None,
                              seed, map[], 0)
      ensures commands == map[]
    {
      this.ledger, this.market, this.pool, this.seed := ledger, market, pool, seed;
      state, flagged, payout := Scheduled, false, None;
      positions, receipts, facts, votes, ballots, commands := map[], map[], [], map[], map[], map[];
      cash, fees := map[], 0;
    }

    method PlaceTrade(cmd: TradeCmd, fee: Bps, hidden: bool, admitted: bool) returns (r: TradeResult)
      requires Valid()
      modifies this, ledger
      ensures Valid()
      ensures (View(), r) == TradeNext(old(View()), cmd, fee, hidden, admitted) && commands == old(commands)
    {
      TradeKeepsInv(View(), cmd, fee, hidden, admitted);
      if cmd.version.None? { return Refused(VersionMissing); }
      if cmd.key in receipts {
        return if receipts[cmd.key].cmd == cmd then Replayed(receipts[cmd.key]) else Refused(KeyConflict);
      }
      if state.Closing? || (state.Live? && hidden) { return Refused(TradingFrozen); }
      if !state.Live? { return Refused(MarketNotOpen); }
      if cmd.user !in votes { return Refused(VoteRequired); }
      if !admitted { return Refused(NotAdmitted); }
      var slot := Slot(cmd.user, cmd.order.side);
      ghost var held := Kept(View(), slot);
      var legs := QuoteLegs(pool, cmd.order, if slot in positions then Some(positions[slot]) else None, fee);
      if legs.Err? { return Refused(Rejected(legs.error)); }
      r := Book(cmd, slot, legs.value);
    }

    method FindTradeAccounts(ghost w: World, cmd: TradeCmd, legs: Legs)
      requires w == View() && Filed(ledger.accounts)
      modifies ledger
      ensures Filed(ledger.accounts) && ledger.accounts == TradeAccounts(w, cmd, legs)
    {
      ledger.FindAccount(UserId(cmd.user));
      ledger.FindAccount(AccountId(MarketEscrow(market), Usdc));
      if legs.feeDelta != 0 { ledger.FindAccount(FEES); }
    }

    /** The trade's ledger transaction, or why it is refused. */
    method Post(ghost w: World, cmd: TradeCmd, legs: Legs) returns (refusal: Option<Refusal>)
      requires w.market == market && ledger.accounts == TradeAccounts(w, cmd, legs)
      modifies ledger
      ensures refusal == Obstacle(w, cmd, legs)
      ensures refusal.None? ==> ledger.accounts == Posted(TradeAccounts(w, cmd, legs), TradeEntries(w, cmd, legs))
    {
      var escrow := AccountId(MarketEscrow(market), Usdc);
      var entries := [Entry(UserId(cmd.user), legs.userDelta), Entry(escrow, legs.escrowDelta)];
      if legs.feeDelta != 0 { entries := entries + [Entry(FEES, legs.feeDelta)]; }
      assert entries == TradeEntries(w, cmd, legs);
      var checked := CheckTransaction(entries);
      if checked.Err? { return Some(Malformed(checked.error)); }
      var applied := ledger.ApplyTransaction(entries);
      return if applied.Err? then Some(LedgerRefused) else None;
    }

    /** Opens what the trade needs and posts it; a refusal takes the opened accounts back. */
    method PostOrUndo(ghost w: World, cmd: TradeCmd, legs: Legs) returns (refusal: Option<Refusal>)
      requires w == View() && Filed(ledger.accounts)
      modifies ledger
      ensures Filed(ledger.accounts)
      ensures refusal == Obstacle(w, cmd, legs)
      ensures refusal.None? ==> ledger.accounts == Posted(TradeAccounts(w, cmd, legs), TradeEntries(w, cmd, legs))
      ensures refusal.Some? ==> ledger.accounts == old(ledger.accounts)
    {
      var before := ledger.accounts;
      FindTradeAccounts(w, cmd, legs);
      refusal := Post(w, cmd, legs);
      if refusal.Some? {
        ledger.accounts := before;
      } else {
        PostingStaysFiled(TradeAccounts(w, cmd, legs), TradeEntries(w, cmd, legs));
      }
    }

    /** The writes of a quoted trade: ledger first, then the rows. */
    method Book(cmd: TradeCmd, slot: Slot, legs: Legs) returns (r: TradeResult)
      requires slot == Slot(cmd.user, cmd.order.side) && Filed(ledger.accounts)
      modifies this, ledger
      ensures Filed(ledger.accounts) && commands == old(commands)
      ensures (View(), r) == Booked(old(View()), cmd, legs)
    {
      ghost var w := View();
      var refusal := PostOrUndo(w, cmd, legs);
      if refusal.Some? { return Refused(refusal.value); }
      PostedThenWritten(w, cmd, legs, ledger.accounts);
      WriteTrade(cmd, slot, legs);
      return Placed(Receipt(cmd, legs.shares, legs.gross, legs.fee));
    }

    method WriteTrade(cmd: TradeCmd, slot: Slot, legs: Legs)
      requires slot == Slot(cmd.user, cmd.order.side)
      modifies this
      ensures View() == Written(old(View()), cmd, legs)
      ensures commands == old(commands)
    {
      if legs.realizedDelta.Some? { facts := facts + [Fact(slot, legs.realizedDelta.value)]; }
      pool, positions := legs.poolAfter, positions[slot := legs.position];
      receipts := receipts[cmd.key := Receipt(cmd, legs.shares, legs.gross, legs.fee)];
      NoteHistory(slot, legs);
    }

    ghost method NoteHistory(slot: Slot, legs: Legs)
      modifies this`cash, this`fees
      ensures cash == old(cash)[slot := old(View()).CashOf(slot) + legs.userDelta] && fees == old(fees) + legs.feeDelta
    {
      cash := cash[slot := (if slot in cash then cash[slot] else 0) + legs.userDelta];
      fees := fees + legs.feeDelta;
    }

    method CastVote(cmd: VoteCmd, beforeCutoff: bool, eligible: bool) returns (r: VoteResult)
      requires Valid()
      modifies this`votes, this`ballots
      ensures Valid()
      ensures (View(), r) == VoteNext(old(View()), cmd, beforeCutoff, eligible)
    {
      VoteKeepsInv(View(), cmd, beforeCutoff, eligible);
      if cmd.guess > 100 { return VoteRefused(BadGuess); }
      if cmd.key in ballots {
        return if ballots[cmd.key] == cmd then VoteReplayed(cmd) else VoteRefused(VoteConflict);
      }
      if !(state.Live? || state.Closing?) { return VoteRefused(NotOpen); }
      if !beforeCutoff { return VoteRefused(PastCutoff); }
      if !eligible { return VoteRefused(NotEligible); }
      if cmd.user in votes { return VoteRefused(AlreadyVoted); }
      votes := votes[cmd.user := cmd.side];
      ballots := ballots[cmd.key := cmd];
      return VoteCast;
    }

    /** A recorded key replays and moves nothing; otherwise the event moves the market along the table. */
    method Advance(key: Cascade.Key, event: MarketEvent) returns (reply: Cascade.Reply)
      requires Valid()
      modifies this`state, this`commands
      ensures Valid()
      ensures (Row(), reply) == Cascade.AdvanceNext(old(Row()), key, event)
      ensures View() == if reply.Moved? then Perform(old(View()), AdvanceStep(event)) else old(View())
    {
      ghost var w := View();
      AdvanceIsAStep(w, Row(), key, event);
      reply := MoveAlong(key, event);
      assert View() == w.(state := state);
    }

    method MoveAlong(key: Cascade.Key, event: MarketEvent) returns (reply: Cascade.Reply)
      modifies this`state, this`commands
      ensures (Row(), reply) == Cascade.AdvanceNext(old(Row()), key, event)
    {
      if !event.IsNonFinancial() { return Cascade.Refused; }
      if key in commands {
        return Cascade.Replayed(SourceState(commands[key].event), commands[key].resulting);
      }
      var from, to := state, Transition(state, event);
      if to.None? { return Cascade.Refused; }
      state := to.value;
      commands := commands[key := Cascade.Recorded(event, to.value)];
      return Cascade.Moved(from, to.value);
    }

    method SumCosts() returns (total: int)
      ensures total == OpenInterest(View())
    {
      total := 0;
      var todo := positions.Keys;
      ghost var family := map s | s in positions :: positions[s].cost;
      ghost var seen: map<Slot, int> := map[];
      SumZero(seen);
      while todo != {}
        invariant todo <= positions.Keys
        invariant seen == map s | s in family && s !in todo :: family[s]
        invariant total == Sum(seen)
        decreases todo
      {
        var s :| s in todo;
        SumUpdate(seen, s, positions[s].cost);
        total := total + positions[s].cost;
        seen := seen[s := positions[s].cost];
        todo := todo - {s};
      }
      assert seen == family;
    }

    /** Why no decision can be taken, or the outcome and rate to settle at. */
    method TakeDecision(call: ResolveCall) returns (r: Result<PayoutRecord, ResolveRefusal>)
      ensures r == Decide(View(), call)
    {
      match call.curator
      case Some(ResolveAtTally) =>
        return if |votes| > 0 then Ok(PayoutRecord(false, TallyBps(votes))) else Err(NeedsCurator);
      case Some(VoidIt) => return Ok(PayoutRecord(true, 5_000));
      case None =>
        if |votes| > 0 && |votes| >= call.minVotes { return Ok(PayoutRecord(false, TallyBps(votes))); }
        var openInterest := SumCosts();
        return if openInterest < call.oiFloor then Ok(PayoutRecord(true, 5_000)) else Err(NeedsCurator);
    }

    method CloseHolder(ghost w: World, ghost done: seq<Holder>, h: Holder, bps: Bps) returns (ok: bool)
      requires PositionsKept(w) && bps <= 10_000
      requires h !in done && h in Holders(w)
      requires ClosedSoFar(w, done, bps, positions)
      modifies this`positions, this`facts
      ensures ok <==> RealizedFits(w, done + [h], bps)
      ensures ok ==> ClosedSoFar(w, done + [h], bps, positions)
      ensures ok ==> facts == old(facts) + if h.UserOf? then [Fact(h.slot, Gain(w, bps)(h.slot))] else []
    {
      if h.PoolOf? {
        SkipPool(w, done, h.side, bps);
        return true;
      }
      CloseOne(w, done, h.slot, bps);
      var position := positions[h.slot];
      var delta := PayoutFor(position, h.slot.side, bps) - position.cost;
      if !FitsI64(position.realized + delta) { return false; }
      positions := positions[h.slot := Position(0, 0, position.realized + delta)];
      facts := facts + [Fact(h.slot, delta)];
      return true;
    }

    /** Closes every listed position at its payout; stops where a realized profit would overflow. */
    method ClosePositions(ghost w: World, order: seq<Holder>, bps: Bps) returns (ok: bool)
      requires PositionsKept(w) && bps <= 10_000 && Listing(w, order)
      requires positions == w.positions
      modifies this`positions, this`facts
      ensures ok <==> RealizedFits(w, order, bps)
      ensures ok ==> positions == ClosedPositions(w, order, bps)
      ensures ok ==> facts == old(facts) + FactsFrom(order, Gain(w, bps))
    {
      NoneClosed(w, bps);
      for i := 0 to |order|
        invariant ClosedSoFar(w, order[..i], bps, positions)
        invariant facts == old(facts) + FactsFrom(order[..i], Gain(w, bps))
      {
        NextHolder(w, order, i, bps);
        var closed := CloseHolder(w, order[..i], order[i], bps);
        if !closed { return false; }
      }
      assert order[..|order|] == order;
      return true;
    }

    method ListHoldings(order: seq<Holder>) returns (holdings: seq<Holding>)
      ensures holdings == HoldingsOf(View(), order)
    {
      holdings := [];
      for i := 0 to |order|
        invariant holdings == HoldingsOf(View(), order)[..i]
      {
        match order[i]
        case PoolOf(side) =>
          holdings := holdings + [Holding(AccountId(MarketPool(market), Usdc), side, pool.Reserve(side))];
        case UserOf(slot) =>
          var held := if slot in positions then positions[slot] else NOTHING;
          holdings := holdings + [Holding(UserId(slot.user), slot.side, held.shares)];
      }
    }

    /** Settle the holdings against escrow and write the legs down. */
    method Settle(order: seq<Holder>, bps: Bps) returns (r: Result<seq<Entry>, ResolutionError>)
      requires EscrowOpen(View())
      ensures r.Ok? <==> SettleSpec(HoldingsOf(View(), order), bps, View().Escrow()).Ok?
      ensures r.Ok? ==> r.value == PayLegs(View(), order, bps)
    {
      var escrow := AccountId(MarketEscrow(market), Usdc);
      var holdings := ListHoldings(order);
      var settled := SettleMarket(holdings, bps, ledger.accounts[escrow].balance);
      if settled.Err? { return Err(settled.error); }
      r := SettlementEntries(escrow, FEES, settled.value);
    }

    /** The payout's ledger transaction. */
    method Transfer(order: seq<Holder>, bps: Bps) returns (ok: bool)
      requires EscrowOpen(View())
      modifies ledger
      ensures ok <==> && SettleSpec(HoldingsOf(old(View()), order), bps, old(View()).Escrow()).Ok?
                      && WellFormed(PayLegs(old(View()), order, bps))
                      && Acceptable(old(ledger.accounts), PayLegs(old(View()), order, bps))
      ensures ledger.accounts
           == if ok then Posted(old(ledger.accounts), PayLegs(old(View()), order, bps)) else old(ledger.accounts)
    {
      var legs := Settle(order, bps);
      if legs.Err? { return false; }
      var checked := CheckTransaction(legs.value);
      if checked.Err? { return false; }
      var applied := ledger.ApplyTransaction(legs.value);
      return applied.Ok?;
    }

    /** Pays the market out in one transaction: all of it, or nothing. */
    method PayOut(order: seq<Holder>, voided: bool, bps: Bps, curated: bool) returns (ok: bool)
      requires EscrowOpen(View()) && PositionsKept(View()) && bps <= 10_000 && Listing(View(), order)
      requires Filed(ledger.accounts)
      modifies this, ledger
      ensures Filed(ledger.accounts) && commands == old(commands)
      ensures ok <==> CanPay(FeesOpened(old(View())), order, bps)
      ensures ok ==> View() == PaidOut(FeesOpened(old(View())), order, voided, bps, curated)
      ensures !ok ==> View() == old(View())
    {
      var before := ledger.accounts;
      ghost var ready := FeesOpened(View());
      SameListing(View(), ready.accounts, order);
      ledger.FindAccount(FEES);
      ok := PayHolders(ready, order, voided, bps, curated);
      if ok {
        PostingStaysFiled(ready.accounts, PayLegs(ready, order, bps));
      } else {
        ledger.accounts := before;
      }
    }

    /** Ledger, then positions, then the market row; a refusal leaves the rows alone. */
    method PayHolders(ghost w: World, order: seq<Holder>, voided: bool, bps: Bps, curated: bool) returns (ok: bool)
      requires w == View() && EscrowOpen(w) && PositionsKept(w) && bps <= 10_000 && Listing(w, order)
      modifies this, ledger
      ensures ok <==> CanPay(w, order, bps)
      ensures ok ==> View() == PaidOut(w, order, voided, bps, curated)
      ensures !ok ==> View().(accounts := w.accounts) == w
      ensures commands == old(commands)
    {
      ok := Transfer(order, bps);
      if ok {
        ghost var now := View();
        ok := PayRows(w, order, voided, bps, curated);
        if ok { PostedThenPaid(w, now, order, voided, bps, curated); }
      }
    }

    method PayRows(ghost w: World, order: seq<Holder>, voided: bool, bps: Bps, curated: bool) returns (ok: bool)
      requires w == View().(accounts := w.accounts)
      requires PositionsKept(w) && bps <= 10_000 && Listing(w, order)
      modifies this
      ensures ok <==> RealizedFits(w, order, bps)
      ensures ok ==> View() == RowsPaid(w, old(View()), order, voided, bps, curated)
      ensures !ok ==> View() == old(View())
      ensures commands == old(commands)
    {
      var rows, realized := positions, facts;
      ok := ClosePositions(w, order, bps);
      if ok {
        Seal(voided, bps, curated, CashAfter(w, order, bps));
      } else {
        positions, facts := rows, realized;
      }
    }

    method Seal(voided: bool, bps: nat, curated: bool, ghost cashNow: map<Slot, int>)
      modifies this
      ensures View() == old(View()).(
        state := if voided then Voided else Paid,
        flagged := if curated then false else old(flagged),
        cash := cashNow,
        payout := Some(PayoutRecord(voided, bps)))
      ensures commands == old(commands)
    {
      state := if voided then Voided else Paid;
      if curated { flagged := false; }
      cash := cashNow;
      payout := Some(PayoutRecord(voided, bps));
    }

    method ResolveRows(call: ResolveCall) returns (r: ResolveResult)
      requires EscrowOpen(View()) && PositionsKept(View()) && Listing(View(), call.order) && Filed(ledger.accounts)
      modifies this, ledger
      ensures (View(), r) == ResolveNext(old(View()), call) && Filed(ledger.accounts)
      ensures commands
           == if r.HeldForReview? then Cascade.Swept(old(Row()), Cascade.HoldKey).commands else old(commands)
    {
      var ruling := TakeRuling(call);
      match ruling
      case Answer(result) => return result;
      case Hold =>
        state := Resolving;
        commands := commands[Cascade.HoldKey := Cascade.Recorded(StartIntegritySweep, Resolving)];
        return HeldForReview;
      case SettleAt(record) =>
        var paid := PayOut(call.order, record.voided, record.bps, call.curator.Some?);
        return if paid then Outcome(record, false) else ResolveRefused(SettlementFailed);
    }

    method TakeRuling(call: ResolveCall) returns (ruling: Ruling)
      requires EscrowOpen(View())
      ensures ruling == Rule(View(), call)
    {
      if payout.Some? { return Answer(ReplayReceipt(state, votes)); }
      var gate := Gate(state, flagged, call);
      if gate.Some? { return Answer(ResolveRefused(gate.value)); }
      if state.Closed? && ledger.accounts[AccountId(MarketEscrow(market), Usdc)].balance >= call.holdAt { return Hold; }
      var decided := TakeDecision(call);
      return if decided.Ok? then SettleAt(decided.value) else Answer(ResolveRefused(decided.error));
    }

    method Resolve(call: ResolveCall) returns (r: ResolveResult)
      requires Valid() && Listing(View(), call.order)
      modifies this, ledger
      ensures Valid()
      ensures (View(), r) == ResolveNext(old(View()), call)
      ensures commands
           == if r.HeldForReview? then Cascade.Swept(old(Row()), Cascade.HoldKey).commands else old(commands)
    {
      ResolveKeepsInv(View(), call);
      r := ResolveRows(call);
    }
  }

  datatype SeedReply = Seeded(market: nat) | SeedReplayed(market: nat) | NotSeeded(reason: SeedRefusal)

  /** The markets of one ledger, with the keys their seeding was recorded under. */
  class Exchange {
    const ledger: Balances
    var stores: map<nat, Store>
    var seeded: map<nat, nat>

    ghost predicate Valid()
      reads this, ledger
    {
      && Filed(ledger.accounts)
      && (forall m :: m in stores ==> stores[m].ledger == ledger && EscrowOf(m) in ledger.accounts)
    }

    constructor (ledger: Balances)
      requires Filed(ledger.accounts)
      ensures Valid() && this.ledger == ledger && stores == map[] && seeded == map[]
    {
      this.ledger, stores, seeded := ledger, map[], map[];
    }

    /** Checks of the input, the replay, the breaker, then the writes; a failure leaves the ledger as it was. */
    method SeedMarket(key: nat, market: nat, seed: I64, fee: Bps, minFee: nat, lpOpen: bool) returns (r: SeedReply)
      requires Valid()
      modifies this, ledger
      ensures Valid()
      ensures var spec := SeedNext(old(ledger.accounts), market, seed, fee, minFee, lpOpen);
              if seed <= 0 || fee < minFee || (key !in old(seeded) && spec.Err?) then
                spec.Err? && r == NotSeeded(spec.error)
              else if key in old(seeded) then r == SeedReplayed(old(seeded)[key])
              else
                && r == Seeded(market) && market in stores
                && fresh(stores[market]) && stores[market].View() == spec.value
                && stores == old(stores)[market := stores[market]] && seeded == old(seeded)[key := market]
      ensures !r.Seeded? ==> ledger.accounts == old(ledger.accounts) && stores == old(stores) && seeded == old(seeded)
    {
      if seed <= 0 { return NotSeeded(EmptySeed); }
      if fee < minFee { return NotSeeded(FeeBelowMinimum); }
      if key in seeded { return SeedReplayed(seeded[key]); }
      if !lpOpen { return NotSeeded(LpPaused); }
      if AccountId(MarketEscrow(market), Usdc) in ledger.accounts { return NotSeeded(MarketExists); }
      var before := ledger.accounts;
      FindSeedAccounts(market);
      var paid := PaySeed(market, seed);
      var pool := NewPool(seed, seed, fee);
      if !paid || pool.Err? {
        ledger.accounts := before;
        return NotSeeded(if paid then Unseedable(pool.error) else SeedRefused);
      }
      PostingStaysFiled(SeedAccounts(before, market), SeedEntries(market, seed));
      var store := new Store(ledger, market, pool.value, seed);
      stores := stores[market := store];
      seeded := seeded[key := market];
      return Seeded(market);
    }

    method FindSeedAccounts(market: nat)
      requires Filed(ledger.accounts)
      modifies ledger
      ensures Filed(ledger.accounts) && ledger.accounts == SeedAccounts(old(ledger.accounts), market)
    {
      ledger.FindAccount(AccountId(MarketPool(market), Usdc));
      ledger.FindAccount(HOUSE);
      ledger.FindAccount(EscrowOf(market));
    }

    method PaySeed(market: nat, seed: I64) returns (ok: bool)
      requires seed > 0
      modifies ledger
      ensures var entries := SeedEntries(market, seed);
              && (ok <==> WellFormed(entries) && Acceptable(old(ledger.accounts), entries))
              && (ok ==> ledger.accounts == Posted(old(ledger.accounts), entries))
    {
      var entries := SeedEntries(market, seed);
      var checked := CheckTransaction(entries);
      if checked.Err? { return false; }
      var applied := ledger.ApplyTransaction(entries);
      return applied.Ok?;
    }
  }
}
