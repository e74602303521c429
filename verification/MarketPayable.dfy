/** What the ledger never refuses: a sell's proceeds and a settlement's payouts are always there. */
module MarketPayable {
  import opened Money
  import opened Amm
  import opened AmmSell
  import opened AmmLaws
  import opened Ledger
  import opened Resolution
  import opened Lifecycle
  import opened Trading
  import opened MarketWorld
  import opened MarketResolve
  import opened MarketRuns

  // ---------------------------------------------------------------- the ledger along a run

  ghost predicate Books(accounts: Accounts) { SoundLedger(accounts) && Filed(accounts) }

  lemma TradeAccountsKeepBooks(w: World, cmd: TradeCmd, legs: Legs)
    requires Books(w.accounts)
    ensures Books(TradeAccounts(w, cmd, legs))
  {
    FirstUseStaysSound(w.accounts, UserId(cmd.user));
    FirstUseStaysSound(WithAccount(w.accounts, UserId(cmd.user)), w.EscrowId());
    FirstUseStaysSound(WithAccount(WithAccount(w.accounts, UserId(cmd.user)), w.EscrowId()), FEES);
  }

  lemma PostingKeepsBooks(accounts: Accounts, entries: seq<Entry>)
    requires Books(accounts) && Acceptable(accounts, entries)
    ensures Books(Posted(accounts, entries))
  {
    PostingStaysSound(accounts, entries);
    PostingStaysFiled(accounts, entries);
  }

  lemma TradeKeepsBooks(w: World, cmd: TradeCmd, fee: Bps, hidden: bool, admitted: bool)
    requires w.pool.Valid() && PositionsKept(w) && Books(w.accounts)
    ensures Books(TradeNext(w, cmd, fee, hidden, admitted).0.accounts)
  {
    if TradeNext(w, cmd, fee, hidden, admitted).1.Placed? {
      var legs := LegsSpec(w.pool, cmd.order, w.PositionAt(Slot(cmd.user, cmd.order.side)), fee).value;
      TradeAccountsKeepBooks(w, cmd, legs);
      PostingKeepsBooks(TradeAccounts(w, cmd, legs), TradeEntries(w, cmd, legs));
    }
  }

  lemma ResolveKeepsBooks(w: World, call: ResolveCall)
    requires EscrowOpen(w) && PositionsKept(w) && Books(w.accounts)
    ensures Books(ResolveNext(w, call).0.accounts)
  {
    var ruling := Rule(w, call);
    if ruling.SettleAt? { SettledKeepsBooks(w, call.order, ruling.record, call.curator.Some?); }
  }

  lemma SettledKeepsBooks(w: World, order: seq<Holder>, record: PayoutRecord, curated: bool)
    requires EscrowOpen(w) && PositionsKept(w) && Books(w.accounts) && record.bps <= 10_000
    ensures Books(Settled(w, order, record, curated).0.accounts)
  {
    if CanPay(FeesOpened(w), order, record.bps) { PaidKeepsBooks(w, order, record.voided, record.bps, curated); }
  }

  lemma PaidKeepsBooks(w: World, order: seq<Holder>, voided: bool, bps: Bps, curated: bool)
    requires EscrowOpen(w) && PositionsKept(w) && Books(w.accounts) && CanPay(FeesOpened(w), order, bps)
    ensures Books(PaidOut(FeesOpened(w), order, voided, bps, curated).accounts)
  {
    FirstUseStaysSound(w.accounts, FEES);
    PostingKeepsBooks(FeesOpened(w).accounts, PayLegs(FeesOpened(w), order, bps));
  }

  lemma OpKeepsBooks(w: World, op: Op)
    requires Books(w.accounts) && Enabled(w, LedgerStep(op))
    ensures Books(Ledger.Next(w.accounts, op))
  {
    match op
    case Open(id, owner, currency) => FirstUseStaysSound(w.accounts, id);
      FirstUseOpens(w.accounts, id);
    case Apply(entries) =>
      if WellFormed(entries) && Acceptable(w.accounts, entries) { PostingKeepsBooks(w.accounts, entries); }
  }

  lemma StepKeepsBooks(w: World, step: Step)
    requires Inv(w) && Books(w.accounts)
    ensures Books(Perform(w, step).accounts)
  {
    match step
    case TradeStep(cmd, fee, hidden, admitted) => TradeKeepsBooks(w, cmd, fee, hidden, admitted);
    case ResolveStep(call) => ResolveKeepsBooks(w, call);
    case LedgerStep(op) => if Enabled(w, step) { OpKeepsBooks(w, op); }
    case _ =>
  }

  /** Every run of a market keeps the shared ledger balanced, covered and filed. */
  lemma {:induction false} RunKeepsLedgerSound(w: World, steps: seq<Step>)
    requires Inv(w) && Books(w.accounts)
    ensures Books(MarketRuns.Run(w, steps).accounts)
    decreases |steps|
  {
    if steps != [] {
      RunKeepsLedgerSound(w, steps[..|steps| - 1]);
      StepKeepsBooks(MarketRuns.Run(w, steps[..|steps| - 1]), steps[|steps| - 1]);
    }
  }

  // ---------------------------------------------------------------- trades

  lemma TradeEntrySum(w: World, cmd: TradeCmd, legs: Legs)
    ensures EntrySum(TradeEntries(w, cmd, legs)) == legs.userDelta + legs.escrowDelta + legs.feeDelta
  {
    var user, escrow, fees :=
      Entry(UserId(cmd.user), legs.userDelta), Entry(w.EscrowId(), legs.escrowDelta), Entry(FEES, legs.feeDelta);
    assert [user, escrow] == [user] + [escrow];
    assert [user, escrow] + [] == [user, escrow];
    EntrySumAppend([user], [escrow]);
    EntrySumAppend([user, escrow], [fees]);
    SingleEntrySum(user);
    SingleEntrySum(escrow);
    SingleEntrySum(fees);
  }

  /** What a user has in an account, opened or not. */
  function Balance(accounts: Accounts, a: AccountId): int { if a in accounts then accounts[a].balance else 0 }

  /** A quoted trade finds its money: the user's on a buy, escrow's on a sell. */
  lemma LegsFindTheirMoney(w: World, cmd: TradeCmd, legs: Legs, ext: AccountId)
    requires Inv(w) && w.payout.None? && Funded(w.accounts, ext)
    requires PoolConserved(w.pool, cmd.order, legs) && MoneyConserved(cmd.order, legs)
    requires Balance(w.accounts, UserId(cmd.user)) + legs.userDelta >= 0
    ensures Acceptable(TradeAccounts(w, cmd, legs), TradeEntries(w, cmd, legs))
  {
    var accounts, entries := TradeAccounts(w, cmd, legs), TradeEntries(w, cmd, legs);
    TradeAccountsKeepBooks(w, cmd, legs);
    TradeEntrySum(w, cmd, legs);
    EscrowCoversPool(w);
    forall a | a in Touched(entries) ensures a in accounts && accounts[a].balance + Delta(entries, a) >= 0 {
      TradeDeltas(w, cmd, legs, a);
    }
    InternalCashIsTaken(accounts, entries, ext);
  }

  lemma EntriesCheck(w: World, cmd: TradeCmd, legs: Legs)
    requires MoneyConserved(cmd.order, legs)
    ensures CheckTransaction(TradeEntries(w, cmd, legs)).Ok? <==> legs.userDelta != 0
    ensures legs.userDelta == 0 ==> CheckTransaction(TradeEntries(w, cmd, legs)) == Err(ZeroEntry)
  {
    var entries := TradeEntries(w, cmd, legs);
    TradeEntrySum(w, cmd, legs);
    assert entries[0].amount == legs.userDelta;
  }

  /** The command reaches its quote: fresh key, open market, a voter, and every other gate passed. */
  ghost predicate ReachesQuote(w: World, cmd: TradeCmd, fee: Bps)
    requires w.pool.Valid() && PositionsKept(w)
  {
    && cmd.version.Some? && cmd.key !in w.receipts && w.state.Live? && cmd.user in w.votes
    && LegsSpec(w.pool, cmd.order, Kept(w, Slot(cmd.user, cmd.order.side)), fee).Ok?
  }

  /** Once quoted and affordable, only a zero user leg stops a trade. */
  lemma QuotedIsPlaced(w: World, cmd: TradeCmd, fee: Bps, ext: AccountId)
    requires Inv(w) && Funded(w.accounts, ext) && ReachesQuote(w, cmd, fee)
    requires var legs := LegsSpec(w.pool, cmd.order, Kept(w, Slot(cmd.user, cmd.order.side)), fee).value;
             Balance(w.accounts, UserId(cmd.user)) + legs.userDelta >= 0
    ensures var legs := LegsSpec(w.pool, cmd.order, Kept(w, Slot(cmd.user, cmd.order.side)), fee).value;
            var (w', r) := TradeNext(w, cmd, fee, false, true);
            if legs.userDelta == 0 then w' == w && r == Refused(Malformed(ZeroEntry))
            else r.Placed? && Acceptable(TradeAccounts(w, cmd, legs), TradeEntries(w, cmd, legs))
                 && w' == Traded(Prepared(w, cmd, legs), cmd, legs)
  {
    var held := Kept(w, Slot(cmd.user, cmd.order.side));
    var legs := LegsSpec(w.pool, cmd.order, held, fee).value;
    LegsAreSound(w.pool, cmd.order, held, fee);
    LegsFindTheirMoney(w, cmd, legs, ext);
    EntriesCheck(w, cmd, legs);
  }

  // ---------------------------------------------------------------- sells

  /** The least burn of which the fee leaves a whole unit. */
  function LeastBurn(fee: nat): nat
    requires fee < 10_000
  {
    CeilDiv(10_000, 10_000 - fee)
  }

  /** Net proceeds are there exactly from the least burn on. */
  lemma NetIsPositiveIff(burn: nat, fee: nat)
    requires fee <= 10_000
    ensures burn - CeilFee(burn, fee) > 0 <==> fee < 10_000 && burn >= LeastBurn(fee)
  {
    assert burn * (10_000 - fee) == burn * 10_000 - burn * fee;
    if fee < 10_000 { ReachesLeast(burn, 10_000, 10_000 - fee); }
  }

  lemma ReachesLeast(burn: nat, k: nat, d: nat)
    requires d > 0 && k > 0
    ensures burn * d >= k <==> burn >= CeilDiv(k, d)
  {
    var q := CeilDiv(k, d);
    if burn * d >= k {
      DivisionOrder(q - 1, burn, d);
    } else if burn >= q {
      ProductBound(q, d, burn, d);
    }
  }

  /** The pool gives up the least burn without its product falling, so the seller gets something. */
  ghost predicate PaysSomething(pool: Pool, order: Order, fee: Bps)
    requires pool.Valid() && order.amount > 0
  {
    && fee < 10_000
    && LeastBurn(fee) <= pool.Reserve(order.side.Other())
    && Keeps(pool.Reserve(order.side), order.amount, pool.Reserve(order.side.Other()), LeastBurn(fee))
  }

  lemma SellNet(pool: Pool, order: Order, held: Position, fee: Bps)
    requires pool.Valid() && held.Held() && order.action.Sell? && LegsSpec(pool, order, held, fee).Ok?
    ensures order.amount > 0
    ensures LegsSpec(pool, order, held, fee).value.userDelta >= 0
    ensures LegsSpec(pool, order, held, fee).value.userDelta > 0 <==> PaysSomething(pool, order, fee)
  {
    var burn := GreatestBurn(pool.Reserve(order.side), order.amount, pool.Reserve(order.side.Other()));
    assert LegsSpec(pool, order, held, fee).value.userDelta == burn - CeilFee(burn, fee);
    FeeIsAtMostGross(burn, fee);
    NetIsPositiveIff(burn, fee);
    if fee < 10_000 {
      BurnReaches(pool.Reserve(order.side), order.amount, pool.Reserve(order.side.Other()), LeastBurn(fee));
    }
  }

  /**
   No legal sell lacks escrow: an admitted sell the pool quotes is placed if and
   only if the pool can give up ceil(10000 / (10000 - fee)) sets for it without
   its product falling. Otherwise its user leg is zero, and the transaction is
   refused for that leg alone.
   */
  lemma SellIsPlacedIff(w: World, cmd: TradeCmd, fee: Bps, ext: AccountId)
    requires Inv(w) && Funded(w.accounts, ext) && ReachesQuote(w, cmd, fee) && cmd.order.action.Sell?
    ensures cmd.order.amount > 0
    ensures var r := TradeNext(w, cmd, fee, false, true).1;
            if PaysSomething(w.pool, cmd.order, fee) then r.Placed? else r == Refused(Malformed(ZeroEntry))
  {
    SellNet(w.pool, cmd.order, Kept(w, Slot(cmd.user, cmd.order.side)), fee);
    if UserId(cmd.user) in w.accounts { assert w.accounts[UserId(cmd.user)].balance >= 0; }
    QuotedIsPlaced(w, cmd, fee, ext);
  }

  // ---------------------------------------------------------------- settlements

  /**
   A solvent market in a funded ledger can be paid at any rate, unless adding a
   holder's payout to its realized profit leaves the 64-bit range.
   */
  lemma PaidUnlessProfitOverflows(w: World, order: seq<Holder>, bps: Bps, ext: AccountId)
    requires Inv(w) && w.payout.None? && bps <= 10_000 && Listing(w, order) && Funded(w.accounts, ext)
    ensures CanPay(FeesOpened(w), order, bps) <==> RealizedFits(w, order, bps)
  {
    LegsAreRight(w, order, bps);
    PayoutIsTaken(w, order, bps, ext);
    SameRealized(w, order, bps);
  }

  lemma LegsAreRight(w: World, order: seq<Holder>, bps: Bps)
    requires Inv(w) && w.payout.None? && bps <= 10_000 && Listing(w, order)
    ensures SettleSpec(HoldingsOf(FeesOpened(w), order), bps, FeesOpened(w).Escrow()).Ok?
    ensures WellFormed(PayLegs(FeesOpened(w), order, bps))
  {
    FeesOpenedKeepsInv(w, order);
    SettlementNeverRejected(FeesOpened(w), order, bps);
  }

  lemma SameRealized(w: World, order: seq<Holder>, bps: nat)
    requires EscrowOpen(w) && PositionsKept(w) && bps <= 10_000
    ensures RealizedFits(FeesOpened(w), order, bps) <==> RealizedFits(w, order, bps)
  {
    forall s ensures Kept(FeesOpened(w), s) == Kept(w, s) { }
  }

  // ---------------------------------------------------------------- the history is the money

  /** A placed trade moves exactly the money and the shares its receipt names. */
  lemma ReceiptIsTrue(w: World, cmd: TradeCmd, fee: Bps, hidden: bool, admitted: bool)
    requires Inv(w) && TradeNext(w, cmd, fee, hidden, admitted).1.Placed?
    ensures var (w', r) := TradeNext(w, cmd, fee, hidden, admitted);
            var toUser := if cmd.order.action.Buy? then 0 - r.receipt.gross else r.receipt.gross - r.receipt.fee;
            var slot := Slot(cmd.user, cmd.order.side);
            && r.receipt.cmd == cmd && r.receipt.fee >= 0
            && cmd.order.amount == (if cmd.order.action.Buy? then r.receipt.gross else r.receipt.shares)
            && Moved(w.accounts, w'.accounts, UserId(cmd.user), toUser)
            && Moved(w.accounts, w'.accounts, w.EscrowId(), 0 - toUser - r.receipt.fee)
            && w'.CashOf(slot) == w.CashOf(slot) + toUser
            && w'.fees == w.fees + r.receipt.fee
            && w'.PositionAt(slot).shares
               == w.PositionAt(slot).shares + (if cmd.order.action.Buy? then r.receipt.shares else 0 - r.receipt.shares)
  {
    var held := Kept(w, Slot(cmd.user, cmd.order.side));
    var legs := LegsSpec(w.pool, cmd.order, held, fee).value;
    LegsAreSound(w.pool, cmd.order, held, fee);
    LegsNameTheMoney(w.pool, cmd.order, held, fee);
    TradePosts(w, cmd, legs);
  }

  ghost predicate Moved(before: Accounts, after: Accounts, a: AccountId, delta: int) {
    a in after && after[a].balance == Balance(before, a) + delta
  }

  lemma LegsNameTheMoney(pool: Pool, order: Order, held: Position, fee: Bps)
    requires pool.Valid() && held.Held() && LegsSpec(pool, order, held, fee).Ok?
    ensures var legs := LegsSpec(pool, order, held, fee).value;
            && legs.userDelta == (if order.action.Buy? then 0 - legs.gross else legs.gross - legs.fee)
            && legs.feeDelta == legs.fee
            && order.amount == (if order.action.Buy? then legs.gross else legs.shares)
  {
    match order.action
    case Buy => BuyIsExact(pool, order.side, order.amount, fee);
    case Sell => SellIsSound(pool, order.side, order.amount, fee);
  }

  lemma TradePosts(w: World, cmd: TradeCmd, legs: Legs)
    requires Acceptable(TradeAccounts(w, cmd, legs), TradeEntries(w, cmd, legs))
    ensures var posted := Posted(TradeAccounts(w, cmd, legs), TradeEntries(w, cmd, legs));
            && Moved(w.accounts, posted, UserId(cmd.user), legs.userDelta)
            && Moved(w.accounts, posted, w.EscrowId(), legs.escrowDelta)
  {
    var entries := TradeEntries(w, cmd, legs);
    assert entries[0].account == UserId(cmd.user) && entries[1].account == w.EscrowId();
    TradeDeltas(w, cmd, legs, UserId(cmd.user));
    TradeDeltas(w, cmd, legs, w.EscrowId());
  }

  /** What settlement adds to the recorded cash of one user's listed positions. */
  ghost function CashTo(w: World, order: seq<Holder>, bps: nat, user: nat): int
    requires PositionsKept(w) && bps <= 10_000
  {
    if order == [] then 0
    else
      var last := order[|order| - 1];
      CashTo(w, order[..|order| - 1], bps, user)
      + (if last.UserOf? && last.slot.user == user then PayoutFor(Kept(w, last.slot), last.slot.side, bps) else 0)
  }

  lemma {:induction false} PaidToUser(w: World, order: seq<Holder>, bps: nat, user: nat)
    requires PositionsKept(w) && w.pool.Valid() && bps <= 10_000 && AllHeld(HoldingsOf(w, order))
    ensures PaidTo(Payouts(HoldingsOf(w, order), bps), UserId(user)) == CashTo(w, order, bps, user)
    decreases |order|
  {
    if order != [] {
      var init, last := order[..|order| - 1], order[|order| - 1];
      assert HoldingsOf(w, order)[..|init|] == HoldingsOf(w, init);
      assert forall i :: 0 <= i < |init| ==> HoldingsOf(w, init)[i] == HoldingsOf(w, order)[i];
      PaidToUser(w, init, bps, user);
      assert Payouts(HoldingsOf(w, order), bps)[..|init|] == Payouts(HoldingsOf(w, init), bps);
      if last.UserOf? { var p := Kept(w, last.slot); }
    }
  }

  /** The settlement pays each user's account exactly what it books to that user's positions. */
  lemma PayoutsReachTheirUsers(w: World, order: seq<Holder>, voided: bool, bps: Bps, curated: bool, user: nat)
    requires Inv(w) && w.payout.None? && bps <= 10_000
    requires Listing(w, order) && CanPay(w, order, bps) && UserId(user) in w.accounts
    ensures var paid := PaidOut(w, order, voided, bps, curated);
            Moved(w.accounts, paid.accounts, UserId(user), CashTo(w, order, bps, user))
  {
    var s := SettleSpec(HoldingsOf(w, order), bps, w.Escrow()).value;
    AllAreHeld(w, order);
    PaidToUser(w, order, bps, user);
    SettlementNeverRejected(w, order, bps);
    LegsAreBalanced(w.EscrowId(), FEES, s.payouts, s.dust, w.Escrow(), UserId(user));
  }
}
