/** Whole runs of one market: seeding, then any commands in any order, and what every run keeps. */
module MarketRuns {
  import opened Money
  import opened Sums
  import opened Amm
  import opened AmmLaws
  import opened Ledger
  import opened Lifecycle
  import opened Trading
  import opened MarketWorld
  import opened MarketResolve

  // ---------------------------------------------------------------- seeding

  datatype SeedRefusal =
    | EmptySeed | FeeBelowMinimum | LpPaused | MarketExists | SeedRefused | Unseedable(error: AmmError)

  const HOUSE: AccountId := AccountId(HouseRef, Usdc)

  function EscrowOf(market: nat): AccountId { AccountId(MarketEscrow(market), Usdc) }

  function SeedEntries(market: nat, seed: I64): seq<Entry>
    requires seed > 0
  {
    [Entry(HOUSE, 0 - seed), Entry(EscrowOf(market), seed)]
  }

  /** The pool's, the house's and the market's escrow account, opened on first use. */
  function SeedAccounts(accounts: Accounts, market: nat): Accounts {
    WithAccount(WithAccount(WithAccount(accounts, AccountId(MarketPool(market), Usdc)), HOUSE), EscrowOf(market))
  }

  /** The house pays the seed into the new market's escrow, and the pool holds that many complete sets. */
  ghost function SeedNext(accounts: Accounts, market: nat, seed: I64, fee: Bps, minFee: nat, lpOpen: bool)
    : Result<World, SeedRefusal>
  {
    if seed <= 0 then Err(EmptySeed)
    else if fee < minFee then Err(FeeBelowMinimum)
    else if !lpOpen then Err(LpPaused)
    else if EscrowOf(market) in accounts then Err(MarketExists)
    else
      var ready := SeedAccounts(accounts, market);
      if !WellFormed(SeedEntries(market, seed)) || !Acceptable(ready, SeedEntries(market, seed)) then Err(SeedRefused)
      else
        var pool := NewPool(seed, seed, fee);
        if pool.Err? then Err(Unseedable(pool.error))
        else Ok(World(market, Scheduled, false, pool.value, Posted(ready, SeedEntries(market, seed)),
                      map[], map[], [], map[], map[], None, seed, map[], 0))
  }

  lemma SeedDelta(market: nat, seed: I64, a: AccountId)
    requires seed > 0
    ensures Delta(SeedEntries(market, seed), a)
         == (if a == HOUSE then 0 - seed else 0) + (if a == EscrowOf(market) then seed else 0)
  {
    var house, escrow := Entry(HOUSE, 0 - seed), Entry(EscrowOf(market), seed);
    assert [house, escrow] == [house] + [escrow];
    DeltaAppend([house], [escrow], a);
    SingleDelta(house, a);
    SingleDelta(escrow, a);
  }

  lemma SeedPosts(accounts: Accounts, market: nat, seed: I64)
    requires seed > 0 && EscrowOf(market) !in accounts
    requires Acceptable(SeedAccounts(accounts, market), SeedEntries(market, seed))
    ensures var posted := Posted(SeedAccounts(accounts, market), SeedEntries(market, seed));
            && CashAccount(posted, EscrowOf(market)) && posted[EscrowOf(market)].balance == seed
            && AccountId(MarketPool(market), Usdc) in posted
  {
    SeedDelta(market, seed, EscrowOf(market));
  }

  /** A seeded market satisfies the whole invariant. */
  lemma SeedIsSolvent(accounts: Accounts, market: nat, seed: I64, fee: Bps, minFee: nat, lpOpen: bool)
    requires SeedNext(accounts, market, seed, fee, minFee, lpOpen).Ok?
    ensures var w := SeedNext(accounts, market, seed, fee, minFee, lpOpen).value;
            Inv(w) && w.payout.None? && w.Escrow() == seed
  {
    SeedPosts(accounts, market, seed);
    UntradedIsSolvent(SeedNext(accounts, market, seed, fee, minFee, lpOpen).value);
  }

  ghost function Seeded(accounts: Accounts, market: nat, seed: I64, fee: Bps, minFee: nat, lpOpen: bool): (w: World)
    requires SeedNext(accounts, market, seed, fee, minFee, lpOpen).Ok?
    ensures w == SeedNext(accounts, market, seed, fee, minFee, lpOpen).value && Inv(w)
  {
    SeedIsSolvent(accounts, market, seed, fee, minFee, lpOpen);
    SeedNext(accounts, market, seed, fee, minFee, lpOpen).value
  }

  /** A market nobody has traded in needs only escrow and reserves to agree. */
  lemma UntradedIsSolvent(w: World)
    requires w.pool.Valid() && EscrowOpen(w) && HoldersOpen(w) && PayoutKept(w) && w.payout.None?
    requires w.positions == map[] && w.cash == map[] && w.facts == [] && w.fees == 0
    requires w.Escrow() == w.seed == w.pool.yes == w.pool.no
    ensures Inv(w)
  {
    forall side ensures UserShares(w, side) == 0 { SumZero(UserFamily(w.positions, side)); }
    SumZero(w.cash);
  }

  // ---------------------------------------------------------------- steps

  datatype Step =
    | TradeStep(cmd: TradeCmd, fee: Bps, hidden: bool, admitted: bool)
    | VoteStep(ballot: VoteCmd, beforeCutoff: bool, eligible: bool)
    | AdvanceStep(event: MarketEvent)
    | FlagStep(flag: bool)
    | ResolveStep(call: ResolveCall)
    | LedgerStep(op: Op)

  /** A resolution lists the stored holdings; other ledger traffic files its accounts and leaves this escrow alone. */
  ghost predicate Enabled(w: World, step: Step) {
    match step
    case ResolveStep(call) => Listing(w, call.order)
    case LedgerStep(Apply(entries)) => w.EscrowId() !in Touched(entries)
    case LedgerStep(Open(id, owner, currency)) => owner == TypeOf(id.owner) && currency == id.currency
    case _ => true
  }

  ghost function Perform(w: World, step: Step): World
    requires Inv(w)
  {
    if !Enabled(w, step) then w
    else
      match step
      case TradeStep(cmd, fee, hidden, admitted) => TradeNext(w, cmd, fee, hidden, admitted).0
      case VoteStep(ballot, beforeCutoff, eligible) => VoteNext(w, ballot, beforeCutoff, eligible).0
      case AdvanceStep(event) =>
        if event.IsNonFinancial() && Transition(w.state, event).Some?
        then w.(state := Transition(w.state, event).value) else w
      case FlagStep(flag) => w.(flagged := flag)
      case ResolveStep(call) => ResolveNext(w, call).0
      case LedgerStep(op) => w.(accounts := Next(w.accounts, op))
  }

  lemma LedgerStepKeepsEscrow(w: World, op: Op)
    requires Inv(w) && Enabled(w, LedgerStep(op))
    ensures EscrowOpen(w.(accounts := Next(w.accounts, op)))
    ensures w.(accounts := Next(w.accounts, op)).Escrow() == w.Escrow()
    ensures w.accounts.Keys <= Next(w.accounts, op).Keys
  {
    if op.Apply? { UntouchedDelta(op.entries, w.EscrowId()); }
  }

  lemma AdvanceKeepsInv(w: World, event: MarketEvent)
    requires Inv(w) && event.IsNonFinancial() && Transition(w.state, event).Some?
    ensures Inv(w.(state := Transition(w.state, event).value))
  {
    SameBooks(w, w.(state := Transition(w.state, event).value));
  }

  lemma VoteKeepsInv(w: World, ballot: VoteCmd, beforeCutoff: bool, eligible: bool)
    requires Inv(w)
    ensures Inv(VoteNext(w, ballot, beforeCutoff, eligible).0)
  {
    SameBooks(w, VoteNext(w, ballot, beforeCutoff, eligible).0);
  }

  lemma StepKeepsInv(w: World, step: Step)
    requires Inv(w)
    ensures Inv(Perform(w, step))
  {
    if Enabled(w, step) {
      match step
      case TradeStep(cmd, fee, hidden, admitted) => TradeKeepsInv(w, cmd, fee, hidden, admitted);
      case ResolveStep(call) => ResolveKeepsInv(w, call);
      case LedgerStep(op) =>
        LedgerStepKeepsEscrow(w, op);
        SameMarket(w, Next(w.accounts, op));
      case AdvanceStep(event) =>
        if event.IsNonFinancial() && Transition(w.state, event).Some? { AdvanceKeepsInv(w, event); }
      case VoteStep(ballot, beforeCutoff, eligible) => VoteKeepsInv(w, ballot, beforeCutoff, eligible);
      case FlagStep(flag) => SameBooks(w, w.(flagged := flag));
    }
  }

  ghost function Run(w: World, steps: seq<Step>): (w': World)
    requires Inv(w)
    ensures Inv(w')
    decreases |steps|
  {
    if steps == [] then w
    else
      var before := Run(w, steps[..|steps| - 1]);
      StepKeepsInv(before, steps[|steps| - 1]);
      Perform(before, steps[|steps| - 1])
  }

  // ---------------------------------------------------------------- solvency

  /** From seeding through any run, escrow equals every YES and every NO share until it is paid out to zero. */
  lemma SolventForever(accounts: Accounts, market: nat, seed: I64, fee: Bps, minFee: nat, lpOpen: bool,
                       steps: seq<Step>)
    requires SeedNext(accounts, market, seed, fee, minFee, lpOpen).Ok?
    ensures var start := SeedNext(accounts, market, seed, fee, minFee, lpOpen).value;
            && Inv(start)
            && EscrowOpen(Run(start, steps))
            && (Run(start, steps).payout.None? ==> Solvent(Run(start, steps)) && CashKept(Run(start, steps)))
            && (Run(start, steps).payout.Some? ==> Run(start, steps).Escrow() == 0)
  {
    SeedIsSolvent(accounts, market, seed, fee, minFee, lpOpen);
  }

  /**
   Cash flow of any position after any run, settlement included: what its user
   took out less what was put in is profit realized less cost still at stake,
   the realization facts add up to that profit, and nothing held costs nothing.
   */
  lemma CashFlowIdentity(w: World, steps: seq<Step>, s: Slot)
    requires Inv(w)
    ensures var end := Run(w, steps);
            var p := end.PositionAt(s);
            && end.CashOf(s) == p.realized - p.cost
            && FactSum(end.facts, s) == p.realized
            && p.shares >= 0 && p.cost >= 0 && (p.shares == 0 ==> p.cost == 0)
  {
    var p := Kept(Run(w, steps), s);
    assert SlotKept(s, Run(w, steps).PositionAt(s), Run(w, steps).CashOf(s), Run(w, steps).facts);
  }

  // ---------------------------------------------------------------- closed loops

  /** What a step does to the pool and the fees while the market is unpaid. */
  ghost predicate NoLoss(w: World, w': World) {
    && w'.pool.Product() >= w.pool.Product()
    && w'.seed == w.seed
    && w'.fees >= w.fees
    && (w.payout.Some? ==> w'.payout.Some?)
  }

  lemma TradeLosesNothing(w: World, cmd: TradeCmd, fee: Bps, hidden: bool, admitted: bool)
    requires Inv(w)
    ensures NoLoss(w, TradeNext(w, cmd, fee, hidden, admitted).0)
  {
    if TradeNext(w, cmd, fee, hidden, admitted).1.Placed? {
      LegsAreSound(w.pool, cmd.order, w.PositionAt(Slot(cmd.user, cmd.order.side)), fee);
    }
  }

  lemma StepLosesNothing(w: World, step: Step)
    requires Inv(w)
    ensures NoLoss(w, Perform(w, step))
  {
    match step
    case TradeStep(cmd, fee, hidden, admitted) => TradeLosesNothing(w, cmd, fee, hidden, admitted);
    case ResolveStep(call) => ResolveLosesNothing(w, call);
    case _ =>
  }

  lemma ResolveLosesNothing(w: World, call: ResolveCall)
    requires EscrowOpen(w) && PositionsKept(w)
    ensures NoLoss(w, ResolveNext(w, call).0)
  {
    RulingIsSound(w, call);
    match Rule(w, call)
    case Answer(_) =>
    case Hold =>
    case SettleAt(record) => SettledLosesNothing(w, call.order, record, call.curator.Some?);
  }

  lemma SettledLosesNothing(w: World, order: seq<Holder>, record: PayoutRecord, curated: bool)
    requires EscrowOpen(w) && PositionsKept(w) && w.payout.None? && record.bps <= 10_000
    ensures NoLoss(w, Settled(w, order, record, curated).0)
  {
    if CanPay(FeesOpened(w), order, record.bps) {
      PayingLeaves(FeesOpened(w), order, record, curated);
    }
  }

  lemma {:induction false} RunLosesNothing(w: World, steps: seq<Step>)
    requires Inv(w)
    ensures NoLoss(w, Run(w, steps))
    decreases |steps|
  {
    if steps != [] {
      RunLosesNothing(w, steps[..|steps| - 1]);
      StepLosesNothing(Run(w, steps[..|steps| - 1]), steps[|steps| - 1]);
    }
  }

  lemma ClosedLoop(w: World, w': World)
    requires w.pool.Valid() && w'.pool.Valid() && EscrowOpen(w) && EscrowOpen(w')
    requires Solvent(w) && Solvent(w') && CashKept(w) && CashKept(w')
    requires NoLoss(w, w')
    requires forall side :: UserShares(w', side) == UserShares(w, side)
    ensures w'.Escrow() >= w.Escrow()
    ensures Sum(w'.cash) <= Sum(w.cash) - (w'.fees - w.fees)
  {
    var shift := w'.Escrow() - w.Escrow();
    assert w'.pool.Reserve(Yes) == w.pool.Reserve(Yes) + shift;
    assert w'.pool.Reserve(No) == w.pool.Reserve(No) + shift;
    ShiftWithoutLoss(w.pool.Reserve(Yes), w.pool.Reserve(No), shift);
  }

  /**
   Any run that brings the users' total YES and NO holdings back to where they
   were leaves escrow no smaller, so users together take out no more than they
   put in, less the fees of the run.
   */
  lemma NoClosedLoopProfit(w: World, steps: seq<Step>)
    requires Inv(w)
    requires Run(w, steps).payout.None?
    requires forall side :: UserShares(Run(w, steps), side) == UserShares(w, side)
    ensures Run(w, steps).Escrow() >= w.Escrow()
    ensures Sum(Run(w, steps).cash) <= Sum(w.cash) - (Run(w, steps).fees - w.fees)
  {
    RunLosesNothing(w, steps);
    ClosedLoop(w, Run(w, steps));
  }

  // ---------------------------------------------------------------- frozen facts

  ghost predicate BallotsKept(before: map<nat, VoteCmd>, after: map<nat, VoteCmd>) {
    forall k :: k in before ==> k in after && after[k] == before[k]
  }

  ghost predicate ReceiptsKept(before: map<nat, Receipt>, after: map<nat, Receipt>) {
    forall k :: k in before ==> k in after && after[k] == before[k]
  }

  /** What only ever grows: rank, receipts; and what freezes: votes after closing, everything after payout. */
  ghost predicate Onward(w: World, w': World) {
    && Rank(w'.state) >= Rank(w.state)
    && ReceiptsKept(w.receipts, w'.receipts)
    && BallotsKept(w.ballots, w'.ballots)
    && (Rank(w.state) >= Rank(Closed) ==> w'.votes == w.votes)
    && (w.payout.Some? ==> w' == w.(accounts := w'.accounts, flagged := w'.flagged))
  }

  lemma TradeLeaves(w: World, cmd: TradeCmd, fee: Bps, hidden: bool, admitted: bool)
    requires w.pool.Valid() && PositionsKept(w)
    ensures var (w', r) := TradeNext(w, cmd, fee, hidden, admitted);
            if r.Placed? then
              && w.state.Live? && w'.state.Live? && w'.payout == w.payout
              && w'.votes == w.votes && w'.ballots == w.ballots && cmd.version.Some?
              && cmd.key !in w.receipts && w'.receipts == w.receipts[cmd.key := r.receipt] && r.receipt.cmd == cmd
            else w' == w
  {
  }

  lemma PlacedGoesOnward(w: World, w': World, key: nat, receipt: Receipt)
    requires PayoutKept(w)
    requires w.state.Live? && w'.state.Live? && w'.payout == w.payout && w'.votes == w.votes && w'.ballots == w.ballots
    requires key !in w.receipts && w'.receipts == w.receipts[key := receipt]
    ensures Onward(w, w')
  {
  }

  lemma TradeGoesOnward(w: World, cmd: TradeCmd, fee: Bps, hidden: bool, admitted: bool)
    requires w.pool.Valid() && PositionsKept(w) && PayoutKept(w)
    ensures Onward(w, TradeNext(w, cmd, fee, hidden, admitted).0)
  {
    TradeLeaves(w, cmd, fee, hidden, admitted);
    var (w', r) := TradeNext(w, cmd, fee, hidden, admitted);
    if r.Placed? { PlacedGoesOnward(w, w', cmd.key, r.receipt); }
  }

  /** What a resolution leaves as it was. */
  ghost predicate ResolvedOnward(w: World, w': World, r: ResolveResult) {
    if r.Outcome? && !r.replayed then
      && w.payout.None? && (w.state.Closed? || w.state.Resolving?)
      && (w'.state.Paid? || w'.state.Voided?)
      && w'.votes == w.votes && w'.ballots == w.ballots && w'.receipts == w.receipts
    else if r.HeldForReview? then w.state.Closed? && w.payout.None? && w' == w.(state := Resolving)
    else w' == w
  }

  lemma PayingLeaves(w: World, order: seq<Holder>, record: PayoutRecord, curated: bool)
    requires EscrowOpen(w) && PositionsKept(w) && record.bps <= 10_000 && CanPay(w, order, record.bps)
    ensures var w' := PaidOut(w, order, record.voided, record.bps, curated);
            && (w'.state.Paid? || w'.state.Voided?) && w'.payout == Some(record)
            && w'.votes == w.votes && w'.ballots == w.ballots && w'.receipts == w.receipts
            && w'.pool == w.pool && w'.seed == w.seed && w'.fees == w.fees
  {
  }

  lemma SettledLeaves(w: World, order: seq<Holder>, record: PayoutRecord, curated: bool)
    requires EscrowOpen(w) && PositionsKept(w) && record.bps <= 10_000
    requires w.payout.None? && (w.state.Closed? || w.state.Resolving?)
    ensures var (w', r) := Settled(w, order, record, curated); ResolvedOnward(w, w', r)
  {
    if CanPay(FeesOpened(w), order, record.bps) {
      PayingLeaves(FeesOpened(w), order, record, curated);
    }
  }

  lemma ResolveLeaves(w: World, call: ResolveCall)
    requires EscrowOpen(w) && PositionsKept(w)
    ensures var (w', r) := ResolveNext(w, call); ResolvedOnward(w, w', r)
  {
    RulingIsSound(w, call);
    match Rule(w, call)
    case Answer(_) =>
    case Hold =>
    case SettleAt(record) => SettledLeaves(w, call.order, record, call.curator.Some?);
  }

  lemma SettledGoesOnward(w: World, w': World, r: ResolveResult)
    requires ResolvedOnward(w, w', r)
    ensures Onward(w, w')
  {
  }

  lemma AdvanceGoesOnward(w: World, event: MarketEvent)
    requires Inv(w) && Transition(w.state, event).Some?
    ensures Onward(w, w.(state := Transition(w.state, event).value))
  {
    EdgesClimb(w.state, event);
  }

  lemma StepGoesOnward(w: World, step: Step)
    requires Inv(w)
    ensures Onward(w, Perform(w, step))
  {
    if Enabled(w, step) {
      match step
      case TradeStep(cmd, fee, hidden, admitted) => TradeGoesOnward(w, cmd, fee, hidden, admitted);
      case ResolveStep(call) =>
        ResolveLeaves(w, call);
        SettledGoesOnward(w, ResolveNext(w, call).0, ResolveNext(w, call).1);
      case AdvanceStep(event) => if Transition(w.state, event).Some? { AdvanceGoesOnward(w, event); }
      case VoteStep(_, _, _) =>
      case FlagStep(_) =>
      case LedgerStep(op) => var accounts := Next(w.accounts, op);
    }
  }

  lemma {:induction false} RunGoesOnward(w: World, steps: seq<Step>)
    requires Inv(w)
    ensures Onward(w, Run(w, steps))
    decreases |steps|
  {
    if steps != [] {
      RunGoesOnward(w, steps[..|steps| - 1]);
      StepGoesOnward(Run(w, steps[..|steps| - 1]), steps[|steps| - 1]);
    }
  }

  /**
   A market pays out at most once: after the payout nothing of the market
   changes again, and a later resolution, whatever it asks for, returns the
   original outcome and rate as a replay.
   */
  lemma PaysOnceAndReplaysTheSame(w: World, call: ResolveCall, steps: seq<Step>, later: ResolveCall)
    requires Inv(w) && Listing(w, call.order)
    requires ResolveNext(w, call).1.Outcome? && !ResolveNext(w, call).1.replayed
    ensures var (paid, first) := ResolveNext(w, call);
            && Inv(paid) && w.payout.None? && paid.payout == Some(first.record)
            && ResolveNext(Run(paid, steps), later) == (Run(paid, steps), Outcome(first.record, true))
  {
    FirstPays(w, call);
    PaidForever(ResolveNext(w, call).0, steps, later);
  }

  lemma FirstPays(w: World, call: ResolveCall)
    requires Inv(w) && Listing(w, call.order)
    requires ResolveNext(w, call).1.Outcome? && !ResolveNext(w, call).1.replayed
    ensures var (paid, first) := ResolveNext(w, call);
            Inv(paid) && w.payout.None? && paid.payout == Some(first.record)
  {
    OutcomeIsRecorded(w, call);
    ResolveKeepsInv(w, call);
  }

  lemma OutcomeIsRecorded(w: World, call: ResolveCall)
    requires EscrowOpen(w) && PositionsKept(w)
    requires ResolveNext(w, call).1.Outcome? && !ResolveNext(w, call).1.replayed
    ensures w.payout.None? && ResolveNext(w, call).0.payout == Some(ResolveNext(w, call).1.record)
  {
  }

  lemma PaidForever(w: World, steps: seq<Step>, later: ResolveCall)
    requires Inv(w) && w.payout.Some?
    ensures ResolveNext(Run(w, steps), later) == (Run(w, steps), Outcome(w.payout.value, true))
  {
    RunGoesOnward(w, steps);
    PaidMarketReplays(Run(w, steps), later);
  }

  lemma PaidMarketReplays(w: World, call: ResolveCall)
    requires Inv(w) && w.payout.Some?
    ensures ResolveNext(w, call) == (w, Outcome(w.payout.value, true))
  {
  }

  /** Votes cannot change once a market is closed, whatever else runs. */
  lemma TallyIsFrozenAfterClosing(w: World, steps: seq<Step>)
    requires Inv(w) && Rank(w.state) >= Rank(Closed)
    ensures TallyBps(Run(w, steps).votes) == TallyBps(w.votes)
  {
    RunGoesOnward(w, steps);
  }

  /** A placed trade replays its receipt and changes nothing, however late it is sent again. */
  lemma TradeReplays(w: World, cmd: TradeCmd, fee: Bps, hidden: bool, admitted: bool, steps: seq<Step>,
                     again: TradeCmd, fee': Bps, hidden': bool, admitted': bool)
    requires Inv(w) && again.key == cmd.key
    requires TradeNext(w, cmd, fee, hidden, admitted).1.Placed?
    ensures var (placed, first) := TradeNext(w, cmd, fee, hidden, admitted);
            && Inv(placed)
            && var after := Run(placed, steps);
               TradeNext(after, again, fee', hidden', admitted')
               == (after, if again.version.None? then Refused(VersionMissing)
                          else if again == cmd then Replayed(first.receipt)
                          else Refused(KeyConflict))
  {
    TradeKeepsInv(w, cmd, fee, hidden, admitted);
    TradeLeaves(w, cmd, fee, hidden, admitted);
    var placed := TradeNext(w, cmd, fee, hidden, admitted).0;
    RunGoesOnward(placed, steps);
    KeyHits(Run(placed, steps), again, fee', hidden', admitted');
  }

  lemma KeyHits(w: World, cmd: TradeCmd, fee: Bps, hidden: bool, admitted: bool)
    requires w.pool.Valid() && PositionsKept(w) && cmd.key in w.receipts
    ensures var receipt := w.receipts[cmd.key];
            TradeNext(w, cmd, fee, hidden, admitted)
            == (w, if cmd.version.None? then Refused(VersionMissing)
                   else if receipt.cmd == cmd then Replayed(receipt)
                   else Refused(KeyConflict))
  {
  }

  /** A cast vote sent again, however late, is a replay; its key with another ballot is a conflict. */
  lemma VoteReplays(w: World, ballot: VoteCmd, beforeCutoff: bool, eligible: bool, steps: seq<Step>,
                    again: VoteCmd, beforeCutoff': bool, eligible': bool)
    requires Inv(w) && again.key == ballot.key && again.guess <= 100
    requires VoteNext(w, ballot, beforeCutoff, eligible).1.VoteCast?
    ensures var cast := VoteNext(w, ballot, beforeCutoff, eligible).0;
            && Inv(cast)
            && VoteNext(Run(cast, steps), again, beforeCutoff', eligible')
               == (Run(cast, steps), if again == ballot then VoteReplayed(ballot) else VoteRefused(VoteConflict))
  {
    VoteKeepsInv(w, ballot, beforeCutoff, eligible);
    RunGoesOnward(VoteNext(w, ballot, beforeCutoff, eligible).0, steps);
  }
}
