/**
 One market as its commands leave it: trades, votes, lifecycle moves and the
 resolution that pays it out, all over one shared ledger. A command either
 commits as a whole or changes nothing.
 */
module MarketWorld {
  import opened Money
  import opened Sums
  import opened Amm
  import opened Ledger
  import opened Lifecycle
  import opened Trading

  datatype Slot = Slot(user: nat, side: Side)

  /** Who holds shares at settlement: the pool's inventory on a side, or a user's position. */
  datatype Holder = PoolOf(side: Side) | UserOf(slot: Slot)

  /** An immutable realization row: what one sell or the settlement realized on a position. */
  datatype Fact = Fact(slot: Slot, realized: int)

  /** `version` is the configuration the client has seen; it is part of what a replay must match. */
  datatype TradeCmd = TradeCmd(key: nat, user: nat, order: Order, version: Option<int>)

  datatype VoteCmd = VoteCmd(key: nat, user: nat, side: Side, guess: nat)

  datatype Receipt = Receipt(cmd: TradeCmd, shares: I64, gross: I64, fee: I64)

  /** What the payout key records of a resolution. */
  datatype PayoutRecord = PayoutRecord(voided: bool, bps: nat)

  /**
   `cash` and `fees` are history: the net cash each position has brought its
   user, and the fees charged. `seed` is the collateral the pool started from.
   */
  datatype World = World(
    market: nat,
    state: MarketState,
    flagged: bool,
    pool: Pool,
    accounts: Accounts,
    positions: map<Slot, Position>,
    receipts: map<nat, Receipt>,
    facts: seq<Fact>,
    votes: map<nat, Side>,
    ballots: map<nat, VoteCmd>,
    payout: Option<PayoutRecord>,
    seed: int,
    cash: map<Slot, int>,
    fees: int)
  {
    function EscrowId(): AccountId { AccountId(MarketEscrow(market), Usdc) }
    function PoolId(): AccountId { AccountId(MarketPool(market), Usdc) }

    function PositionAt(s: Slot): Position { if s in positions then positions[s] else NOTHING }

    function CashOf(s: Slot): int { if s in cash then cash[s] else 0 }

    function Escrow(): int
      requires EscrowId() in accounts
    {
      accounts[EscrowId()].balance
    }
  }

  const FEES: AccountId := AccountId(FeesRef, Usdc)
  function UserId(user: nat): AccountId { AccountId(UserRef(user), Usdc) }

  /** Shares of one side over all users; slots of the other side count zero. */
  ghost function UserFamily(positions: map<Slot, Position>, side: Side): map<Slot, int> {
    map s | s in positions :: if s.side == side then positions[s].shares else 0
  }

  ghost function UserShares(w: World, side: Side): int { Sum(UserFamily(w.positions, side)) }

  function FactSum(facts: seq<Fact>, s: Slot): int {
    if facts == [] then 0
    else
      var last := facts[|facts| - 1];
      FactSum(facts[..|facts| - 1], s) + (if last.slot == s then last.realized else 0)
  }

  // ---------------------------------------------------------------- invariants

  /** An open account in the cash currency that may not go below zero. */
  predicate CashAccount(accounts: Accounts, a: AccountId) {
    a in accounts && accounts[a].currency == Usdc && !accounts[a].owner.External?
  }

  ghost predicate EscrowOpen(w: World) { CashAccount(w.accounts, w.EscrowId()) }

  /** Complete-set solvency: until it is paid out, escrow equals all YES and all NO shares. */
  ghost predicate Solvent(w: World)
    requires EscrowOpen(w)
  {
    forall side :: w.Escrow() == w.pool.Reserve(side) + UserShares(w, side)
  }

  /** Each position: sane amounts, cash equal to realized less cost, facts adding up to realized. */
  ghost predicate PositionsKept(w: World) {
    forall s :: SlotKept(s, w.PositionAt(s), w.CashOf(s), w.facts)
  }

  ghost predicate SlotKept(s: Slot, p: Position, cash: int, facts: seq<Fact>) {
    p.Held() && cash == p.realized - p.cost && FactSum(facts, s) == p.realized
  }

  /** Money into the market is where it should be: with users, in escrow, or charged as fees. */
  ghost predicate CashKept(w: World)
    requires EscrowOpen(w)
  {
    && Sum(w.cash) + w.Escrow() + w.fees == w.seed
    && w.fees >= 0
  }

  /** The payout record exists exactly in the terminal states and agrees with the frozen tally. */
  ghost predicate PayoutKept(w: World) {
    && !w.state.Resolved?
    && (w.payout.None? <==> !w.state.Paid? && !w.state.Voided?)
    && (w.state.Paid? ==> w.payout == Some(PayoutRecord(false, TallyBps(w.votes))) && |w.votes| > 0)
    && (w.state.Voided? ==> w.payout == Some(PayoutRecord(true, 5_000)))
  }

  /** Everyone the market may have to pay has an account. */
  ghost predicate HoldersOpen(w: World) {
    w.PoolId() in w.accounts && forall s :: s in w.positions ==> UserId(s.user) in w.accounts
  }

  ghost predicate Inv(w: World) {
    && w.pool.Valid()
    && EscrowOpen(w)
    && HoldersOpen(w)
    && PositionsKept(w)
    && PayoutKept(w)
    && (w.payout.None? ==> Solvent(w) && CashKept(w))
    && (w.payout.Some? ==> w.Escrow() == 0)
  }

  /** More accounts, or other balances than escrow's, leave the market as it is. */
  lemma SameMarket(w: World, accounts: Accounts)
    requires Inv(w) && w.accounts.Keys <= accounts.Keys
    requires CashAccount(accounts, w.EscrowId()) && accounts[w.EscrowId()].balance == w.Escrow()
    ensures Inv(w.(accounts := accounts))
  {
    var w' := w.(accounts := accounts);
    forall s ensures SlotKept(s, w'.PositionAt(s), w'.CashOf(s), w'.facts) {
      assert SlotKept(s, w.PositionAt(s), w.CashOf(s), w.facts);
    }
    if w'.payout.None? { assert Solvent(w); }
  }

  /** Changing only state, flag, votes and receipts leaves the books as they are. */
  lemma SameBooks(w: World, w': World)
    requires Inv(w)
    requires w' == w.(state := w'.state, flagged := w'.flagged, votes := w'.votes, ballots := w'.ballots,
                      receipts := w'.receipts)
    requires PayoutKept(w')
    ensures Inv(w')
  {
    forall s ensures SlotKept(s, w'.PositionAt(s), w'.CashOf(s), w'.facts) {
      assert SlotKept(s, w.PositionAt(s), w.CashOf(s), w.facts);
    }
    if w'.payout.None? {
      assert Solvent(w);
    }
  }

  // ---------------------------------------------------------------- votes

  function YesVoters(votes: map<nat, Side>): set<nat> { set u | u in votes && votes[u].Yes? }

  /** Basis points of YES among the votes cast, floored. */
  function TallyBps(votes: map<nat, Side>): nat {
    if |votes| == 0 then 0 else |YesVoters(votes)| * 10_000 / |votes|
  }

  /** The tally is the floored share of those who voted YES among all who voted. */
  lemma TallyIsTheYesShare(votes: map<nat, Side>, yes: set<nat>)
    requires |votes| > 0 && forall u :: u in yes <==> u in votes && votes[u] == Yes
    ensures TallyBps(votes) * |votes| <= 10_000 * |yes| < (TallyBps(votes) + 1) * |votes|
  {
    assert yes == YesVoters(votes);
    QuotientBracket(|yes| * 10_000, |votes|);
  }

  lemma TallyIsAProportion(votes: map<nat, Side>)
    ensures 0 <= TallyBps(votes) <= 10_000
  {
    if |votes| > 0 {
      SubsetSize(YesVoters(votes), votes.Keys);
      QuotientAtMost(|YesVoters(votes)| * 10_000, |votes|, 10_000);
    }
  }

  lemma {:induction false} SubsetSize(a: set<nat>, b: set<nat>)
    requires a <= b
    ensures |a| <= |b|
    decreases a
  {
    if a != {} {
      var x :| x in a;
      SubsetSize(a - {x}, b - {x});
    }
  }

  datatype VoteResult = VoteCast | VoteReplayed(first: VoteCmd) | VoteRefused(reason: VoteRefusal)

  datatype VoteRefusal = BadGuess | VoteConflict | NotOpen | PastCutoff | NotEligible | AlreadyVoted

  /**
   Replay first; then a vote counts only while Live or Closing, before the
   cutoff, once per user. `eligible`: phone, velocity, age and pauses let it through.
   */
  function VoteNext(w: World, cmd: VoteCmd, beforeCutoff: bool, eligible: bool): (World, VoteResult) {
    if cmd.guess > 100 then (w, VoteRefused(BadGuess))
    else if cmd.key in w.ballots then
      (w, if w.ballots[cmd.key] == cmd then VoteReplayed(cmd) else VoteRefused(VoteConflict))
    else if !w.state.Live? && !w.state.Closing? then (w, VoteRefused(NotOpen))
    else if !beforeCutoff then (w, VoteRefused(PastCutoff))
    else if !eligible then (w, VoteRefused(NotEligible))
    else if cmd.user in w.votes then (w, VoteRefused(AlreadyVoted))
    else (w.(votes := w.votes[cmd.user := cmd.side], ballots := w.ballots[cmd.key := cmd]), VoteCast)
  }

  // ---------------------------------------------------------------- trades

  datatype TradeResult = Placed(receipt: Receipt) | Replayed(receipt: Receipt) | Refused(reason: Refusal)

  datatype Refusal =
    | VersionMissing | KeyConflict | TradingFrozen | MarketNotOpen | VoteRequired | NotAdmitted
    | Rejected(error: TradeError) | Malformed(ledgerError: LedgerError) | LedgerRefused

  function TradeEntries(w: World, cmd: TradeCmd, legs: Legs): seq<Entry> {
    [Entry(UserId(cmd.user), legs.userDelta), Entry(w.EscrowId(), legs.escrowDelta)]
    + (if legs.feeDelta != 0 then [Entry(FEES, legs.feeDelta)] else [])
  }

  /** The user's, the market's and, for a fee, the house's fee account, opened on first use. */
  function TradeAccounts(w: World, cmd: TradeCmd, legs: Legs): Accounts {
    var both := WithAccount(WithAccount(w.accounts, UserId(cmd.user)), w.EscrowId());
    if legs.feeDelta != 0 then WithAccount(both, FEES) else both
  }

  function Prepared(w: World, cmd: TradeCmd, legs: Legs): World { w.(accounts := TradeAccounts(w, cmd, legs)) }

  /** The rows a placed trade writes beside the ledger. */
  ghost function Written(w: World, cmd: TradeCmd, legs: Legs): World {
    var slot := Slot(cmd.user, cmd.order.side);
    w.(pool := legs.poolAfter,
       positions := w.positions[slot := legs.position],
       receipts := w.receipts[cmd.key := Receipt(cmd, legs.shares, legs.gross, legs.fee)],
       facts := if legs.realizedDelta.Some? then w.facts + [Fact(slot, legs.realizedDelta.value)] else w.facts,
       cash := w.cash[slot := w.CashOf(slot) + legs.userDelta],
       fees := w.fees + legs.feeDelta)
  }

  /** The new world of a trade whose legs the ledger takes. */
  ghost function Traded(w: World, cmd: TradeCmd, legs: Legs): World
    requires Acceptable(w.accounts, TradeEntries(w, cmd, legs))
  {
    Written(w.(accounts := Posted(w.accounts, TradeEntries(w, cmd, legs))), cmd, legs)
  }

  /** Why the ledger does not take a quoted trade, if it does not. */
  ghost function Obstacle(w: World, cmd: TradeCmd, legs: Legs): Option<Refusal> {
    var checked := CheckTransaction(TradeEntries(w, cmd, legs));
    if checked.Err? then Some(Malformed(checked.error))
    else if !Acceptable(TradeAccounts(w, cmd, legs), TradeEntries(w, cmd, legs)) then Some(LedgerRefused)
    else None
  }

  /** A quoted trade goes through the ledger and is written down, or changes nothing. */
  ghost function Booked(w: World, cmd: TradeCmd, legs: Legs): (World, TradeResult) {
    var obstacle := Obstacle(w, cmd, legs);
    if obstacle.Some? then (w, Refused(obstacle.value))
    else (Traded(Prepared(w, cmd, legs), cmd, legs), Placed(Receipt(cmd, legs.shares, legs.gross, legs.fee)))
  }

  /**
   Replay first, then the gates, then the quote against the locked pool, then
   the ledger. `hidden`: the tally window has started. `admitted`: caps, pauses
   and staleness let the command through.
   */
  ghost function TradeNext(w: World, cmd: TradeCmd, fee: Bps, hidden: bool, admitted: bool): (World, TradeResult)
    requires w.pool.Valid() && PositionsKept(w)
  {
    if cmd.version.None? then (w, Refused(VersionMissing))
    else if cmd.key in w.receipts then
      (w, if w.receipts[cmd.key].cmd == cmd then Replayed(w.receipts[cmd.key]) else Refused(KeyConflict))
    else if w.state.Closing? || (w.state.Live? && hidden) then (w, Refused(TradingFrozen))
    else if !w.state.Live? then (w, Refused(MarketNotOpen))
    else if cmd.user !in w.votes then (w, Refused(VoteRequired))
    else if !admitted then (w, Refused(NotAdmitted))
    else
      var legs := LegsSpec(w.pool, cmd.order, w.PositionAt(Slot(cmd.user, cmd.order.side)), fee);
      if legs.Err? then (w, Refused(Rejected(legs.error))) else Booked(w, cmd, legs.value)
  }

  lemma TradeDeltas(w: World, cmd: TradeCmd, legs: Legs, a: AccountId)
    ensures Delta(TradeEntries(w, cmd, legs), a)
         == (if a == UserId(cmd.user) then legs.userDelta else 0)
          + (if a == w.EscrowId() then legs.escrowDelta else 0)
          + (if a == FEES then legs.feeDelta else 0)
  {
    var user, escrow, fees :=
      Entry(UserId(cmd.user), legs.userDelta), Entry(w.EscrowId(), legs.escrowDelta), Entry(FEES, legs.feeDelta);
    assert [user, escrow] == [user] + [escrow];
    assert [user, escrow] + [] == [user, escrow];
    DeltaAppend([user], [escrow], a);
    DeltaAppend([user, escrow], [fees], a);
    SingleDelta(user, a);
    SingleDelta(escrow, a);
    SingleDelta(fees, a);
  }

  lemma FactAppended(facts: seq<Fact>, f: Fact, s: Slot)
    ensures FactSum(facts + [f], s) == FactSum(facts, s) + (if f.slot == s then f.realized else 0)
  {
    assert (facts + [f])[..|facts|] == facts;
  }

  lemma FactsAfterTrade(facts: seq<Fact>, slot: Slot, realized: Option<I64>, s: Slot)
    ensures FactSum(if realized.Some? then facts + [Fact(slot, realized.value)] else facts, s)
         == FactSum(facts, s) + (if realized.Some? && s == slot then realized.value else 0)
  {
    if realized.Some? { FactAppended(facts, Fact(slot, realized.value), s); }
  }

  lemma SharesAfterUpdate(positions: map<Slot, Position>, slot: Slot, p: Position, side: Side)
    ensures Sum(UserFamily(positions[slot := p], side))
         == Sum(UserFamily(positions, side))
          + (if slot.side == side then p.shares - (if slot in positions then positions[slot].shares else 0) else 0)
  {
    var before := UserFamily(positions, side);
    var value := if slot.side == side then p.shares else 0;
    SumUpdate(before, slot, value);
    assert UserFamily(positions[slot := p], side) == before[slot := value];
  }

  lemma TradedStaysSolvent(w: World, cmd: TradeCmd, legs: Legs, side: Side)
    requires EscrowOpen(w) && Solvent(w)
    requires PoolConserved(w.pool, cmd.order, legs)
    requires PositionConserved(cmd.order, w.PositionAt(Slot(cmd.user, cmd.order.side)), legs)
    requires Acceptable(w.accounts, TradeEntries(w, cmd, legs))
    ensures EscrowOpen(Traded(w, cmd, legs))
    ensures Traded(w, cmd, legs).Escrow() == w.Escrow() + legs.escrowDelta
    ensures Traded(w, cmd, legs).Escrow()
         == Traded(w, cmd, legs).pool.Reserve(side) + UserShares(Traded(w, cmd, legs), side)
  {
    TradeDeltas(w, cmd, legs, w.EscrowId());
    SharesAfterUpdate(w.positions, Slot(cmd.user, cmd.order.side), legs.position, side);
  }

  lemma TradedKeepsPositions(w: World, cmd: TradeCmd, legs: Legs)
    requires PositionsKept(w)
    requires PositionConserved(cmd.order, w.PositionAt(Slot(cmd.user, cmd.order.side)), legs)
    requires Acceptable(w.accounts, TradeEntries(w, cmd, legs))
    ensures PositionsKept(Traded(w, cmd, legs))
  {
    var slot := Slot(cmd.user, cmd.order.side);
    var w' := Traded(w, cmd, legs);
    forall s ensures SlotKept(s, w'.PositionAt(s), w'.CashOf(s), w'.facts) {
      assert SlotKept(s, w.PositionAt(s), w.CashOf(s), w.facts);
      FactsAfterTrade(w.facts, slot, legs.realizedDelta, s);
    }
  }

  lemma TradedKeepsCash(w: World, cmd: TradeCmd, legs: Legs)
    requires EscrowOpen(w) && CashKept(w)
    requires MoneyConserved(cmd.order, legs)
    requires Acceptable(w.accounts, TradeEntries(w, cmd, legs))
    requires EscrowOpen(Traded(w, cmd, legs))
    requires Traded(w, cmd, legs).Escrow() == w.Escrow() + legs.escrowDelta
    ensures CashKept(Traded(w, cmd, legs))
  {
    var slot := Slot(cmd.user, cmd.order.side);
    SumUpdate(w.cash, slot, w.CashOf(slot) + legs.userDelta);
  }

  lemma TradedKeepsInv(w: World, cmd: TradeCmd, legs: Legs)
    requires Inv(w) && w.payout.None?
    requires PoolConserved(w.pool, cmd.order, legs) && MoneyConserved(cmd.order, legs)
    requires PositionConserved(cmd.order, w.PositionAt(Slot(cmd.user, cmd.order.side)), legs)
    requires Acceptable(w.accounts, TradeEntries(w, cmd, legs))
    ensures Inv(Traded(w, cmd, legs))
  {
    TradedStaysSolvent(w, cmd, legs, Yes);
    TradedStaysSolvent(w, cmd, legs, No);
    TradedKeepsPositions(w, cmd, legs);
    TradedKeepsCash(w, cmd, legs);
    TradedKeepsOpen(w, cmd, legs);
    assert Solvent(Traded(w, cmd, legs));
  }

  lemma TradedKeepsOpen(w: World, cmd: TradeCmd, legs: Legs)
    requires HoldersOpen(w) && Acceptable(w.accounts, TradeEntries(w, cmd, legs))
    ensures HoldersOpen(Traded(w, cmd, legs))
  {
    assert TradeEntries(w, cmd, legs)[0].account == UserId(cmd.user);
  }

  lemma PreparedKeepsInv(w: World, cmd: TradeCmd, legs: Legs)
    requires Inv(w)
    ensures Inv(Prepared(w, cmd, legs))
  {
    SameMarket(w, TradeAccounts(w, cmd, legs));
  }

  /** A trade, however it ends, keeps the invariant. */
  lemma TradeKeepsInv(w: World, cmd: TradeCmd, fee: Bps, hidden: bool, admitted: bool)
    requires Inv(w)
    ensures Inv(TradeNext(w, cmd, fee, hidden, admitted).0)
  {
    if TradeNext(w, cmd, fee, hidden, admitted).1.Placed? {
      var held := w.PositionAt(Slot(cmd.user, cmd.order.side));
      var legs := LegsSpec(w.pool, cmd.order, held, fee).value;
      LegsAreSound(w.pool, cmd.order, held, fee);
      PreparedKeepsInv(w, cmd, legs);
      TradedKeepsInv(Prepared(w, cmd, legs), cmd, legs);
    }
  }
}
