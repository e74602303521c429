/** Resolving a market: decide, settle every holding, pay through the ledger, close the positions. */
module MarketResolve {
  import opened Money
  import opened Sums
  import opened Amm
  import opened Ledger
  import opened Resolution
  import opened Lifecycle
  import opened Trading
  import opened MarketWorld

  // ---------------------------------------------------------------- holdings

  ghost function Holders(w: World): set<Holder> {
    {PoolOf(Yes), PoolOf(No)} + (set s | s in w.positions :: UserOf(s))
  }

  function HoldingOf(w: World, h: Holder): Holding {
    match h
    case PoolOf(side) => Holding(w.PoolId(), side, w.pool.Reserve(side))
    case UserOf(slot) => Holding(UserId(slot.user), slot.side, w.PositionAt(slot).shares)
  }

  ghost function HolderFamily(w: World): map<Holder, int> {
    map h | h in Holders(w) :: HoldingOf(w, h).shares
  }

  /** Some order in which the store lists every holding with shares, pool inventory included. */
  ghost predicate Listing(w: World, order: seq<Holder>) { Lists(order, HolderFamily(w)) }

  function HoldingsOf(w: World, order: seq<Holder>): (hs: seq<Holding>)
    ensures |hs| == |order| && forall i :: 0 <= i < |hs| ==> hs[i] == HoldingOf(w, order[i])
  {
    seq(|order|, i requires 0 <= i < |order| => HoldingOf(w, order[i]))
  }

  function Masked(h: Holding, side: Side): int { if h.side == side then h.shares else 0 }

  lemma {:induction false} SideTotalAsSum(holdings: seq<Holding>, side: Side, values: seq<int>)
    requires |values| == |holdings| && forall i :: 0 <= i < |values| ==> values[i] == Masked(holdings[i], side)
    ensures SideTotal(holdings, side) == SeqSum(values)
    decreases |holdings|
  {
    if holdings != [] {
      SideTotalAsSum(holdings[..|holdings| - 1], side, values[..|values| - 1]);
    }
  }

  lemma SumOfHolders(w: World, side: Side, family: map<Holder, int>)
    requires family.Keys == Holders(w)
    requires forall h :: h in family ==> family[h] == Masked(HoldingOf(w, h), side)
    ensures Sum(family) == w.pool.Reserve(side) + UserShares(w, side)
  {
    SumPick(family, PoolOf(Yes));
    SumPick(family - {PoolOf(Yes)}, PoolOf(No));
    SumOfUsers(w.positions, side, family - {PoolOf(Yes)} - {PoolOf(No)});
  }

  lemma SumOfUsers(positions: map<Slot, Position>, side: Side, users: map<Holder, int>)
    requires forall h :: h in users <==> h.UserOf? && h.slot in positions
    requires forall s :: s in positions ==> users[UserOf(s)] == if s.side == side then positions[s].shares else 0
    ensures Sum(users) == Sum(UserFamily(positions, side))
  {
    var byUser := (s: Slot) => UserOf(s);
    forall h | h in users ensures exists s :: s in UserFamily(positions, side) && byUser(s) == h {
      assert byUser(h.slot) == h;
    }
    SumRekey(UserFamily(positions, side), users, byUser);
  }

  /** However the holdings are listed, each side adds up to reserve plus users. */
  lemma HoldingsAreComplete(w: World, order: seq<Holder>, side: Side)
    requires Listing(w, order)
    ensures SideTotal(HoldingsOf(w, order), side) == w.pool.Reserve(side) + UserShares(w, side)
  {
    var family := map h | h in Holders(w) :: Masked(HoldingOf(w, h), side);
    var values := seq(|order|, i requires 0 <= i < |order| => Masked(HoldingOf(w, order[i]), side));
    SideTotalAsSum(HoldingsOf(w, order), side, values);
    forall h | h in family && family[h] != 0 ensures h in order {
      assert HolderFamily(w)[h] != 0;
    }
    SumAlongListing(order, family, values);
    SumOfHolders(w, side, family);
  }

  // ---------------------------------------------------------------- closing positions

  function PayoutFor(p: Position, side: Side, bps: nat): (amount: nat)
    requires p.Held() && bps <= 10_000
    ensures amount <= p.shares
  {
    FloorPayout(p.shares, Redemption(bps, side))
  }

  /** Adding the realized profit of every listed position stays within 64 bits. */
  ghost predicate RealizedFits(w: World, order: seq<Holder>, bps: nat)
    requires PositionsKept(w) && bps <= 10_000
  {
    forall s :: UserOf(s) in order ==>
      FitsI64(w.PositionAt(s).realized + (PayoutFor(Kept(w, s), s.side, bps) - w.PositionAt(s).cost))
  }

  ghost function Kept(w: World, s: Slot): (p: Position)
    requires PositionsKept(w)
    ensures p == w.PositionAt(s) && p.Held()
  {
    assert SlotKept(s, w.PositionAt(s), w.CashOf(s), w.facts);
    w.PositionAt(s)
  }

  ghost function ClosedPositions(w: World, order: seq<Holder>, bps: nat): map<Slot, Position>
    requires PositionsKept(w) && bps <= 10_000 && RealizedFits(w, order, bps)
  {
    map s | s in w.positions ::
      if UserOf(s) in order
      then Position(0, 0, w.positions[s].realized + (PayoutFor(Kept(w, s), s.side, bps) - w.positions[s].cost))
      else w.positions[s]
  }

  ghost function CashAfter(w: World, order: seq<Holder>, bps: nat): map<Slot, int>
    requires PositionsKept(w) && bps <= 10_000
  {
    map s | s in w.positions.Keys + w.cash.Keys ::
      w.CashOf(s) + (if UserOf(s) in order then PayoutFor(Kept(w, s), s.side, bps) else 0)
  }

  /** What settlement realizes on a slot: its payout less what it still cost. */
  ghost function Gain(w: World, bps: nat): Slot -> int
    requires PositionsKept(w) && bps <= 10_000
  {
    (s: Slot) => var p := w.PositionAt(s); if p.Held() then PayoutFor(p, s.side, bps) - p.cost else 0
  }

  ghost function FactsFrom(order: seq<Holder>, gain: Slot -> int): seq<Fact> {
    if order == [] then []
    else
      var last := order[|order| - 1];
      FactsFrom(order[..|order| - 1], gain) + (if last.UserOf? then [Fact(last.slot, gain(last.slot))] else [])
  }

  lemma {:induction false} FactSumAppend(left: seq<Fact>, right: seq<Fact>, s: Slot)
    ensures FactSum(left + right, s) == FactSum(left, s) + FactSum(right, s)
    decreases |right|
  {
    if right == [] {
      assert left + right == left;
    } else {
      assert (left + right)[..|left + right| - 1] == left + right[..|right| - 1];
      FactSumAppend(left, right[..|right| - 1], s);
    }
  }

  /** Each listed position gets exactly one settlement fact. */
  lemma {:induction false} FactsOfListing(order: seq<Holder>, gain: Slot -> int, s: Slot)
    requires forall i, j :: 0 <= i < j < |order| ==> order[i] != order[j]
    ensures FactSum(FactsFrom(order, gain), s) == if UserOf(s) in order then gain(s) else 0
    decreases |order|
  {
    if order != [] {
      var init, last := order[..|order| - 1], order[|order| - 1];
      FactsOfListing(init, gain, s);
      if last.UserOf? {
        FactAppended(FactsFrom(init, gain), Fact(last.slot, gain(last.slot)), s);
      } else {
        assert FactsFrom(order, gain) == FactsFrom(init, gain);
      }
      assert order == init + [last];
    }
  }

  // ---------------------------------------------------------------- paying

  ghost function PayLegs(w: World, order: seq<Holder>, bps: Bps): seq<Entry>
    requires EscrowOpen(w)
    requires SettleSpec(HoldingsOf(w, order), bps, w.Escrow()).Ok?
  {
    var s := SettleSpec(HoldingsOf(w, order), bps, w.Escrow()).value;
    SettlementLegs(w.EscrowId(), FEES, s.payouts, s.dust, w.Escrow())
  }

  ghost predicate CanPay(w: World, order: seq<Holder>, bps: Bps)
    requires EscrowOpen(w) && PositionsKept(w)
  {
    && SettleSpec(HoldingsOf(w, order), bps, w.Escrow()).Ok?
    && WellFormed(PayLegs(w, order, bps))
    && Acceptable(w.accounts, PayLegs(w, order, bps))
    && RealizedFits(w, order, bps)
  }

  ghost function PaidOut(w: World, order: seq<Holder>, voided: bool, bps: Bps, curated: bool): World
    requires EscrowOpen(w) && PositionsKept(w) && CanPay(w, order, bps)
  {
    w.(state := if voided then Voided else Paid,
       flagged := if curated then false else w.flagged,
       accounts := Posted(w.accounts, PayLegs(w, order, bps)),
       positions := ClosedPositions(w, order, bps),
       facts := w.facts + FactsFrom(order, Gain(w, bps)),
       cash := CashAfter(w, order, bps),
       payout := Some(PayoutRecord(voided, bps)))
  }

  /** In a solvent market the settlement succeeds at any rate and its legs are a valid transaction. */
  lemma SettlementNeverRejected(w: World, order: seq<Holder>, bps: Bps)
    requires Inv(w) && w.payout.None? && bps <= 10_000
    requires Listing(w, order)
    ensures SettleSpec(HoldingsOf(w, order), bps, w.Escrow()).Ok?
    ensures WellFormed(PayLegs(w, order, bps))
    ensures var s := SettleSpec(HoldingsOf(w, order), bps, w.Escrow()).value;
            && 0 <= s.dust < |order|
            && PayoutTotal(s.payouts) + s.dust == w.Escrow()
            && Delta(PayLegs(w, order, bps), w.EscrowId()) == 0 - w.Escrow()
  {
    HoldingsAreComplete(w, order, Yes);
    HoldingsAreComplete(w, order, No);
    AllAreHeld(w, order);
    EscrowCoversPool(w);
    BookSettles(w.EscrowId(), HoldingsOf(w, order), bps, w.Escrow());
  }

  lemma AllAreHeld(w: World, order: seq<Holder>)
    requires w.pool.Valid() && PositionsKept(w) && Listing(w, order)
    ensures AllHeld(HoldingsOf(w, order)) && order != []
    ensures forall i :: 0 <= i < |order| ==> HoldingsOf(w, order)[i].account != w.EscrowId()
  {
    forall i | 0 <= i < |order| ensures HoldingsOf(w, order)[i].shares >= 0 {
      if order[i].UserOf? { var p := Kept(w, order[i].slot); }
    }
    assert HolderFamily(w)[PoolOf(Yes)] != 0;
  }

  /** A complete, funded book of which escrow itself holds nothing settles into valid legs that empty escrow. */
  lemma BookSettles(escrow: AccountId, holdings: seq<Holding>, bps: Bps, amount: I64)
    requires AllHeld(holdings) && holdings != [] && bps <= 10_000 && amount > 0 && escrow != FEES
    requires SideTotal(holdings, Yes) == amount && SideTotal(holdings, No) == amount
    requires forall i :: 0 <= i < |holdings| ==> holdings[i].account != escrow
    ensures SettleSpec(holdings, bps, amount).Ok?
    ensures var s := SettleSpec(holdings, bps, amount).value;
            && 0 <= s.dust < |holdings|
            && PayoutTotal(s.payouts) + s.dust == amount
            && WellFormed(SettlementLegs(escrow, FEES, s.payouts, s.dust, amount))
            && Delta(SettlementLegs(escrow, FEES, s.payouts, s.dust, amount), escrow) == 0 - amount
  {
    DustIsBounded(holdings, bps);
    var s := SettleSpec(holdings, bps, amount).value;
    LegsAreBalanced(escrow, FEES, s.payouts, s.dust, amount, escrow);
    NotPaid(s.payouts, escrow);
  }

  lemma {:induction false} NotPaid(payouts: seq<Payout>, a: AccountId)
    requires forall i :: 0 <= i < |payouts| ==> payouts[i].account != a
    ensures PaidTo(payouts, a) == 0
  {
    if payouts != [] { NotPaid(payouts[..|payouts| - 1], a); }
  }

  /** Escrow always covers the pool's inventory on either side, so it covers any burn of a sell. */
  lemma EscrowCoversPool(w: World)
    requires Inv(w) && w.payout.None?
    ensures forall side :: 1 <= w.pool.Reserve(side) <= w.Escrow()
  {
    forall side ensures 1 <= w.pool.Reserve(side) <= w.Escrow() {
      var family := UserFamily(w.positions, side);
      forall s | s in family ensures family[s] >= 0 { var p := Kept(w, s); }
      SumNonNegative(family);
    }
  }

  lemma PaidOutKeepsPositions(w: World, order: seq<Holder>, voided: bool, bps: Bps, curated: bool)
    requires EscrowOpen(w) && PositionsKept(w) && CanPay(w, order, bps)
    requires Listing(w, order)
    ensures PositionsKept(PaidOut(w, order, voided, bps, curated))
  {
    var w' := PaidOut(w, order, voided, bps, curated);
    forall s ensures SlotKept(s, w'.PositionAt(s), w'.CashOf(s), w'.facts) {
      assert SlotKept(s, w.PositionAt(s), w.CashOf(s), w.facts);
      FactsOfListing(order, Gain(w, bps), s);
      FactSumAppend(w.facts, FactsFrom(order, Gain(w, bps)), s);
      if UserOf(s) in order {
        assert UserOf(s) in HolderFamily(w);
      }
    }
  }

  /** A payout drains escrow to exactly zero and keeps the invariant. */
  lemma PayingKeepsInv(w: World, order: seq<Holder>, voided: bool, bps: Bps, curated: bool)
    requires Inv(w) && w.payout.None? && bps <= 10_000
    requires Listing(w, order) && CanPay(w, order, bps)
    requires voided ==> bps == 5_000
    requires !voided ==> |w.votes| > 0 && bps == TallyBps(w.votes)
    ensures Inv(PaidOut(w, order, voided, bps, curated))
    ensures PaidOut(w, order, voided, bps, curated).Escrow() == 0
  {
    PayingEmptiesEscrow(w, order, voided, bps, curated);
    PaidOutKeepsPositions(w, order, voided, bps, curated);
    assert HoldersOpen(w) && w.pool.Valid();
  }

  lemma PayingEmptiesEscrow(w: World, order: seq<Holder>, voided: bool, bps: Bps, curated: bool)
    requires Inv(w) && w.payout.None? && bps <= 10_000
    requires Listing(w, order) && CanPay(w, order, bps)
    ensures EscrowOpen(PaidOut(w, order, voided, bps, curated))
    ensures PaidOut(w, order, voided, bps, curated).Escrow() == 0
  {
    SettlementNeverRejected(w, order, bps);
  }

  // ---------------------------------------------------------------- the ledger takes the payout

  /** Every recipient has an open internal cash account. */
  ghost predicate RecipientsOpen(w: World, order: seq<Holder>) {
    && CashAccount(w.accounts, FEES)
    && forall i :: 0 <= i < |order| ==> CashAccount(w.accounts, HoldingOf(w, order[i]).account)
  }

  lemma {:induction false} PaidToNonNegative(payouts: seq<Payout>, a: AccountId)
    requires forall i :: 0 <= i < |payouts| ==> payouts[i].amount >= 0
    ensures PaidTo(payouts, a) >= 0
  {
    if payouts != [] { PaidToNonNegative(payouts[..|payouts| - 1], a); }
  }

  lemma {:induction false} PayoutLegsGoToHolders(payouts: seq<Payout>, accounts: Accounts)
    requires forall i :: 0 <= i < |payouts| ==> CashAccount(accounts, payouts[i].account)
    ensures forall i :: 0 <= i < |PayoutLegs(payouts)| ==> CashAccount(accounts, PayoutLegs(payouts)[i].account)
  {
    if payouts != [] { PayoutLegsGoToHolders(payouts[..|payouts| - 1], accounts); }
  }

  /** Legs on cash accounts only: the cash sum is the whole sum and no credit moves. */
  lemma {:induction false} AllCash(accounts: Accounts, entries: seq<Entry>)
    requires forall i :: 0 <= i < |entries| ==> CashAccount(accounts, entries[i].account)
    ensures Known(accounts, entries)
    ensures CurrencySum(accounts, entries, Usdc) == EntrySum(entries)
    ensures CurrencySum(accounts, entries, UsdcCredit) == 0
    decreases |entries|
  {
    if entries != [] { AllCash(accounts, entries[..|entries| - 1]); }
  }

  /** A balanced cash transaction that overdraws no one is taken, short of the 64-bit total. */
  lemma InternalCashIsTaken(accounts: Accounts, entries: seq<Entry>, ext: AccountId)
    requires SoundLedger(accounts) && ExternalOf(accounts, ext, Usdc) && accounts[ext].balance > I64_MIN
    requires forall i :: 0 <= i < |entries| ==> CashAccount(accounts, entries[i].account)
    requires EntrySum(entries) == 0
    requires forall a :: a in Touched(entries) ==> a in accounts && accounts[a].balance + Delta(entries, a) >= 0
    ensures Acceptable(accounts, entries)
  {
    AllCash(accounts, entries);
    forall c ensures CurrencySum(accounts, entries, c) == 0 { assert c.Usdc? || c.UsdcCredit?; }
    forall a | a in Touched(entries) ensures CanPost(accounts[a], Delta(entries, a)) {
      InternalBalanceFits(accounts, entries, ext, a);
    }
  }

  lemma PayLegsAreCash(w: World, order: seq<Holder>, bps: Bps)
    requires EscrowOpen(w) && RecipientsOpen(w, order)
    requires SettleSpec(HoldingsOf(w, order), bps, w.Escrow()).Ok?
    ensures forall i :: 0 <= i < |PayLegs(w, order, bps)| ==> CashAccount(w.accounts, PayLegs(w, order, bps)[i].account)
  {
    PayoutLegsGoToHolders(SettleSpec(HoldingsOf(w, order), bps, w.Escrow()).value.payouts, w.accounts);
  }

  lemma PayLegsOverdrawNoOne(w: World, order: seq<Holder>, bps: Bps, a: AccountId)
    requires Inv(w) && w.payout.None? && bps <= 10_000 && Listing(w, order)
    requires SettleSpec(HoldingsOf(w, order), bps, w.Escrow()).Ok?
    ensures Delta(PayLegs(w, order, bps), a) >= if a == w.EscrowId() then 0 - w.Escrow() else 0
  {
    var s := SettleSpec(HoldingsOf(w, order), bps, w.Escrow()).value;
    SettlementNeverRejected(w, order, bps);
    LegsAreBalanced(w.EscrowId(), FEES, s.payouts, s.dust, w.Escrow(), a);
    PaidToNonNegative(s.payouts, a);
  }

  /** A sound, filed ledger whose contra account has not reached the width of a balance. */
  ghost predicate Funded(accounts: Accounts, ext: AccountId) {
    SoundLedger(accounts) && Filed(accounts) && ExternalOf(accounts, ext, Usdc) && accounts[ext].balance > I64_MIN
  }

  /** The market with the fee account there to take the dust. */
  ghost function FeesOpened(w: World): (ready: World)
    requires EscrowOpen(w) && PositionsKept(w)
    ensures EscrowOpen(ready) && PositionsKept(ready) && ready.Escrow() == w.Escrow()
  {
    SamePositions(w, WithAccount(w.accounts, FEES));
    w.(accounts := WithAccount(w.accounts, FEES))
  }

  lemma SamePositions(w: World, accounts: Accounts)
    requires PositionsKept(w)
    ensures PositionsKept(w.(accounts := accounts))
  {
    var w' := w.(accounts := accounts);
    forall s ensures SlotKept(s, w'.PositionAt(s), w'.CashOf(s), w'.facts) {
      assert SlotKept(s, w.PositionAt(s), w.CashOf(s), w.facts);
    }
  }

  lemma FeesOpenedKeepsInv(w: World, order: seq<Holder>)
    requires Inv(w)
    ensures Inv(FeesOpened(w)) && FeesOpened(w).Escrow() == w.Escrow()
    ensures Listing(w, order) ==> Listing(FeesOpened(w), order)
  {
    SameMarket(w, WithAccount(w.accounts, FEES));
    assert HolderFamily(FeesOpened(w)) == HolderFamily(w);
  }

  lemma FundedAfterOpening(accounts: Accounts, ext: AccountId, a: AccountId)
    requires Funded(accounts, ext)
    ensures Funded(WithAccount(accounts, a), ext)
  {
    FirstUseStaysSound(accounts, a);
  }

  lemma HoldersAreRecipients(w: World, order: seq<Holder>)
    requires Inv(w) && Filed(w.accounts) && FEES in w.accounts && Listing(w, order)
    ensures RecipientsOpen(w, order)
  {
    forall i | 0 <= i < |order| ensures CashAccount(w.accounts, HoldingOf(w, order[i]).account) {
      assert order[i] in HolderFamily(w);
    }
  }

  /** In a funded ledger the payout of a solvent market is always taken. */
  lemma PayoutIsTaken(w: World, order: seq<Holder>, bps: Bps, ext: AccountId)
    requires Inv(w) && w.payout.None? && bps <= 10_000 && Listing(w, order) && Funded(w.accounts, ext)
    ensures SettleSpec(HoldingsOf(FeesOpened(w), order), bps, w.Escrow()).Ok?
    ensures Acceptable(FeesOpened(w).accounts, PayLegs(FeesOpened(w), order, bps))
  {
    FeesOpenedKeepsInv(w, order);
    FundedAfterOpening(w.accounts, ext, FEES);
    HoldersAreRecipients(FeesOpened(w), order);
    LegsAreTaken(FeesOpened(w), order, bps, ext);
  }

  lemma LegsAreTaken(w: World, order: seq<Holder>, bps: Bps, ext: AccountId)
    requires Inv(w) && w.payout.None? && bps <= 10_000 && Listing(w, order) && RecipientsOpen(w, order)
    requires Funded(w.accounts, ext)
    ensures SettleSpec(HoldingsOf(w, order), bps, w.Escrow()).Ok?
    ensures Acceptable(w.accounts, PayLegs(w, order, bps))
  {
    SettlementNeverRejected(w, order, bps);
    var legs := PayLegs(w, order, bps);
    PayLegsAreCash(w, order, bps);
    forall a | a in Touched(legs) ensures a in w.accounts && w.accounts[a].balance + Delta(legs, a) >= 0 {
      var i :| 0 <= i < |legs| && legs[i].account == a;
      assert CashAccount(w.accounts, a);
      PayLegsOverdrawNoOne(w, order, bps, a);
    }
    InternalCashIsTaken(w.accounts, legs, ext);
  }

  // ---------------------------------------------------------------- the resolve command

  datatype Curator = ResolveAtTally | VoidIt

  /** The command's inputs: the override, the stored sweep verdict, the configured thresholds, a listing. */
  datatype ResolveCall = ResolveCall(
    curator: Option<Curator>, sweepPassed: bool, holdAt: int, minVotes: int, oiFloor: int, order: seq<Holder>)

  datatype ResolveRefusal =
    CuratorRequired | CuratorNotAllowed | UnderReview | IllegalTransition | NeedsCurator | SettlementFailed | NotSettled

  datatype ResolveResult =
    Outcome(record: PayoutRecord, replayed: bool) | HeldForReview | ResolveRefused(reason: ResolveRefusal)

  ghost function OpenInterest(w: World): int { Sum(map s | s in w.positions :: w.positions[s].cost) }

  /** Enough votes settle at the tally; too few void below the floor and otherwise need a curator. */
  ghost function Decide(w: World, call: ResolveCall): Result<PayoutRecord, ResolveRefusal> {
    match call.curator
    case Some(ResolveAtTally) =>
      if |w.votes| > 0 then Ok(PayoutRecord(false, TallyBps(w.votes))) else Err(NeedsCurator)
    case Some(VoidIt) => Ok(PayoutRecord(true, 5_000))
    case None =>
      if |w.votes| > 0 && |w.votes| >= call.minVotes then Ok(PayoutRecord(false, TallyBps(w.votes)))
      else if OpenInterest(w) < call.oiFloor then Ok(PayoutRecord(true, 5_000))
      else Err(NeedsCurator)
  }

  /** Why the command may not proceed from this state, if it may not. */
  function Gate(state: MarketState, flagged: bool, call: ResolveCall): Option<ResolveRefusal> {
    if state.Resolving? then
      if flagged then (if call.curator.None? then Some(CuratorRequired) else None)
      else if call.curator.Some? then Some(CuratorNotAllowed)
      else if !call.sweepPassed then Some(UnderReview)
      else None
    else if call.curator.Some? then Some(CuratorNotAllowed)
    else if Transition(state, StartIntegritySweep).None? then Some(IllegalTransition)
    else None
  }

  /** The receipt a replay rebuilds from the settled state and the current tally. */
  function ReplayReceipt(state: MarketState, votes: map<nat, Side>): ResolveResult {
    match state
    case Voided => Outcome(PayoutRecord(true, 5_000), true)
    case Paid =>
      if |votes| == 0 then ResolveRefused(NotSettled) else Outcome(PayoutRecord(false, TallyBps(votes)), true)
    case _ => ResolveRefused(NotSettled)
  }

  /** What the command does once it has read the market: answer at once, hold, or settle at a rate. */
  datatype Ruling = Answer(result: ResolveResult) | Hold | SettleAt(record: PayoutRecord)

  ghost function Rule(w: World, call: ResolveCall): (ruling: Ruling)
    requires EscrowOpen(w)
    ensures ruling.SettleAt? ==> ruling.record.bps <= 10_000
  {
    TallyIsAProportion(w.votes);
    if w.payout.Some? then Answer(ReplayReceipt(w.state, w.votes))
    else if Gate(w.state, w.flagged, call).Some? then Answer(ResolveRefused(Gate(w.state, w.flagged, call).value))
    else if w.state.Closed? && w.Escrow() >= call.holdAt then Hold
    else
      var decided := Decide(w, call);
      if decided.Err? then Answer(ResolveRefused(decided.error)) else SettleAt(decided.value)
  }

  /** Pays out at the decided rate, or changes nothing. */
  ghost function Settled(w: World, order: seq<Holder>, record: PayoutRecord, curated: bool): (World, ResolveResult)
    requires EscrowOpen(w) && PositionsKept(w) && record.bps <= 10_000
  {
    var ready := FeesOpened(w);
    if !CanPay(ready, order, record.bps) then (w, ResolveRefused(SettlementFailed))
    else (PaidOut(ready, order, record.voided, record.bps, curated), Outcome(record, false))
  }

  ghost function ResolveNext(w: World, call: ResolveCall): (World, ResolveResult)
    requires EscrowOpen(w) && PositionsKept(w)
  {
    match Rule(w, call)
    case Answer(result) => (w, result)
    case Hold => (w.(state := Resolving), HeldForReview)
    case SettleAt(record) => Settled(w, call.order, record, call.curator.Some?)
  }

  /** Only an unpaid market is held or settled, from Closed or Resolving, at the tally or at half when void. */
  lemma RulingIsSound(w: World, call: ResolveCall)
    requires EscrowOpen(w)
    ensures match Rule(w, call)
            case Answer(result) => !result.HeldForReview? && (result.Outcome? ==> result.replayed)
            case Hold => w.payout.None? && w.state.Closed?
            case SettleAt(record) =>
              && w.payout.None? && (w.state.Closed? || w.state.Resolving?)
              && (record.voided ==> record.bps == 5_000)
              && (!record.voided ==> |w.votes| > 0 && record.bps == TallyBps(w.votes))
  {
  }

  /** A closed market below the hold threshold, a sweep that passed, or a flagged market with its curator. */
  ghost predicate Passes(w: World, call: ResolveCall)
    requires EscrowOpen(w)
  {
    || (w.state.Closed? && call.curator.None? && w.Escrow() < call.holdAt)
    || (w.state.Resolving? && !w.flagged && call.curator.None? && call.sweepPassed)
    || (w.state.Resolving? && w.flagged && call.curator.Some?)
  }

  predicate EnoughVotes(w: World, call: ResolveCall) {
    |w.votes| > 0 && (call.curator.Some? || |w.votes| >= call.minVotes)
  }

  predicate WantsVoid(call: ResolveCall) { call.curator == Some(VoidIt) }

  /** For an unpaid market: exactly when it is held, settled, voided or refused, and why. */
  lemma RulingIsExact(w: World, call: ResolveCall)
    requires EscrowOpen(w) && w.payout.None?
    ensures var ruling := Rule(w, call);
            && (ruling.Hold? <==> w.state.Closed? && call.curator.None? && w.Escrow() >= call.holdAt)
            && (ruling.SettleAt? && !ruling.record.voided
                <==> Passes(w, call) && EnoughVotes(w, call) && !WantsVoid(call))
            && (ruling.SettleAt? && ruling.record.voided
                <==> Passes(w, call)
                     && (WantsVoid(call)
                         || (call.curator.None? && !EnoughVotes(w, call) && OpenInterest(w) < call.oiFloor)))
            && (ruling.Answer? ==> ruling.result == ResolveRefused(WhyRefused(w, call)))
  {
  }

  function WhyRefused(w: World, call: ResolveCall): ResolveRefusal {
    if w.state.Resolving? && w.flagged then (if call.curator.None? then CuratorRequired else NeedsCurator)
    else if call.curator.Some? then CuratorNotAllowed
    else if w.state.Resolving? then (if call.sweepPassed then NeedsCurator else UnderReview)
    else if w.state.Closed? then NeedsCurator
    else IllegalTransition
  }

  ghost function RealizedFamily(w: World): map<Slot, int> { map s | s in w.positions :: w.positions[s].realized }

  /** Open interest is the users' money still in the market: escrow and fees beyond the seed, and profits taken. */
  lemma OpenInterestIsAtStake(w: World)
    requires Inv(w) && w.payout.None?
    ensures OpenInterest(w) == w.Escrow() + w.fees - w.seed + Sum(RealizedFamily(w))
  {
    var costs := map s | s in w.positions :: w.positions[s].cost;
    var flows := map s | s in w.positions :: w.CashOf(s);
    forall s ensures w.CashOf(s) == w.PositionAt(s).realized - w.PositionAt(s).cost {
      assert SlotKept(s, w.PositionAt(s), w.CashOf(s), w.facts);
    }
    SumAdd(flows, costs, RealizedFamily(w));
    var all := map s | s in w.positions.Keys + w.cash.Keys :: w.CashOf(s);
    SumWithoutZeros(all, flows);
    SumWithoutZeros(all, w.cash);
  }

  lemma ResolveKeepsInv(w: World, call: ResolveCall)
    requires Inv(w) && Listing(w, call.order)
    ensures Inv(ResolveNext(w, call).0)
  {
    RulingIsSound(w, call);
    match Rule(w, call)
    case Answer(_) =>
    case Hold => SameBooks(w, w.(state := Resolving));
    case SettleAt(record) => SettledKeepsInv(w, call.order, record, call.curator.Some?);
  }

  lemma SettledKeepsInv(w: World, order: seq<Holder>, record: PayoutRecord, curated: bool)
    requires Inv(w) && w.payout.None? && Listing(w, order) && record.bps <= 10_000
    requires record.voided ==> record.bps == 5_000
    requires !record.voided ==> |w.votes| > 0 && record.bps == TallyBps(w.votes)
    ensures Inv(Settled(w, order, record, curated).0)
  {
    FeesOpenedKeepsInv(w, order);
    if CanPay(FeesOpened(w), order, record.bps) {
      PayingKeepsInv(FeesOpened(w), order, record.voided, record.bps, curated);
    }
  }
}
