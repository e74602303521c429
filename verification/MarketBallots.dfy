/** From the ballots cast to the money paid: what a resolution owes each holder, in the voters' own terms. */
module MarketBallots {
  import opened Money
  import opened Amm
  import opened Ledger
  import opened Resolution
  import opened Trading
  import opened MarketWorld
  import opened MarketResolve
  import opened MarketRuns
  import opened MarketPayable

  // ---------------------------------------------------------------- votes are ballots

  predicate Cast(ballots: map<nat, VoteCmd>, user: nat, side: Side) {
    exists key :: key in ballots && ballots[key].user == user && ballots[key].side == side
  }

  /** Every vote counted is a ballot cast, and every ballot cast is counted once. */
  ghost predicate Counted(w: World) {
    forall user, side :: (user in w.votes && w.votes[user] == side) <==> Cast(w.ballots, user, side)
  }

  lemma CastAfter(ballots: map<nat, VoteCmd>, ballot: VoteCmd, user: nat, side: Side)
    requires ballot.key !in ballots
    ensures Cast(ballots[ballot.key := ballot], user, side)
       <==> Cast(ballots, user, side) || (user == ballot.user && side == ballot.side)
  {
    var after := ballots[ballot.key := ballot];
    if Cast(ballots, user, side) {
      var key :| key in ballots && ballots[key].user == user && ballots[key].side == side;
      assert after[key] == ballots[key];
    }
    if user == ballot.user && side == ballot.side { assert after[ballot.key] == ballot; }
  }

  lemma VoteIsCounted(w: World, ballot: VoteCmd, beforeCutoff: bool, eligible: bool)
    requires Counted(w)
    ensures Counted(VoteNext(w, ballot, beforeCutoff, eligible).0)
  {
    var (w', r) := VoteNext(w, ballot, beforeCutoff, eligible);
    if r.VoteCast? {
      forall user, side ensures (user in w'.votes && w'.votes[user] == side) <==> Cast(w'.ballots, user, side) {
        CastAfter(w.ballots, ballot, user, side);
      }
    }
  }

  lemma SameCount(w: World, w': World)
    requires Counted(w) && w'.votes == w.votes && w'.ballots == w.ballots
    ensures Counted(w')
  {
  }

  lemma OnlyVotesCount(w: World, step: Step)
    requires Inv(w) && !step.VoteStep?
    ensures Perform(w, step).votes == w.votes && Perform(w, step).ballots == w.ballots
  {
    match step
    case TradeStep(cmd, fee, hidden, admitted) => TradeLeaves(w, cmd, fee, hidden, admitted);
    case ResolveStep(call) =>
      ResolveLeaves(w, call);
      ResolvingCastsNothing(w, ResolveNext(w, call).0, ResolveNext(w, call).1);
    case _ =>
  }

  lemma ResolvingCastsNothing(w: World, w': World, r: ResolveResult)
    requires ResolvedOnward(w, w', r)
    ensures w'.votes == w.votes && w'.ballots == w.ballots
  {
  }

  lemma StepCounts(w: World, step: Step)
    requires Inv(w) && Counted(w)
    ensures Counted(Perform(w, step))
  {
    match step
    case VoteStep(ballot, beforeCutoff, eligible) => VoteIsCounted(w, ballot, beforeCutoff, eligible);
    case _ =>
      OnlyVotesCount(w, step);
      SameCount(w, Perform(w, step));
  }

  lemma {:induction false} RunCounts(w: World, steps: seq<Step>)
    requires Inv(w) && Counted(w)
    ensures Counted(MarketRuns.Run(w, steps))
    decreases |steps|
  {
    if steps != [] {
      RunCounts(w, steps[..|steps| - 1]);
      StepCounts(MarketRuns.Run(w, steps[..|steps| - 1]), steps[|steps| - 1]);
    }
  }

  // ---------------------------------------------------------------- the rate

  /** `all` cast a ballot, and `yes` of them for YES. */
  ghost predicate Electorate(ballots: map<nat, VoteCmd>, all: set<nat>, yes: set<nat>) {
    && (forall u :: u in all <==> Cast(ballots, u, Yes) || Cast(ballots, u, No))
    && (forall u :: u in yes <==> Cast(ballots, u, Yes))
  }

  /** The floored YES share of an electorate in basis points. */
  predicate IsRate(bps: int, yes: set<nat>, all: set<nat>) { bps * |all| <= 10_000 * |yes| < (bps + 1) * |all| }

  lemma TallyIsTheRate(w: World, all: set<nat>, yes: set<nat>)
    requires Counted(w) && Electorate(w.ballots, all, yes) && |w.votes| > 0
    ensures IsRate(TallyBps(w.votes), yes, all)
  {
    forall u ensures u in w.votes.Keys <==> u in all {
      if u in w.votes { assert Cast(w.ballots, u, w.votes[u]); }
    }
    assert w.votes.Keys == all;
    forall u ensures u in yes <==> u in w.votes && w.votes[u] == Yes {}
    TallyIsTheYesShare(w.votes, yes);
  }

  /** `amount` is `rate` parts in 10 000 of `shares`, rounded down. */
  predicate IsFloorShare(amount: int, shares: int, rate: int) {
    amount * 10_000 <= shares * rate < (amount + 1) * 10_000
  }

  lemma PayoutIsFloorShare(p: Position, side: Side, bps: nat)
    requires p.Held() && bps <= 10_000
    ensures IsFloorShare(PayoutFor(p, side, bps), p.shares, if side.Yes? then bps else 10_000 - bps)
  {
    FloorOfRate(p.shares, bps, side);
  }

  // ---------------------------------------------------------------- the money

  /** What settlement books to one position. */
  ghost function BookedTo(w: World, order: seq<Holder>, bps: nat, s: Slot): nat
    requires PositionsKept(w) && bps <= 10_000
  {
    if UserOf(s) in order then PayoutFor(Kept(w, s), s.side, bps) else 0
  }

  lemma {:induction false} CashToBothSlots(w: World, order: seq<Holder>, bps: nat, user: nat)
    requires PositionsKept(w) && bps <= 10_000
    requires forall i, j :: 0 <= i < j < |order| ==> order[i] != order[j]
    ensures CashTo(w, order, bps, user)
         == BookedTo(w, order, bps, Slot(user, Yes)) + BookedTo(w, order, bps, Slot(user, No))
    decreases |order|
  {
    if order != [] {
      var init, last := order[..|order| - 1], order[|order| - 1];
      CashToBothSlots(w, init, bps, user);
      assert order == init + [last];
      assert last !in init;
    }
  }

  /** A paid position is closed, and its user's cash has grown by what was booked. */
  lemma PositionIsPaid(w: World, order: seq<Holder>, voided: bool, bps: Bps, curated: bool, s: Slot)
    requires EscrowOpen(w) && PositionsKept(w) && bps <= 10_000 && CanPay(w, order, bps) && Listing(w, order)
    ensures var paid := PaidOut(w, order, voided, bps, curated);
            && paid.CashOf(s) == w.CashOf(s) + BookedTo(w, order, bps, s)
            && (UserOf(s) in order ==> paid.PositionAt(s).shares == 0 && paid.PositionAt(s).cost == 0)
  {
    if UserOf(s) in order { assert UserOf(s) in HolderFamily(w); }
  }

  /** A fresh resolution pays every listed position its floored share, and every user's account the sum. */
  ghost predicate PaidAt(w: World, after: World, order: seq<Holder>, bps: nat, s: Slot) {
    var p := w.PositionAt(s);
    var amount := after.CashOf(s) - w.CashOf(s);
    if UserOf(s) in order
    then IsFloorShare(amount, p.shares, if s.side.Yes? then bps else 10_000 - bps)
         && after.PositionAt(s).shares == 0 && after.PositionAt(s).cost == 0
    else amount == 0
  }

  ghost predicate AccountPaid(w: World, after: World, user: nat) {
    Moved(w.accounts, after.accounts, UserId(user),
          (after.CashOf(Slot(user, Yes)) - w.CashOf(Slot(user, Yes)))
          + (after.CashOf(Slot(user, No)) - w.CashOf(Slot(user, No))))
  }

  lemma PaidOutPays(w: World, order: seq<Holder>, voided: bool, bps: Bps, curated: bool, s: Slot)
    requires EscrowOpen(w) && PositionsKept(w) && bps <= 10_000 && CanPay(w, order, bps) && Listing(w, order)
    ensures PaidAt(w, PaidOut(w, order, voided, bps, curated), order, bps, s)
  {
    PositionIsPaid(w, order, voided, bps, curated, s);
    PayoutIsFloorShare(Kept(w, s), s.side, bps);
  }

  lemma PaidOutCredits(w: World, order: seq<Holder>, voided: bool, bps: Bps, curated: bool, user: nat)
    requires Inv(w) && w.payout.None? && bps <= 10_000 && CanPay(w, order, bps) && Listing(w, order)
    requires UserId(user) in w.accounts
    ensures AccountPaid(w, PaidOut(w, order, voided, bps, curated), user)
  {
    PositionIsPaid(w, order, voided, bps, curated, Slot(user, Yes));
    PositionIsPaid(w, order, voided, bps, curated, Slot(user, No));
    PayoutsReachTheirUsers(w, order, voided, bps, curated, user);
    CashToBothSlots(w, order, bps, user);
  }

  /** Opening the fee account first changes nothing of what holders get. */
  lemma OpeningFeesIsNoPayment(w: World, ready: World, after: World, order: seq<Holder>, bps: nat, s: Slot)
    requires ready == w.(accounts := WithAccount(w.accounts, FEES))
    ensures PaidAt(ready, after, order, bps, s) ==> PaidAt(w, after, order, bps, s)
    ensures UserId(s.user) in w.accounts && AccountPaid(ready, after, s.user) ==> AccountPaid(w, after, s.user)
  {
  }

  lemma SettledPays(w: World, order: seq<Holder>, record: PayoutRecord, curated: bool, s: Slot)
    requires Inv(w) && w.payout.None? && Listing(w, order) && record.bps <= 10_000
    requires CanPay(FeesOpened(w), order, record.bps)
    ensures PaidAt(w, Settled(w, order, record, curated).0, order, record.bps, s)
  {
    FeesOpenedKeepsInv(w, order);
    PaidOutPays(FeesOpened(w), order, record.voided, record.bps, curated, s);
    OpeningFeesIsNoPayment(w, FeesOpened(w), Settled(w, order, record, curated).0, order, record.bps, s);
  }

  lemma SettledCredits(w: World, order: seq<Holder>, record: PayoutRecord, curated: bool, s: Slot)
    requires Inv(w) && w.payout.None? && Listing(w, order) && record.bps <= 10_000
    requires CanPay(FeesOpened(w), order, record.bps) && UserId(s.user) in w.accounts
    ensures AccountPaid(w, Settled(w, order, record, curated).0, s.user)
  {
    FeesOpenedKeepsInv(w, order);
    PaidOutCredits(FeesOpened(w), order, record.voided, record.bps, curated, s.user);
    OpeningFeesIsNoPayment(w, FeesOpened(w), Settled(w, order, record, curated).0, order, record.bps, s);
  }

  /** A resolution that pays does so at the rate it reports, which is the tally unless the market is void. */
  lemma OutcomePays(w: World, call: ResolveCall, s: Slot)
    requires Inv(w) && Listing(w, call.order)
    requires ResolveNext(w, call).1.Outcome? && !ResolveNext(w, call).1.replayed
    ensures var (after, r) := ResolveNext(w, call);
            && PaidAt(w, after, call.order, r.record.bps, s)
            && (UserId(s.user) in w.accounts ==> AccountPaid(w, after, s.user))
            && (if r.record.voided then r.record.bps == 5_000
                else |w.votes| > 0 && r.record.bps == TallyBps(w.votes))
            && (after.flagged <==> w.flagged && call.curator.None?)
  {
    RulingIsSound(w, call);
    var ruling := Rule(w, call);
    SettledPays(w, call.order, ruling.record, call.curator.Some?, s);
    if UserId(s.user) in w.accounts { SettledCredits(w, call.order, ruling.record, call.curator.Some?, s); }
  }

  /**
   From seeding on: whatever ran before, a resolution that is not void pays
   every listed position the floored share of its side among the ballots cast,
   a void one half, and each user's account the sum of its positions' payouts.
   */
  lemma PaidByTheBallots(accounts: Accounts, market: nat, seed: I64, fee: Bps, minFee: nat, lpOpen: bool,
                         steps: seq<Step>, call: ResolveCall, all: set<nat>, yes: set<nat>, s: Slot)
    requires SeedNext(accounts, market, seed, fee, minFee, lpOpen).Ok?
    requires var w := MarketRuns.Run(Seeded(accounts, market, seed, fee, minFee, lpOpen), steps);
             && Listing(w, call.order) && Electorate(w.ballots, all, yes)
             && ResolveNext(w, call).1.Outcome? && !ResolveNext(w, call).1.replayed
    ensures var w := MarketRuns.Run(Seeded(accounts, market, seed, fee, minFee, lpOpen), steps);
            var (after, r) := ResolveNext(w, call);
            && PaidAt(w, after, call.order, r.record.bps, s)
            && (UserId(s.user) in w.accounts ==> AccountPaid(w, after, s.user))
            && (if r.record.voided then r.record.bps == 5_000 else all != {} && IsRate(r.record.bps, yes, all))
  {
    var start := Seeded(accounts, market, seed, fee, minFee, lpOpen);
    RunCounts(start, steps);
    var w := MarketRuns.Run(start, steps);
    OutcomePays(w, call, s);
    if |w.votes| > 0 { TallyIsTheRate(w, all, yes); }
  }
}
