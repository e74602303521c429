/** Settling complete sets: floor payouts, bounded dust, and the ledger legs that carry them. */
module Resolution {
  import opened Money
  import opened Amm
  import opened Ledger

  const MICRO: nat := 1_000_000

  datatype Holding = Holding(account: AccountId, side: Side, shares: I64)
  datatype Payout = Payout(account: AccountId, amount: I64)
  datatype Settlement = Settlement(payouts: seq<Payout>, dust: I64)

  datatype ResolutionError =
    | ResolutionOverflow
    | ConservationViolated(expected: int, got: int)
    | ActualOutOfRange
    | HoldingsIncomplete(minted: int, presented: int)

  /** Redemption per whole share of a side; the two sides add up to one dollar. */
  function Redemption(bps: nat, side: Side): (r: nat)
    requires bps <= 10_000
    ensures r <= MICRO
    ensures r + (if side.Yes? then MICRO - 100 * bps else 100 * bps) == MICRO
  {
    if side.Yes? then bps * 100 else MICRO - bps * 100
  }

  function FloorPayout(shares: nat, redemption: nat): (p: nat)
    requires redemption <= MICRO
    ensures p <= shares
  {
    PayoutBracket(shares, redemption);
    shares * redemption / MICRO
  }

  lemma PayoutBracket(shares: nat, redemption: nat)
    requires redemption <= MICRO
    ensures var p := shares * redemption / MICRO;
            && 0 <= p <= shares
            && MICRO * p <= shares * redemption <= MICRO * p + (MICRO - 1)
  {
    assert shares * redemption <= shares * MICRO;
  }

  // ---------------------------------------------------------------- totals

  function SideTotal(holdings: seq<Holding>, side: Side): int {
    if holdings == [] then 0
    else
      var last := holdings[|holdings| - 1];
      SideTotal(holdings[..|holdings| - 1], side) + (if last.side == side then last.shares else 0)
  }

  predicate AllHeld(holdings: seq<Holding>) {
    forall i :: 0 <= i < |holdings| ==> holdings[i].shares >= 0
  }

  function PayoutOf(h: Holding, bps: nat): (p: Payout)
    requires bps <= 10_000 && h.shares >= 0
    ensures p.account == h.account && 0 <= p.amount <= h.shares
  {
    Payout(h.account, FloorPayout(h.shares, Redemption(bps, h.side)))
  }

  function Payouts(holdings: seq<Holding>, bps: nat): (ps: seq<Payout>)
    requires bps <= 10_000 && AllHeld(holdings)
    ensures |ps| == |holdings|
    ensures forall i :: 0 <= i < |ps| ==> ps[i] == PayoutOf(holdings[i], bps)
  {
    seq(|holdings|, i requires 0 <= i < |holdings| => PayoutOf(holdings[i], bps))
  }

  function PayoutTotal(payouts: seq<Payout>): int {
    if payouts == [] then 0 else PayoutTotal(payouts[..|payouts| - 1]) + payouts[|payouts| - 1].amount
  }

  lemma ScaleSum(a: int, b: int, r: int)
    ensures (a + b) * r == a * r + b * r
  {
  }

  /** Exact value owed, in millionths of a micro, against the floored payouts. */
  lemma {:induction false} FloorsLoseLittle(holdings: seq<Holding>, bps: nat)
    requires bps <= 10_000 && AllHeld(holdings)
    ensures var owed := SideTotal(holdings, Yes) * Redemption(bps, Yes) + SideTotal(holdings, No) * Redemption(bps, No);
            var paid := PayoutTotal(Payouts(holdings, bps));
            MICRO * paid <= owed <= MICRO * paid + (MICRO - 1) * |holdings|
  {
    if holdings != [] {
      var init, last := holdings[..|holdings| - 1], holdings[|holdings| - 1];
      FloorsLoseLittle(init, bps);
      assert Payouts(holdings, bps)[..|init|] == Payouts(init, bps);
      PayoutBracket(last.shares, Redemption(bps, last.side));
      ScaleSum(SideTotal(init, last.side), last.shares, Redemption(bps, last.side));
    }
  }

  /** A complete book pays out at most its escrow, and the dust is below the number of holdings. */
  lemma DustIsBounded(holdings: seq<Holding>, bps: nat)
    requires bps <= 10_000 && AllHeld(holdings)
    requires SideTotal(holdings, Yes) == SideTotal(holdings, No)
    ensures var dust := SideTotal(holdings, Yes) - PayoutTotal(Payouts(holdings, bps));
            0 <= dust && (holdings != [] ==> dust < |holdings|)
  {
    var escrow := SideTotal(holdings, Yes);
    FloorsLoseLittle(holdings, bps);
    assert escrow * Redemption(bps, Yes) + escrow * Redemption(bps, No) == escrow * MICRO by {
      assert Redemption(bps, Yes) + Redemption(bps, No) == MICRO;
      ScaleSum(Redemption(bps, Yes), Redemption(bps, No), escrow);
    }
  }

  lemma {:induction false} PayoutTotalNonNegative(payouts: seq<Payout>)
    requires forall i :: 0 <= i < |payouts| ==> payouts[i].amount >= 0
    ensures PayoutTotal(payouts) >= 0
  {
    if payouts != [] { PayoutTotalNonNegative(payouts[..|payouts| - 1]); }
  }

  // ---------------------------------------------------------------- settling

  function Presented(minted: int, presented: int): ResolutionError {
    if FitsI64(presented) then HoldingsIncomplete(minted, presented) else ResolutionOverflow
  }

  /** The whole result, errors included, without any loop. */
  function SettleSpec(holdings: seq<Holding>, bps: Bps, escrow: I64): Result<Settlement, ResolutionError> {
    if bps > 10_000 then Err(ActualOutOfRange)
    else if escrow < 0 || !AllHeld(holdings) then Err(ResolutionOverflow)
    else if SideTotal(holdings, Yes) != escrow then Err(Presented(escrow, SideTotal(holdings, Yes)))
    else if SideTotal(holdings, No) != escrow then Err(Presented(escrow, SideTotal(holdings, No)))
    else if holdings == [] then Err(ConservationViolated(escrow, escrow))
    else
      DustIsBounded(holdings, bps);
      PayoutTotalNonNegative(Payouts(holdings, bps));
      Ok(Settlement(Payouts(holdings, bps), escrow - PayoutTotal(Payouts(holdings, bps))))
  }

  /** Exactly which books settle, what each holding gets, and which error the others have. */
  lemma SettleIsExact(holdings: seq<Holding>, bps: Bps, escrow: I64)
    ensures var r := SettleSpec(holdings, bps, escrow);
            var yes, no := SideTotal(holdings, Yes), SideTotal(holdings, No);
            && (r.Ok? <==> bps <= 10_000 && AllHeld(holdings) && holdings != [] && yes == escrow == no && escrow >= 0)
            && (r.Ok? ==> |r.value.payouts| == |holdings| && forall i :: 0 <= i < |holdings| ==>
                  && r.value.payouts[i].account == holdings[i].account
                  && var due := holdings[i].shares * (if holdings[i].side.Yes? then bps else 10_000 - bps);
                     r.value.payouts[i].amount * 10_000 <= due < (r.value.payouts[i].amount + 1) * 10_000)
            && (r == Err(ActualOutOfRange) <==> bps > 10_000)
            && (r.Err? && r.error.HoldingsIncomplete? ==>
                  r.error.minted == escrow && r.error.presented == (if yes != escrow then yes else no) != escrow)
            && (bps <= 10_000 && escrow >= 0 && AllHeld(holdings) && FitsI64(yes) && FitsI64(no) ==>
                  (yes != escrow || no != escrow <==> r.Err? && r.error.HoldingsIncomplete?))
  {
    if SettleSpec(holdings, bps, escrow).Ok? {
      forall i | 0 <= i < |holdings|
        ensures var paid := PayoutOf(holdings[i], bps).amount;
                var due := holdings[i].shares * (if holdings[i].side.Yes? then bps else 10_000 - bps);
                paid * 10_000 <= due < (paid + 1) * 10_000
      {
        FloorOfRate(holdings[i].shares, bps, holdings[i].side);
      }
    }
  }

  /** The floored payout in millionths is the floored share in basis points. */
  lemma FloorOfRate(shares: nat, bps: nat, side: Side)
    requires bps <= 10_000
    ensures var paid := FloorPayout(shares, Redemption(bps, side));
            var due := shares * (if side.Yes? then bps else 10_000 - bps);
            paid * 10_000 <= due < (paid + 1) * 10_000
  {
    var rate := if side.Yes? then bps else 10_000 - bps;
    PayoutBracket(shares, Redemption(bps, side));
    assert shares * Redemption(bps, side) == 100 * (shares * rate);
  }

  /** First pass: no negative holding, and what each side presents. */
  method PresentHoldings(holdings: seq<Holding>) returns (held: bool, yes: int, no: int)
    ensures held <==> AllHeld(holdings)
    ensures held ==> yes == SideTotal(holdings, Yes) && no == SideTotal(holdings, No)
  {
    yes, no := 0, 0;
    for i := 0 to |holdings|
      invariant forall j :: 0 <= j < i ==> holdings[j].shares >= 0
      invariant yes == SideTotal(holdings[..i], Yes)
      invariant no == SideTotal(holdings[..i], No)
    {
      assert holdings[..i + 1][..i] == holdings[..i];
      if holdings[i].shares < 0 { return false, 0, 0; }
      if holdings[i].side.Yes? { yes := yes + holdings[i].shares; } else { no := no + holdings[i].shares; }
    }
    assert holdings[..|holdings|] == holdings;
    held := true;
  }

  /** Second pass: the floored payouts and their running sum. */
  method PayHoldings(holdings: seq<Holding>, bps: Bps) returns (payouts: seq<Payout>, sum: int)
    requires bps <= 10_000 && AllHeld(holdings)
    ensures payouts == Payouts(holdings, bps) && sum == PayoutTotal(payouts)
  {
    payouts, sum := [], 0;
    for i := 0 to |holdings|
      invariant payouts == Payouts(holdings, bps)[..i]
      invariant sum == PayoutTotal(payouts)
    {
      var h := holdings[i];
      var payout := Payout(h.account, FloorPayout(h.shares, Redemption(bps, h.side)));
      assert (payouts + [payout])[..i] == payouts;
      sum := sum + payout.amount;
      payouts := payouts + [payout];
    }
  }

  /** The settlement loop refines the specification, and its conservation check never fires on a non-empty book. */
  method SettleMarket(holdings: seq<Holding>, bps: Bps, escrow: I64) returns (r: Result<Settlement, ResolutionError>)
    ensures r == SettleSpec(holdings, bps, escrow)
    ensures r.Ok? ==> PayoutTotal(r.value.payouts) + r.value.dust == escrow
    ensures r.Ok? ==> 0 <= r.value.dust < |holdings|
  {
    if bps > 10_000 { return Err(ActualOutOfRange); }
    if escrow < 0 { return Err(ResolutionOverflow); }
    var held, yesPresented, noPresented := PresentHoldings(holdings);
    if !held { return Err(ResolutionOverflow); }
    if yesPresented != escrow { return Err(Presented(escrow, yesPresented)); }
    if noPresented != escrow { return Err(Presented(escrow, noPresented)); }
    var payouts, payoutSum := PayHoldings(holdings, bps);
    DustIsBounded(holdings, bps);
    PayoutTotalNonNegative(payouts);
    var dust := escrow - payoutSum;
    if dust >= |holdings| { return Err(ConservationViolated(escrow, payoutSum + dust)); }
    return Ok(Settlement(payouts, dust));
  }

  // ---------------------------------------------------------------- ledger legs

  /** Holder legs, zero payouts left out. */
  function PayoutLegs(payouts: seq<Payout>): seq<Entry> {
    if payouts == [] then []
    else
      var last := payouts[|payouts| - 1];
      PayoutLegs(payouts[..|payouts| - 1])
      + (if last.amount != 0 then [Entry(last.account, last.amount)] else [])
  }

  /** Each holder +payout, fees +dust, escrow the negative total, with every zero leg left out. */
  function SettlementLegs(escrowAcct: AccountId, feesAcct: AccountId, payouts: seq<Payout>, dust: I64, total: I64)
    : seq<Entry>
    requires total >= 0
  {
    PayoutLegs(payouts)
    + (if dust != 0 then [Entry(feesAcct, dust)] else [])
    + (if total != 0 then [Entry(escrowAcct, -total)] else [])
  }

  lemma {:induction false} PartialTotalsFit(payouts: seq<Payout>, i: nat)
    requires forall j :: 0 <= j < |payouts| ==> payouts[j].amount >= 0
    requires i <= |payouts|
    ensures 0 <= PayoutTotal(payouts[..i]) <= PayoutTotal(payouts)
    decreases |payouts|
  {
    PayoutTotalNonNegative(payouts[..i]);
    if i == |payouts| {
      assert payouts[..i] == payouts;
    } else {
      var init := payouts[..|payouts| - 1];
      assert init[..i] == payouts[..i];
      PartialTotalsFit(init, i);
    }
  }

  /** The running total cannot overflow, so the legs of any settlement can be written down. */
  method SettlementEntries(escrowAcct: AccountId, feesAcct: AccountId, settlement: Settlement)
    returns (r: Result<seq<Entry>, ResolutionError>)
    requires forall i :: 0 <= i < |settlement.payouts| ==> settlement.payouts[i].amount >= 0
    requires settlement.dust >= 0
    ensures var total := PayoutTotal(settlement.payouts) + settlement.dust;
            && (r.Ok? <==> FitsI64(total))
            && total >= 0
            && (r.Ok? ==> r.value == SettlementLegs(escrowAcct, feesAcct, settlement.payouts, settlement.dust, total))
  {
    var payouts := settlement.payouts;
    var entries: seq<Entry> := [];
    var total := 0;
    for i := 0 to |payouts|
      invariant total == PayoutTotal(payouts[..i]) && FitsI64(total)
      invariant entries == PayoutLegs(payouts[..i])
    {
      assert payouts[..i + 1][..i] == payouts[..i];
      PartialTotalsFit(payouts, i + 1);
      total := total + payouts[i].amount;
      if !FitsI64(total) { return Err(ResolutionOverflow); }
      if payouts[i].amount != 0 {
        entries := entries + [Entry(payouts[i].account, payouts[i].amount)];
      }
    }
    assert payouts[..|payouts|] == payouts;
    PayoutTotalNonNegative(payouts);
    if settlement.dust != 0 {
      entries := entries + [Entry(feesAcct, settlement.dust)];
    }
    total := total + settlement.dust;
    if !FitsI64(total) { return Err(ResolutionOverflow); }
    if total != 0 {
      entries := entries + [Entry(escrowAcct, -total)];
    }
    return Ok(entries);
  }

  function PaidTo(payouts: seq<Payout>, a: AccountId): int {
    if payouts == [] then 0
    else
      var last := payouts[|payouts| - 1];
      PaidTo(payouts[..|payouts| - 1], a) + (if last.account == a then last.amount else 0)
  }

  lemma {:induction false} EntrySumAppend(left: seq<Entry>, right: seq<Entry>)
    ensures EntrySum(left + right) == EntrySum(left) + EntrySum(right)
    decreases |right|
  {
    if right == [] {
      assert left + right == left;
    } else {
      assert (left + right)[..|left + right| - 1] == left + right[..|right| - 1];
      EntrySumAppend(left, right[..|right| - 1]);
    }
  }

  lemma SingleEntrySum(e: Entry)
    ensures EntrySum([e]) == e.amount
  {
    assert [e][..0] == [];
  }

  lemma {:induction false} PayoutLegsCarryPayouts(payouts: seq<Payout>, a: AccountId)
    ensures EntrySum(PayoutLegs(payouts)) == PayoutTotal(payouts)
    ensures Delta(PayoutLegs(payouts), a) == PaidTo(payouts, a)
    ensures forall i :: 0 <= i < |PayoutLegs(payouts)| ==> PayoutLegs(payouts)[i].amount != 0
  {
    if payouts != [] {
      var init, last := payouts[..|payouts| - 1], payouts[|payouts| - 1];
      PayoutLegsCarryPayouts(init, a);
      if last.amount != 0 {
        var leg := Entry(last.account, last.amount);
        EntrySumAppend(PayoutLegs(init), [leg]);
        DeltaAppend(PayoutLegs(init), [leg], a);
        SingleEntrySum(leg);
        SingleDelta(leg, a);
      } else {
        assert PayoutLegs(payouts) == PayoutLegs(init);
      }
    }
  }

  /** What the legs add to each account, and that they are structurally valid exactly for a funded book. */
  lemma LegsAreBalanced(escrowAcct: AccountId, feesAcct: AccountId, payouts: seq<Payout>, dust: I64, total: I64,
                        a: AccountId)
    requires forall i :: 0 <= i < |payouts| ==> payouts[i].amount >= 0
    requires dust >= 0 && total == PayoutTotal(payouts) + dust && total >= 0
    ensures var legs := SettlementLegs(escrowAcct, feesAcct, payouts, dust, total);
            && (WellFormed(legs) <==> total > 0)
            && (total == 0 ==> CheckTransaction(legs) == Err(TooFewEntries))
            && Delta(legs, a) == PaidTo(payouts, a) + (if a == feesAcct then dust else 0)
                                 - (if a == escrowAcct then total else 0)
  {
    var holders := PayoutLegs(payouts);
    var fees := if dust != 0 then [Entry(feesAcct, dust)] else [];
    var escrow := if total != 0 then [Entry(escrowAcct, -total)] else [];
    PayoutLegsCarryPayouts(payouts, a);
    EntrySumAppend(holders + fees, escrow);
    EntrySumAppend(holders, fees);
    DeltaAppend(holders + fees, escrow, a);
    DeltaAppend(holders, fees, a);
    SingleEntrySum(Entry(feesAcct, dust));
    SingleEntrySum(Entry(escrowAcct, -total));
    SingleDelta(Entry(feesAcct, dust), a);
    SingleDelta(Entry(escrowAcct, -total), a);
    PayoutTotalNonNegative(payouts);
    assert EntrySum(holders + fees) == total;
    assert total > 0 ==> holders + fees != [];
    if total == 0 {
      NoPayoutNoLegs(payouts);
    }
  }

  lemma {:induction false} NoPayoutNoLegs(payouts: seq<Payout>)
    requires forall i :: 0 <= i < |payouts| ==> payouts[i].amount >= 0
    requires PayoutTotal(payouts) == 0
    ensures PayoutLegs(payouts) == []
  {
    if payouts != [] {
      PayoutTotalNonNegative(payouts[..|payouts| - 1]);
      NoPayoutNoLegs(payouts[..|payouts| - 1]);
    }
  }
}
