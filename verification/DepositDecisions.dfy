/** Every decision about a deposit, exactly: who is admitted, held or refunded, and on whose word. */
module DepositDecisions {
  import opened Money
  import opened Sums
  import opened Ledger
  import opened Deposits

  // ---------------------------------------------------------------- admission

  /** The row is where the caller saw it, and the call is one that may take it up. */
  predicate MayTakeUp(d: Deposit, seen: Status, machine: bool, reevaluate: bool) {
    && d.status == seen && (reevaluate ==> machine)
    && (seen.ObservedFinalized? || seen.AdmissionPending? || (seen.ComplianceHold? && reevaluate))
  }

  function UserAccount(user: nat): AccountId { AccountId(UserRef(user), Usdc) }

  ghost predicate Admissible(w: World, d: Deposit, verdict: Verdict) {
    d.user.Some? && verdict.Clear? && Payable(w.accounts, UserAccount(d.user.value), d.amount)
  }

  /** The row and the money once a deposit has gone to its user. */
  ghost predicate AdmittedNow(w: World, after: World, id: nat)
    requires id in w.deposits && w.deposits[id].user.Some?
  {
    var d := w.deposits[id];
    var user := UserAccount(d.user.value);
    && after.deposits == w.deposits[id := d.(status := Admitted, admitTx := true)]
    && after.releases == w.releases + [Release(id, user, d.amount)] && after.proposals == w.proposals
    && user in after.accounts && SUSPENSE in after.accounts && SUSPENSE in w.accounts
    && after.accounts[user].balance == (if user in w.accounts then w.accounts[user].balance else 0) + d.amount
    && after.accounts[SUSPENSE].balance == w.accounts[SUSPENSE].balance - d.amount
  }

  lemma ReleaseIsExact(w: World, id: nat, from: Status)
    requires Inv(w) && id in w.deposits && w.deposits[id].user.Some? && w.deposits[id].status == from
    requires LegalTransition(from, Admitted)
    ensures var user := UserAccount(w.deposits[id].user.value);
            && (CanRelease(w, id, user, from, Admitted) <==> Payable(w.accounts, user, w.deposits[id].amount))
            && (CanRelease(w, id, user, from, Admitted) ==>
                  AdmittedNow(w, ReleaseTo(w, id, user, from, Admitted), id))
            && ReleaseTo(w, id, user, from, Admitted).decisions == w.decisions
  {
    var user, amount := UserAccount(w.deposits[id].user.value), w.deposits[id].amount;
    assert RowKept(w.deposits[id]);
    TwoLegs(Entry(SUSPENSE, 0 - amount), Entry(user, amount), SUSPENSE);
    TwoLegs(Entry(SUSPENSE, 0 - amount), Entry(user, amount), user);
  }

  lemma PendingIsExact(w: World, id: nat, verdict: Verdict)
    requires Inv(w) && id in w.deposits && w.deposits[id].status.AdmissionPending?
    ensures var d, next := w.deposits[id], PendingNext(w, id, verdict);
            if d.user.None? || verdict.Hold?
            then next == Some(w.(deposits := w.deposits[id := d.(status := ComplianceHold)]))
            else if Admissible(w, d, verdict)
            then next.Some? && AdmittedNow(w, next.value, id) && next.value.decisions == w.decisions
            else next.None?
  {
    if w.deposits[id].user.Some? { ReleaseIsExact(w, id, AdmissionPending); }
  }

  ghost function Pending(w: World, id: nat): World
    requires id in w.deposits
  {
    w.(deposits := w.deposits[id := w.deposits[id].(status := AdmissionPending)])
  }

  lemma AdmitGoesThroughPending(w: World, id: nat, seen: Status, machine: bool, reevaluate: bool, verdict: Verdict)
    requires id in w.deposits
    ensures var next := PendingNext(Pending(w, id), id, verdict);
            AdmitNext(w, id, seen, machine, reevaluate, verdict)
            == if MayTakeUp(w.deposits[id], seen, machine, reevaluate) && next.Some? then next.value else w
  {
    if w.deposits[id].status.AdmissionPending? { assert Pending(w, id) == w; }
  }

  lemma PendingIsSound(w: World, id: nat)
    requires Inv(w) && id in w.deposits
    requires var s := w.deposits[id].status; s.ObservedFinalized? || s.AdmissionPending? || s.ComplianceHold?
    ensures Inv(Pending(w, id))
  {
    StillWaiting(w, Pending(w, id), id, AdmissionPending);
  }

  lemma FromPending(w: World, after: World, id: nat)
    requires id in w.deposits && w.deposits[id].user.Some?
    ensures AdmittedNow(Pending(w, id), after, id) ==> AdmittedNow(w, after, id)
  {
    var d := w.deposits[id].(status := Admitted, admitTx := true);
    assert Pending(w, id).deposits[id := d] == w.deposits[id := d];
  }

  /** What becomes of a row that is taken up: held, admitted, or left as it was. */
  ghost predicate TakenUp(w: World, after: World, id: nat, verdict: Verdict)
    requires id in w.deposits
  {
    var d := w.deposits[id];
    if d.user.None? || verdict.Hold?
    then after == w.(deposits := w.deposits[id := d.(status := ComplianceHold)])
    else if Admissible(w, d, verdict) then AdmittedNow(w, after, id) && after.decisions == w.decisions
    else after == w
  }

  lemma PendingIsTakenUp(w: World, id: nat, verdict: Verdict)
    requires id in w.deposits && Inv(Pending(w, id))
    ensures var next := PendingNext(Pending(w, id), id, verdict);
            TakenUp(w, if next.Some? then next.value else w, id, verdict)
  {
    PendingIsExact(Pending(w, id), id, verdict);
    var held := w.deposits[id].(status := ComplianceHold);
    assert Pending(w, id).deposits[id := held] == w.deposits[id := held];
    var next := PendingNext(Pending(w, id), id, verdict);
    if w.deposits[id].user.Some? && next.Some? { FromPending(w, next.value, id); }
  }

  /**
   A row the call may take up is admitted exactly on a clear verdict for a
   known, payable user, and held exactly without a user or on a hold;
   anything else, and any row that has moved meanwhile, changes nothing.
   */
  lemma AdmitIsExact(w: World, id: nat, seen: Status, machine: bool, reevaluate: bool, verdict: Verdict)
    requires Inv(w) && id in w.deposits
    ensures var after := AdmitNext(w, id, seen, machine, reevaluate, verdict);
            if MayTakeUp(w.deposits[id], seen, machine, reevaluate) then TakenUp(w, after, id, verdict) else after == w
  {
    AdmitGoesThroughPending(w, id, seen, machine, reevaluate, verdict);
    if MayTakeUp(w.deposits[id], seen, machine, reevaluate) {
      PendingIsSound(w, id);
      PendingIsTakenUp(w, id, verdict);
    }
  }

  // ---------------------------------------------------------------- two-person decisions

  /** A pending proposal of this kind about this deposit, confirmed in time by someone else. */
  predicate Confirmed(w: World, pid: nat, kind: Kind, token: nat, inWindow: bool) {
    && inWindow && pid in w.proposals && w.proposals[pid].pending && w.proposals[pid].kind == kind
    && w.proposals[pid].proposer != token
  }

  /** The proposal is used up and the decision names both people. */
  ghost predicate DecidedNow(w: World, after: World, pid: nat, token: nat)
    requires pid in w.proposals
  {
    var p := w.proposals[pid];
    && after.proposals == w.proposals[pid := Proposal(p.kind, p.subject, p.proposer, false)]
    && after.decisions == w.decisions + {Decision(p.kind, p.subject, p.proposer, token)}
  }

  /** A held deposit of a payable user is admitted exactly by a confirmed proposal. */
  lemma ConfirmAdmitIsExact(w: World, pid: nat, seen: Status, token: nat, inWindow: bool)
    requires Inv(w)
    ensures var after := ConfirmAdmitNext(w, pid, seen, token, inWindow);
            if && Confirmed(w, pid, ManualAdmit, token, inWindow) && seen.ComplianceHold?
               && w.proposals[pid].subject in w.deposits
               && var d := w.deposits[w.proposals[pid].subject];
                  d.status.ComplianceHold? && Admissible(w, d, Clear)
            then && AdmittedNow(w, after.(proposals := w.proposals), w.proposals[pid].subject)
                 && DecidedNow(w, after, pid, token)
            else after == w
  {
    if Confirmed(w, pid, ManualAdmit, token, inWindow) {
      var id := w.proposals[pid].subject;
      if id in w.deposits && w.deposits[id].user.Some? && w.deposits[id].status.ComplianceHold? {
        ReleaseIsExact(w, id, ComplianceHold);
      }
    }
  }

  /** A held deposit is approved for refund exactly by a confirmed proposal, and of a known user only when clear. */
  lemma ConfirmRefundIsExact(w: World, pid: nat, seen: Status, token: nat, inWindow: bool, clear: bool)
    ensures var after := ConfirmRefundNext(w, pid, seen, token, inWindow, clear);
            if && Confirmed(w, pid, DepositRefund, token, inWindow) && seen.ComplianceHold?
               && w.proposals[pid].subject in w.deposits
               && var d := w.deposits[w.proposals[pid].subject];
                  d.status.ComplianceHold? && (d.user.None? || clear)
            then && DecidedNow(w, after, pid, token)
                 && var id := w.proposals[pid].subject;
                    after == w.(proposals := after.proposals, decisions := after.decisions,
                                deposits := w.deposits[id := w.deposits[id].(status := RefundApproved)])
            else after == w
  {
  }

  /** A proposal is taken once per number, about a deposit seen on hold. */
  lemma ProposeIsExact(w: World, pid: nat, kind: Kind, id: nat, seen: Status, token: nat)
    ensures Deposits.Next(w, Propose(pid, kind, id, seen, token))
         == if pid !in w.proposals && id in w.deposits && seen.ComplianceHold?
            then w.(proposals := w.proposals[pid := Proposal(kind, id, token, true)]) else w
  {
  }

  // ---------------------------------------------------------------- refunds and observations

  /** An approved refund is taken up exactly by a caller who saw it approved, while it still is. */
  lemma SendIsExact(w: World, id: nat, seen: Status)
    ensures Deposits.Next(w, SendRefund(id, seen))
         == if seen.RefundApproved? && id in w.deposits && w.deposits[id].status.RefundApproved?
            then w.(deposits := w.deposits[id := w.deposits[id].(status := RefundSending)]) else w
  {
  }

  function BalanceOf(accounts: Accounts, a: AccountId): int { if a in accounts then accounts[a].balance else 0 }

  /** The row and the money once a deposit has gone back out. */
  ghost predicate RefundedNow(w: World, after: World, id: nat)
    requires id in w.deposits
  {
    var d := w.deposits[id];
    && after.deposits == w.deposits[id := d.(status := Refunded, refundTx := true)]
    && after.releases == w.releases + [Release(id, EXTERNAL, d.amount)]
    && after.proposals == w.proposals && after.decisions == w.decisions
    && BalanceOf(after.accounts, EXTERNAL) == BalanceOf(w.accounts, EXTERNAL) + d.amount
    && BalanceOf(after.accounts, SUSPENSE) == BalanceOf(w.accounts, SUSPENSE) - d.amount
  }

  /** A refund being sent is settled exactly once, if the ledger can take the money out. */
  lemma SettleIsExact(w: World, id: nat, seen: Status)
    requires Inv(w)
    ensures var after := Deposits.Next(w, SettleRefund(id, seen));
            if && seen.RefundSending? && id in w.deposits && w.deposits[id].status.RefundSending?
               && Payable(w.accounts, EXTERNAL, w.deposits[id].amount)
            then RefundedNow(w, after, id) else after == w
  {
    if id in w.deposits {
      var amount := w.deposits[id].amount;
      assert RowKept(w.deposits[id]);
      TwoLegs(Entry(SUSPENSE, 0 - amount), Entry(EXTERNAL, amount), SUSPENSE);
      TwoLegs(Entry(SUSPENSE, 0 - amount), Entry(EXTERNAL, amount), EXTERNAL);
    }
  }

  /** Both accounts of an observation have room for it. */
  predicate RoomFor(accounts: Accounts, amount: int) {
    FitsI64(BalanceOf(accounts, EXTERNAL) - amount) && FitsI64(BalanceOf(accounts, SUSPENSE) + amount)
  }

  lemma ObservationPosts(accounts: Accounts, amount: I64)
    requires amount > 0 && EXTERNAL in accounts && accounts[EXTERNAL].owner.External?
    requires accounts[EXTERNAL].currency == Usdc && SuspenseOpen(accounts) && accounts[SUSPENSE].balance >= 0
    ensures Acceptable(accounts, ObserveEntries(amount)) <==> RoomFor(accounts, amount)
  {
    var out, into := Entry(EXTERNAL, 0 - amount), Entry(SUSPENSE, amount);
    var entries := ObserveEntries(amount);
    TwoLegs(out, into, SUSPENSE);
    TwoLegs(out, into, EXTERNAL);
    assert entries[0] == out && entries[1] == into && Touched(entries) == {EXTERNAL, SUSPENSE};
    assert entries[..1] == [out] && [out][..0] == [];
    forall c ensures CurrencySum(accounts, entries, c) == 0 {
      assert CurrencySum(accounts, [out], c) == if c == Usdc then 0 - amount else 0;
    }
  }

  lemma SuspenseIsNotNegative(w: World)
    requires Inv(w)
    ensures w.accounts[SUSPENSE].balance >= 0
  {
    forall id | id in w.deposits ensures w.deposits[id].amount > 0 { assert RowKept(w.deposits[id]); }
    SumNonNegative(WaitingFamily(w.deposits));
  }

  /** A valid new signature is stored exactly when both accounts have room, and moves its amount into suspense. */
  lemma ObserveIsExact(w: World, id: nat, user: Option<nat>, amount: I64, origin: Option<nat>)
    requires Inv(w) && Filed(w.accounts) && amount > 0 && origin.Some? && id !in w.deposits
    ensures var (after, reply) := ObserveNext(w, id, user, amount, origin);
            if RoomFor(w.accounts, amount)
            then && reply.Stored?
                 && after == w.(accounts := after.accounts, deposits := w.deposits[id :=
                      Deposit(user, amount, origin.value, ObservedFinalized, false, false)])
                 && BalanceOf(after.accounts, EXTERNAL) == BalanceOf(w.accounts, EXTERNAL) - amount
                 && BalanceOf(after.accounts, SUSPENSE) == BalanceOf(w.accounts, SUSPENSE) + amount
            else reply.NotPosted? && after == w
  {
    var ready := WithAccount(WithAccount(w.accounts, EXTERNAL), SUSPENSE);
    SuspenseIsNotNegative(w);
    ObservationPosts(ready, amount);
    TwoLegs(Entry(EXTERNAL, 0 - amount), Entry(SUSPENSE, amount), SUSPENSE);
    TwoLegs(Entry(EXTERNAL, 0 - amount), Entry(SUSPENSE, amount), EXTERNAL);
  }

  // ---------------------------------------------------------------- every run

  /** Two different people have decided to admit the deposit. */
  ghost predicate AdmittedByTwo(w: World, id: nat) {
    exists d :: d in w.decisions && d.kind.ManualAdmit? && d.subject == id && d.proposer != d.confirmer
  }

  predicate IsAdmitted(deposits: map<nat, Deposit>, id: nat) { id in deposits && deposits[id].status.Admitted? }

  /** The step at `k` admitted the deposit on a clear verdict. */
  ghost predicate ClearedAt(w: World, steps: seq<Step>, id: nat, k: int) {
    && 0 <= k < |steps| && steps[k].Admit? && steps[k].id == id && steps[k].verdict.Clear?
    && !IsAdmitted(Deposits.Run(w, steps[..k]).deposits, id) && IsAdmitted(Deposits.Run(w, steps[..k + 1]).deposits, id)
  }

  ghost predicate ClearedIn(w: World, steps: seq<Step>, id: nat) { exists k :: ClearedAt(w, steps, id, k) }

  lemma ClearedEarlier(w: World, steps: seq<Step>, id: nat)
    requires steps != [] && ClearedIn(w, steps[..|steps| - 1], id)
    ensures ClearedIn(w, steps, id)
  {
    var init := steps[..|steps| - 1];
    var k :| ClearedAt(w, init, id, k);
    assert init[..k] == steps[..k] && init[..k + 1] == steps[..k + 1];
    assert ClearedAt(w, steps, id, k);
  }

  lemma DecisionsStay(w: World, step: Step)
    ensures w.decisions <= Deposits.Next(w, step).decisions
  {
  }

  /** Only a clear admission or a confirmed manual one makes a deposit admitted. */
  lemma WhoAdmits(w: World, step: Step, id: nat)
    requires Inv(w) && !IsAdmitted(w.deposits, id) && IsAdmitted(Deposits.Next(w, step).deposits, id)
    ensures (step.Admit? && step.id == id && step.verdict.Clear?) || AdmittedByTwo(Deposits.Next(w, step), id)
  {
    match step
    case Admit(subject, seen, machine, reevaluate, verdict) =>
      if subject in w.deposits { AdmitIsExact(w, subject, seen, machine, reevaluate, verdict); }
    case ConfirmAdmit(pid, seen, token, inWindow) =>
      ConfirmAdmitIsExact(w, pid, seen, token, inWindow);
      var p := w.proposals[pid];
      assert Decision(p.kind, p.subject, p.proposer, token) in Deposits.Next(w, step).decisions;
    case ConfirmRefund(pid, seen, token, inWindow, clear) => ConfirmRefundIsExact(w, pid, seen, token, inWindow, clear);
    case _ =>
  }

  /** In every run an admitted deposit was admitted on a clear verdict, or by the decision of two different people. */
  lemma {:induction false} AdmittedOnSomeonesWord(w: World, steps: seq<Step>, id: nat)
    requires Initial(w) && IsAdmitted(Deposits.Run(w, steps).deposits, id)
    ensures ClearedIn(w, steps, id) || AdmittedByTwo(Deposits.Run(w, steps), id)
  {
    var init, last := steps[..|steps| - 1], steps[|steps| - 1];
    var before := Deposits.Run(w, init);
    EveryRunKeepsInv(w, init);
    DecisionsStay(before, last);
    if IsAdmitted(before.deposits, id) {
      AdmittedOnSomeonesWord(w, init, id);
      if ClearedIn(w, init, id) { ClearedEarlier(w, steps, id); }
    } else {
      WhoAdmits(before, last, id);
      assert steps[..|steps|] == steps;
      if last.Admit? && last.id == id && last.verdict.Clear? { assert ClearedAt(w, steps, id, |steps| - 1); }
    }
  }
}
