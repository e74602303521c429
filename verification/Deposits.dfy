/**
 The deposit machine: money observed on chain waits in suspense until it is
 admitted to its user or refunded. Every step may act on a stale read of the
 row; its compare-and-swap decides.
 */
module Deposits {
  import opened Money
  import opened Sums
  import opened Ledger

  datatype Status =
    | ObservedFinalized | AdmissionPending | ComplianceHold | Admitted
    | RefundApproved | RefundSending | Refunded | AdmittedLegacy
  {
    predicate Waiting() { !Admitted? && !Refunded? && !AdmittedLegacy? }
    predicate RefundChosen() { RefundApproved? || RefundSending? || Refunded? }
  }

  predicate LegalTransition(from: Status, to: Status) {
    match from
    case ObservedFinalized => to.AdmissionPending?
    case AdmissionPending => to.Admitted? || to.ComplianceHold?
    case ComplianceHold => to.AdmissionPending? || to.Admitted? || to.RefundApproved?
    case RefundApproved => to.RefundSending?
    case RefundSending => to.Refunded?
    case _ => false
  }

  /**
   A stored deposit. `origin` stands for addresses, mint, slot and rail
   fingerprint; `admitTx` and `refundTx` say whether a releasing transaction is recorded.
   */
  datatype Deposit =
    Deposit(user: Option<nat>, amount: I64, origin: nat, status: Status, admitTx: bool, refundTx: bool)
  {
    predicate Binds(user: Option<nat>, amount: I64, origin: nat) {
      this.user == user && this.amount == amount && this.origin == origin
    }
  }

  datatype Kind = ManualAdmit | DepositRefund

  datatype Proposal = Proposal(kind: Kind, subject: nat, proposer: nat, pending: bool)

  /** A two-person decision: who proposed and who confirmed. */
  datatype Decision = Decision(kind: Kind, subject: nat, proposer: nat, confirmer: nat)

  /** One movement of money out of suspense, kept as history. */
  datatype Release = Release(deposit: nat, to: AccountId, amount: int)

  datatype World = World(
    accounts: Accounts,
    deposits: map<nat, Deposit>,
    proposals: map<nat, Proposal>,
    decisions: set<Decision>,
    releases: seq<Release>)

  const SUSPENSE: AccountId := AccountId(SuspenseRef, Usdc)
  const EXTERNAL: AccountId := AccountId(ExternalRef, Usdc)

  // ---------------------------------------------------------------- the row store

  /** Moves a status along a legal edge if the row is really where the caller thinks. */
  function Cas(deposits: map<nat, Deposit>, id: nat, from: Status, to: Status): Option<map<nat, Deposit>> {
    if LegalTransition(from, to) && id in deposits && deposits[id].status == from
    then Some(deposits[id := deposits[id].(status := to)])
    else None
  }

  function ReleaseEntries(target: AccountId, amount: I64): seq<Entry>
    requires amount > 0
  {
    [Entry(SUSPENSE, 0 - amount), Entry(target, amount)]
  }

  /** The ledger takes `amount` from suspense to `target`, which is opened on first use. */
  ghost predicate Payable(accounts: Accounts, target: AccountId, amount: I64) {
    amount > 0 && Acceptable(WithAccount(accounts, target), ReleaseEntries(target, amount))
  }

  /** The ledger takes the release, nothing was released before, and the row is where the caller thinks. */
  ghost predicate CanRelease(w: World, id: nat, target: AccountId, from: Status, to: Status)
    requires id in w.deposits
  {
    var d := w.deposits[id];
    && Payable(w.accounts, target, d.amount)
    && !d.admitTx && !d.refundTx && Cas(w.deposits, id, from, to).Some?
  }

  /** The row and the history once a release is recorded. */
  ghost function Marked(w: World, id: nat, target: AccountId, to: Status): World
    requires id in w.deposits
  {
    var d := w.deposits[id];
    w.(deposits := w.deposits[id := d.(status := to, admitTx := to.Admitted?, refundTx := to.Refunded?)],
       releases := w.releases + [Release(id, target, d.amount)])
  }

  /** Suspense pays `target`, opened on first use, the release is recorded once, and the status moves; or nothing. */
  ghost function ReleaseTo(w: World, id: nat, target: AccountId, from: Status, to: Status): World
    requires id in w.deposits
  {
    if !CanRelease(w, id, target, from, to) then w
    else
      var entries := ReleaseEntries(target, w.deposits[id].amount);
      Marked(w.(accounts := Posted(WithAccount(w.accounts, target), entries)), id, target, to)
  }

  // ---------------------------------------------------------------- the steps

  datatype Verdict = Clear | Hold | Fail

  datatype Step =
    | Observe(id: nat, user: Option<nat>, amount: I64, origin: Option<nat>)
    | Admit(id: nat, seen: Status, machine: bool, reevaluate: bool, verdict: Verdict)
    | Propose(pid: nat, kind: Kind, id: nat, seen: Status, token: nat)
    | ConfirmAdmit(pid: nat, seen: Status, token: nat, inWindow: bool)
    | ConfirmRefund(pid: nat, seen: Status, token: nat, inWindow: bool, clear: bool)
    | SendRefund(id: nat, seen: Status)
    | SettleRefund(id: nat, seen: Status)
    | Other(op: Op)

  datatype Observation = Stored | Known | BindingConflict | Invalid | NotPosted

  function ObserveEntries(amount: I64): seq<Entry>
    requires amount > 0
  {
    [Entry(EXTERNAL, 0 - amount), Entry(SUSPENSE, amount)]
  }

  /** A known signature answers by its binding; a new one brings its amount into suspense. */
  ghost function ObserveNext(w: World, id: nat, user: Option<nat>, amount: I64, origin: Option<nat>)
    : (World, Observation)
  {
    if amount <= 0 || origin.None? then (w, Invalid)
    else if id in w.deposits then
      (w, if w.deposits[id].Binds(user, amount, origin.value) then Known else BindingConflict)
    else
      var ready := WithAccount(WithAccount(w.accounts, EXTERNAL), SUSPENSE);
      if !Acceptable(ready, ObserveEntries(amount)) then (w, NotPosted)
      else (w.(accounts := Posted(ready, ObserveEntries(amount)),
               deposits := w.deposits[id := Deposit(user, amount, origin.value, ObservedFinalized, false, false)]),
            Stored)
  }

  /** A pending row is held or admitted by the verdict, unless the transaction fails. */
  ghost function PendingNext(w: World, id: nat, verdict: Verdict): Option<World>
    requires id in w.deposits
  {
    var user := w.deposits[id].user;
    if user.None? || verdict.Hold? then
      var held := Cas(w.deposits, id, AdmissionPending, ComplianceHold);
      if held.None? then None else Some(w.(deposits := held.value))
    else if verdict.Fail? then None
    else
      var target := AccountId(UserRef(user.value), Usdc);
      if !CanRelease(w, id, target, AdmissionPending, Admitted) then None
      else Some(ReleaseTo(w, id, target, AdmissionPending, Admitted))
  }

  /** The whole admission transaction of a row read as `seen`. */
  ghost function AdmitNext(w: World, id: nat, seen: Status, machine: bool, reevaluate: bool, verdict: Verdict): World {
    if (reevaluate && !machine) || id !in w.deposits then w
    else if !seen.Waiting() || seen.RefundChosen() || (seen.ComplianceHold? && !reevaluate) then w
    else
      var pending := if seen.AdmissionPending? then Some(w.deposits) else Cas(w.deposits, id, seen, AdmissionPending);
      if pending.None? then w
      else
        var admitted := PendingNext(w.(deposits := pending.value), id, verdict);
        if admitted.None? then w else admitted.value
  }

  predicate Confirmable(w: World, pid: nat, kind: Kind, token: nat, inWindow: bool) {
    && pid in w.proposals && w.proposals[pid].kind == kind && w.proposals[pid].pending
    && w.proposals[pid].proposer != token && inWindow
  }

  ghost function Decided(w: World, pid: nat, token: nat): World
    requires pid in w.proposals
  {
    var p := w.proposals[pid];
    w.(proposals := w.proposals[pid := p.(pending := false)],
       decisions := w.decisions + {Decision(p.kind, p.subject, p.proposer, token)})
  }

  ghost function ConfirmAdmitNext(w: World, pid: nat, seen: Status, token: nat, inWindow: bool): World {
    if !Confirmable(w, pid, ManualAdmit, token, inWindow) then w
    else
      var id := w.proposals[pid].subject;
      if id !in w.deposits || !seen.ComplianceHold? || w.deposits[id].user.None? then w
      else
        var target := AccountId(UserRef(w.deposits[id].user.value), Usdc);
        if !CanRelease(w, id, target, ComplianceHold, Admitted) then w
        else Decided(ReleaseTo(w, id, target, ComplianceHold, Admitted), pid, token)
  }

  ghost function ConfirmRefundNext(w: World, pid: nat, seen: Status, token: nat, inWindow: bool, clear: bool): World {
    if !Confirmable(w, pid, DepositRefund, token, inWindow) then w
    else
      var id := w.proposals[pid].subject;
      var approved := Cas(w.deposits, id, ComplianceHold, RefundApproved);
      if !seen.ComplianceHold? || approved.None? || (w.deposits[id].user.Some? && !clear) then w
      else Decided(w.(deposits := approved.value), pid, token)
  }

  ghost function Next(w: World, step: Step): World {
    match step
    case Observe(id, user, amount, origin) => ObserveNext(w, id, user, amount, origin).0
    case Admit(id, seen, machine, reevaluate, verdict) => AdmitNext(w, id, seen, machine, reevaluate, verdict)
    case Propose(pid, kind, id, seen, token) =>
      if pid in w.proposals || id !in w.deposits || !seen.ComplianceHold? then w
      else w.(proposals := w.proposals[pid := Proposal(kind, id, token, true)])
    case ConfirmAdmit(pid, seen, token, inWindow) => ConfirmAdmitNext(w, pid, seen, token, inWindow)
    case ConfirmRefund(pid, seen, token, inWindow, clear) => ConfirmRefundNext(w, pid, seen, token, inWindow, clear)
    case SendRefund(id, seen) =>
      var sending := Cas(w.deposits, id, RefundApproved, RefundSending);
      if !seen.RefundApproved? || sending.None? then w else w.(deposits := sending.value)
    case SettleRefund(id, seen) =>
      if id !in w.deposits || !seen.RefundSending? then w
      else ReleaseTo(w, id, EXTERNAL, RefundSending, Refunded)
    case Other(op) =>
      if op.Apply? && SUSPENSE in Touched(op.entries) then w else w.(accounts := Ledger.Next(w.accounts, op))
  }

  // ---------------------------------------------------------------- the invariant

  /** Amounts still waiting; released deposits count zero. */
  ghost function WaitingFamily(deposits: map<nat, Deposit>): map<nat, int> {
    map id | id in deposits :: if deposits[id].status.Waiting() then deposits[id].amount else 0
  }

  predicate SuspenseOpen(accounts: Accounts) {
    SUSPENSE in accounts && accounts[SUSPENSE].currency == Usdc && !accounts[SUSPENSE].owner.External?
  }

  ghost predicate Matched(w: World) {
    SuspenseOpen(w.accounts) && w.accounts[SUSPENSE].balance == Sum(WaitingFamily(w.deposits))
  }

  predicate RowKept(d: Deposit) {
    && d.amount > 0
    && (d.admitTx <==> d.status.Admitted?) && (d.refundTx <==> d.status.Refunded?)
  }

  ghost predicate RowsKept(deposits: map<nat, Deposit>) {
    forall id :: id in deposits ==> RowKept(deposits[id])
  }

  function ReleaseCount(releases: seq<Release>, id: nat): nat {
    if releases == [] then 0
    else ReleaseCount(releases[..|releases| - 1], id) + (if releases[|releases| - 1].deposit == id then 1 else 0)
  }

  /** Where a released deposit's money must have gone. */
  function Destination(d: Deposit): Option<AccountId> {
    if d.status.Refunded? then Some(EXTERNAL)
    else if d.status.Admitted? && d.user.Some? then Some(AccountId(UserRef(d.user.value), Usdc))
    else None
  }

  ghost predicate ReleasesKept(w: World) {
    && (forall id :: Counted(w.deposits, w.releases, id))
    && (forall i :: 0 <= i < |w.releases| ==> ReleaseRight(w.deposits, w.releases[i]))
  }

  predicate Counted(deposits: map<nat, Deposit>, releases: seq<Release>, id: nat) {
    ReleaseCount(releases, id) == if id in deposits && Destination(deposits[id]).Some? then 1 else 0
  }

  predicate ReleaseRight(deposits: map<nat, Deposit>, r: Release) {
    r.deposit in deposits && Destination(deposits[r.deposit]) == Some(r.to) && r.amount == deposits[r.deposit].amount
  }

  /** An admitted deposit has a user; a refund has been decided by two different people. */
  ghost predicate DecisionsKept(w: World) {
    && (forall d :: d in w.decisions ==> d.proposer != d.confirmer)
    && (forall id :: id in w.deposits && w.deposits[id].status.RefundChosen() ==>
          exists d :: d in w.decisions && d.kind.DepositRefund? && d.subject == id)
  }

  ghost predicate UsersKept(deposits: map<nat, Deposit>) {
    forall id :: id in deposits && deposits[id].status.Admitted? ==> deposits[id].user.Some?
  }

  ghost predicate Inv(w: World) {
    Matched(w) && RowsKept(w.deposits) && ReleasesKept(w) && DecisionsKept(w) && UsersKept(w.deposits)
  }

  // ---------------------------------------------------------------- moves that keep the money waiting

  lemma WaitingAfter(deposits: map<nat, Deposit>, id: nat, d: Deposit)
    ensures Sum(WaitingFamily(deposits[id := d]))
         == Sum(WaitingFamily(deposits))
          + (if d.status.Waiting() then d.amount else 0)
          - (if id in deposits && deposits[id].status.Waiting() then deposits[id].amount else 0)
  {
    var before := WaitingFamily(deposits);
    var value := if d.status.Waiting() then d.amount else 0;
    SumUpdate(before, id, value);
    assert WaitingFamily(deposits[id := d]) == before[id := value];
  }

  /** A change of status between waiting states moves no money. */
  lemma StillWaiting(w: World, w': World, id: nat, to: Status)
    requires Inv(w) && id in w.deposits && w.deposits[id].status.Waiting() && to.Waiting()
    requires w' == w.(deposits := w.deposits[id := w.deposits[id].(status := to)],
                      proposals := w'.proposals, decisions := w'.decisions)
    requires DecisionsKept(w')
    ensures Inv(w')
  {
    WaitingAfter(w.deposits, id, w.deposits[id].(status := to));
    forall k ensures Counted(w'.deposits, w.releases, k) { assert Counted(w.deposits, w.releases, k); }
    forall i | 0 <= i < |w.releases| ensures ReleaseRight(w'.deposits, w.releases[i]) {
      assert ReleaseRight(w.deposits, w.releases[i]);
    }
  }

  lemma CountAppended(releases: seq<Release>, r: Release, id: nat)
    ensures ReleaseCount(releases + [r], id) == ReleaseCount(releases, id) + (if r.deposit == id then 1 else 0)
  {
    assert (releases + [r])[..|releases|] == releases;
  }

  lemma TwoLegs(first: Entry, second: Entry, a: AccountId)
    ensures Delta([first, second], a)
         == (if first.account == a then first.amount else 0) + (if second.account == a then second.amount else 0)
  {
    assert [first, second] == [first] + [second];
    DeltaAppend([first], [second], a);
    SingleDelta(first, a);
    SingleDelta(second, a);
  }

  // ---------------------------------------------------------------- moves that release it

  ghost predicate Releasing(d: Deposit, target: AccountId, from: Status, to: Status) {
    || (to.Admitted? && !from.RefundChosen() && d.user.Some? && target == AccountId(UserRef(d.user.value), Usdc))
    || (to.Refunded? && from.RefundSending? && target == EXTERNAL)
  }

  lemma ReleasedRows(w: World, id: nat, d: Deposit, target: AccountId)
    requires ReleasesKept(w) && id in w.deposits && w.deposits[id].status.Waiting()
    requires d == w.deposits[id].(status := d.status, admitTx := d.admitTx, refundTx := d.refundTx)
    requires Destination(d) == Some(target)
    ensures ReleasesKept(w.(deposits := w.deposits[id := d], releases := w.releases + [Release(id, target, d.amount)]))
  {
    var deposits, releases := w.deposits[id := d], w.releases + [Release(id, target, d.amount)];
    forall k ensures Counted(deposits, releases, k) {
      assert Counted(w.deposits, w.releases, k);
      CountAppended(w.releases, Release(id, target, d.amount), k);
    }
    forall i | 0 <= i < |releases| ensures ReleaseRight(w.deposits[id := d], releases[i]) {
      if i < |w.releases| { assert ReleaseRight(w.deposits, w.releases[i]); }
    }
  }

  lemma ReleasedMoney(w: World, id: nat, d: Deposit, target: AccountId)
    requires Matched(w) && id in w.deposits && w.deposits[id].status.Waiting() && !d.status.Waiting()
    requires w.deposits[id].amount > 0 && target != SUSPENSE
    requires Acceptable(WithAccount(w.accounts, target), ReleaseEntries(target, w.deposits[id].amount))
    ensures var entries := ReleaseEntries(target, w.deposits[id].amount);
            Matched(w.(accounts := Posted(WithAccount(w.accounts, target), entries), deposits := w.deposits[id := d]))
  {
    var amount := w.deposits[id].amount;
    TwoLegs(Entry(SUSPENSE, 0 - amount), Entry(target, amount), SUSPENSE);
    WaitingAfter(w.deposits, id, d);
  }

  lemma ReleaseKeepsInv(w: World, id: nat, target: AccountId, from: Status, to: Status)
    requires Inv(w) && id in w.deposits && Releasing(w.deposits[id], target, from, to)
    ensures Inv(ReleaseTo(w, id, target, from, to))
  {
    var d := w.deposits[id].(status := to, admitTx := to.Admitted?, refundTx := to.Refunded?);
    if CanRelease(w, id, target, from, to) {
      ReleasedMoney(w, id, d, target);
      ReleasedRows(w, id, d, target);
      ReleasedDecisions(w, id, d);
    }
  }

  lemma ReleasedDecisions(w: World, id: nat, d: Deposit)
    requires DecisionsKept(w) && RowsKept(w.deposits) && UsersKept(w.deposits) && id in w.deposits && RowKept(d)
    requires d.status.RefundChosen() ==> w.deposits[id].status.RefundChosen()
    requires d.status.Admitted? ==> d.user.Some?
    ensures DecisionsKept(w.(deposits := w.deposits[id := d]))
    ensures RowsKept(w.deposits[id := d]) && UsersKept(w.deposits[id := d])
  {
  }

  lemma ObserveKeepsInv(w: World, id: nat, user: Option<nat>, amount: I64, origin: Option<nat>)
    requires Inv(w)
    ensures Inv(ObserveNext(w, id, user, amount, origin).0)
  {
    var (w', reply) := ObserveNext(w, id, user, amount, origin);
    if reply.Stored? {
      TwoLegs(Entry(EXTERNAL, 0 - amount), Entry(SUSPENSE, amount), SUSPENSE);
      WaitingAfter(w.deposits, id, Deposit(user, amount, origin.value, ObservedFinalized, false, false));
      forall k ensures Counted(w'.deposits, w.releases, k) { assert Counted(w.deposits, w.releases, k); }
      forall i | 0 <= i < |w.releases| ensures ReleaseRight(w'.deposits, w.releases[i]) {
        assert ReleaseRight(w.deposits, w.releases[i]);
      }
    }
  }

  lemma PendingKeepsInv(w: World, id: nat, verdict: Verdict)
    requires Inv(w) && id in w.deposits && PendingNext(w, id, verdict).Some?
    ensures Inv(PendingNext(w, id, verdict).value)
  {
    var user := w.deposits[id].user;
    if user.None? || verdict.Hold? {
      StillWaiting(w, PendingNext(w, id, verdict).value, id, ComplianceHold);
    } else {
      ReleaseKeepsInv(w, id, AccountId(UserRef(user.value), Usdc), AdmissionPending, Admitted);
    }
  }

  lemma AdmitKeepsInv(w: World, id: nat, seen: Status, machine: bool, reevaluate: bool, verdict: Verdict)
    requires Inv(w)
    ensures Inv(AdmitNext(w, id, seen, machine, reevaluate, verdict))
  {
    if AdmitNext(w, id, seen, machine, reevaluate, verdict) != w {
      var row := w.deposits[id].(status := AdmissionPending);
      var pending := if seen.AdmissionPending? then w else w.(deposits := w.deposits[id := row]);
      if !seen.AdmissionPending? { StillWaiting(w, pending, id, AdmissionPending); }
      PendingKeepsInv(pending, id, verdict);
    }
  }

  lemma DecidedKeepsInv(w: World, pid: nat, token: nat)
    requires Inv(w) && pid in w.proposals && w.proposals[pid].proposer != token
    ensures Inv(Decided(w, pid, token))
  {
    forall id | id in w.deposits && w.deposits[id].status.RefundChosen()
      ensures exists d :: d in Decided(w, pid, token).decisions && d.kind.DepositRefund? && d.subject == id
    {
      var d :| d in w.decisions && d.kind.DepositRefund? && d.subject == id;
      assert d in Decided(w, pid, token).decisions;
    }
  }

  lemma ConfirmAdmitKeepsInv(w: World, pid: nat, seen: Status, token: nat, inWindow: bool)
    requires Inv(w)
    ensures Inv(ConfirmAdmitNext(w, pid, seen, token, inWindow))
  {
    if ConfirmAdmitNext(w, pid, seen, token, inWindow) != w {
      var id := w.proposals[pid].subject;
      var target := AccountId(UserRef(w.deposits[id].user.value), Usdc);
      ReleaseKeepsInv(w, id, target, ComplianceHold, Admitted);
      DecidedKeepsInv(ReleaseTo(w, id, target, ComplianceHold, Admitted), pid, token);
    }
  }

  lemma ConfirmRefundKeepsInv(w: World, pid: nat, seen: Status, token: nat, inWindow: bool, clear: bool)
    requires Inv(w)
    ensures Inv(ConfirmRefundNext(w, pid, seen, token, inWindow, clear))
  {
    var w' := ConfirmRefundNext(w, pid, seen, token, inWindow, clear);
    if w' != w {
      var p := w.proposals[pid];
      forall id | id in w'.deposits && w'.deposits[id].status.RefundChosen()
        ensures exists d :: d in w'.decisions && d.kind.DepositRefund? && d.subject == id
      {
        if id == p.subject {
          assert Decision(p.kind, p.subject, p.proposer, token) in w'.decisions;
        } else {
          var d :| d in w.decisions && d.kind.DepositRefund? && d.subject == id;
          assert d in w'.decisions;
        }
      }
      StillWaiting(w, w', p.subject, RefundApproved);
    }
  }

  lemma OtherKeepsInv(w: World, op: Op)
    requires Inv(w)
    ensures Inv(Next(w, Other(op)))
  {
    if op.Apply? && SUSPENSE !in Touched(op.entries) { UntouchedDelta(op.entries, SUSPENSE); }
  }

  lemma StepKeepsInv(w: World, step: Step)
    requires Inv(w)
    ensures Inv(Next(w, step))
  {
    match step
    case Observe(id, user, amount, origin) => ObserveKeepsInv(w, id, user, amount, origin);
    case Admit(id, seen, machine, reevaluate, verdict) => AdmitKeepsInv(w, id, seen, machine, reevaluate, verdict);
    case Propose(_, _, _, _, _) =>
    case ConfirmAdmit(pid, seen, token, inWindow) => ConfirmAdmitKeepsInv(w, pid, seen, token, inWindow);
    case ConfirmRefund(pid, seen, token, inWindow, clear) =>
      ConfirmRefundKeepsInv(w, pid, seen, token, inWindow, clear);
    case SendRefund(id, seen) =>
      if Next(w, step) != w { StillWaiting(w, Next(w, step), id, RefundSending); }
    case SettleRefund(id, seen) =>
      if id in w.deposits { ReleaseKeepsInv(w, id, EXTERNAL, RefundSending, Refunded); }
    case Other(op) => OtherKeepsInv(w, op);
  }

  // ---------------------------------------------------------------- every run

  ghost predicate Initial(w: World) {
    && SuspenseOpen(w.accounts) && w.accounts[SUSPENSE].balance == 0
    && w.deposits == map[] && w.proposals == map[] && w.decisions == {} && w.releases == []
  }

  ghost function Run(w: World, steps: seq<Step>): World {
    if steps == [] then w else Next(Run(w, steps[..|steps| - 1]), steps[|steps| - 1])
  }

  lemma {:induction false} EveryRunKeepsInv(w: World, steps: seq<Step>)
    requires Initial(w)
    ensures Inv(Run(w, steps))
  {
    if steps == [] {
      SumZero(WaitingFamily(w.deposits));
    } else {
      EveryRunKeepsInv(w, steps[..|steps| - 1]);
      StepKeepsInv(Run(w, steps[..|steps| - 1]), steps[|steps| - 1]);
    }
  }

  /** However stale the reads, suspense always equals what is neither admitted nor refunded. */
  lemma SuspenseIsWhatWaits(w: World, steps: seq<Step>)
    requires Initial(w)
    ensures SuspenseOpen(Run(w, steps).accounts)
    ensures Run(w, steps).accounts[SUSPENSE].balance == Sum(WaitingFamily(Run(w, steps).deposits))
  {
    EveryRunKeepsInv(w, steps);
  }

  /** Each deposit leaves suspense at most once, to its user or back out, for its exact amount. */
  lemma ReleasedExactlyOnce(w: World, steps: seq<Step>, id: nat)
    requires Initial(w) && id in Run(w, steps).deposits
    ensures var end := Run(w, steps);
            var d := end.deposits[id];
            && ReleaseCount(end.releases, id) == (if d.status.Waiting() then 0 else 1)
            && forall i :: 0 <= i < |end.releases| && end.releases[i].deposit == id ==>
                 && end.releases[i].amount == d.amount
                 && (if d.status.Refunded? then end.releases[i].to == EXTERNAL
                     else d.user.Some? && end.releases[i].to == AccountId(UserRef(d.user.value), Usdc))
  {
    EveryRunKeepsInv(w, steps);
    NeverLegacy(w, steps, id);
    var end := Run(w, steps);
    assert Counted(end.deposits, end.releases, id);
    forall i | 0 <= i < |end.releases| && end.releases[i].deposit == id
      ensures Destination(end.deposits[id]) == Some(end.releases[i].to)
      ensures end.releases[i].amount == end.deposits[id].amount
    {
      assert ReleaseRight(end.deposits, end.releases[i]);
    }
  }

  /** One step along the table, or through a pending admission. */
  predicate Reaches(from: Status, to: Status) {
    || from == to || LegalTransition(from, to)
    || (LegalTransition(from, AdmissionPending) && LegalTransition(AdmissionPending, to))
  }

  /** The row is still there, in a state it may reach, for the same user, amount and origin. */
  predicate LegallyMoved(before: map<nat, Deposit>, after: map<nat, Deposit>, id: nat)
    requires id in before
  {
    && id in after && Reaches(before[id].status, after[id].status)
    && after[id].Binds(before[id].user, before[id].amount, before[id].origin)
  }

  lemma ReleaseIsLegal(w: World, subject: nat, target: AccountId, from: Status, to: Status, id: nat)
    requires id in w.deposits && subject in w.deposits
    ensures LegallyMoved(w.deposits, ReleaseTo(w, subject, target, from, to).deposits, id)
  {
  }

  lemma PendingIsLegal(w: World, subject: nat, verdict: Verdict, id: nat)
    requires id in w.deposits && subject in w.deposits && PendingNext(w, subject, verdict).Some?
    ensures var after := PendingNext(w, subject, verdict).value.deposits;
            && LegallyMoved(w.deposits, after, id)
            && (if id == subject then w.deposits[id].status.AdmissionPending? else after[id] == w.deposits[id])
  {
  }

  lemma AdmitIsLegal(w: World, subject: nat, seen: Status, machine: bool, reevaluate: bool, verdict: Verdict, id: nat)
    requires id in w.deposits
    ensures LegallyMoved(w.deposits, AdmitNext(w, subject, seen, machine, reevaluate, verdict).deposits, id)
  {
    var pending :=
      if seen.AdmissionPending? then Some(w.deposits) else Cas(w.deposits, subject, seen, AdmissionPending);
    if subject in w.deposits && pending.Some? {
      var between := w.(deposits := pending.value);
      if PendingNext(between, subject, verdict).Some? { PendingIsLegal(between, subject, verdict, id); }
    }
  }

  /** Every step moves a row along the table, at most through a pending admission, and never rebinds it. */
  lemma StepIsLegal(w: World, step: Step, id: nat)
    requires id in w.deposits
    ensures LegallyMoved(w.deposits, Next(w, step).deposits, id)
  {
    match step
    case Admit(subject, seen, machine, reevaluate, verdict) =>
      AdmitIsLegal(w, subject, seen, machine, reevaluate, verdict, id);
    case SettleRefund(subject, _) =>
      if subject in w.deposits { ReleaseIsLegal(w, subject, EXTERNAL, RefundSending, Refunded, id); }
    case _ =>
  }

  /**
   An observation that was stored answers every repeat after any run: the same
   binding is known, another is a conflict, and neither changes anything.
   */
  lemma ObservationReplays(w: World, id: nat, user: Option<nat>, amount: I64, origin: Option<nat>, steps: seq<Step>,
                           user': Option<nat>, amount': I64, origin': Option<nat>)
    requires ObserveNext(w, id, user, amount, origin).1.Stored?
    ensures var end := Run(ObserveNext(w, id, user, amount, origin).0, steps);
            ObserveNext(end, id, user', amount', origin')
            == (end, if amount' <= 0 || origin'.None? then Invalid
                     else if user' == user && amount' == amount && origin' == origin then Known
                     else BindingConflict)
  {
    BindingIsFinal(ObserveNext(w, id, user, amount, origin).0, steps, id);
  }

  lemma {:induction false} BindingIsFinal(w: World, steps: seq<Step>, id: nat)
    requires id in w.deposits
    ensures id in Run(w, steps).deposits
    ensures var d := w.deposits[id]; Run(w, steps).deposits[id].Binds(d.user, d.amount, d.origin)
    decreases |steps|
  {
    if steps != [] {
      BindingIsFinal(w, steps[..|steps| - 1], id);
      StepIsLegal(Run(w, steps[..|steps| - 1]), steps[|steps| - 1], id);
    }
  }

  /** Rows created by the machine start observed, and no edge leads to the legacy state. */
  lemma {:induction false} NeverLegacy(w: World, steps: seq<Step>, id: nat)
    requires Initial(w) && id in Run(w, steps).deposits
    ensures !Run(w, steps).deposits[id].status.AdmittedLegacy?
  {
    if steps != [] {
      var before := Run(w, steps[..|steps| - 1]);
      if id in before.deposits {
        NeverLegacy(w, steps[..|steps| - 1], id);
        StepIsLegal(before, steps[|steps| - 1], id);
      } else {
        NewRowsAreObserved(before, steps[|steps| - 1], id);
      }
    }
  }

  lemma NewRowsAreObserved(w: World, step: Step, id: nat)
    requires id !in w.deposits && id in Next(w, step).deposits
    ensures Next(w, step).deposits[id].status.ObservedFinalized?
  {
  }

  /** An admission or a refund is final: no later step, however stale, undoes or repeats it. */
  lemma {:induction false} ReleaseIsFinal(w: World, steps: seq<Step>, id: nat)
    requires id in w.deposits && !w.deposits[id].status.Waiting()
    ensures id in Run(w, steps).deposits && Run(w, steps).deposits[id].status == w.deposits[id].status
    decreases |steps|
  {
    if steps != [] {
      ReleaseIsFinal(w, steps[..|steps| - 1], id);
      StepIsLegal(Run(w, steps[..|steps| - 1]), steps[|steps| - 1], id);
    }
  }

  /** Suspense always covers a waiting deposit, so only the receiving account can stop a release. */
  lemma SuspenseCovers(w: World, id: nat, target: AccountId)
    requires Inv(w) && id in w.deposits && w.deposits[id].status.Waiting() && target != SUSPENSE
    ensures w.deposits[id].amount > 0
    ensures var ready := WithAccount(w.accounts, target);
            Acceptable(ready, ReleaseEntries(target, w.deposits[id].amount))
            <==> ready[target].currency == Usdc && CanPost(ready[target], w.deposits[id].amount)
  {
    var amount := w.deposits[id].amount;
    assert RowKept(w.deposits[id]);
    forall k | k in w.deposits ensures w.deposits[k].amount > 0 { assert RowKept(w.deposits[k]); }
    SumDominates(WaitingFamily(w.deposits), id);
    ReleasePosts(WithAccount(w.accounts, target), target, amount);
  }

  lemma ReleasePosts(accounts: Accounts, target: AccountId, amount: I64)
    requires amount > 0 && target != SUSPENSE && SuspenseOpen(accounts) && accounts[SUSPENSE].balance >= amount
    ensures Acceptable(accounts, ReleaseEntries(target, amount))
            <==> target in accounts && accounts[target].currency == Usdc && CanPost(accounts[target], amount)
  {
    var out, into := Entry(SUSPENSE, 0 - amount), Entry(target, amount);
    var entries := ReleaseEntries(target, amount);
    TwoLegs(out, into, SUSPENSE);
    TwoLegs(out, into, target);
    assert entries[0] == out && entries[1] == into;
    assert Touched(entries) == {SUSPENSE, target};
    if target in accounts {
      assert entries[..1] == [out] && [out][..0] == [];
      forall c ensures CurrencySum(accounts, entries, c)
                    == (if c == Usdc then 0 - amount else 0) + (if accounts[target].currency == c then amount else 0)
      {
        assert CurrencySum(accounts, [out], c) == if c == Usdc then 0 - amount else 0;
      }
      assert Balanced(accounts, entries) ==> CurrencySum(accounts, entries, Usdc) == 0;
    }
  }

  /** A refund is never a single person's choice. */
  lemma RefundsAreDualControlled(w: World, steps: seq<Step>, id: nat)
    requires Initial(w) && id in Run(w, steps).deposits && Run(w, steps).deposits[id].status.RefundChosen()
    ensures exists d ::
      d in Run(w, steps).decisions && d.kind.DepositRefund? && d.subject == id && d.proposer != d.confirmer
  {
    EveryRunKeepsInv(w, steps);
    var d :| d in Run(w, steps).decisions && d.kind.DepositRefund? && d.subject == id;
    assert d.proposer != d.confirmer;
  }
}
