/** The deposit rows as the machine's transactions change them in place; a refused transaction rolls back. */
module DepositStore {
  import opened Money
  import opened Ledger
  import opened Deposits

  lemma MarkedIsReleased(w: World, marks: bool, id: nat, target: AccountId, from: Status, to: Status)
    requires id in w.deposits && Payable(w.accounts, target, w.deposits[id].amount)
    requires marks <==> !w.deposits[id].admitTx && !w.deposits[id].refundTx && Cas(w.deposits, id, from, to).Some?
    ensures marks <==> CanRelease(w, id, target, from, to)
    ensures var paid := Posted(WithAccount(w.accounts, target), ReleaseEntries(target, w.deposits[id].amount));
            ReleaseTo(w, id, target, from, to) == if marks then Marked(w.(accounts := paid), id, target, to) else w
  {
  }

  class Store {
    const ledger: Balances
    var deposits: map<nat, Deposit>
    var proposals: map<nat, Proposal>
    var decisions: set<Decision>
    var releases: seq<Release>

    ghost function View(): World
      reads this, ledger
    {
      World(ledger.accounts, deposits, proposals, decisions, releases)
    }

    constructor (ledger: Balances)
      ensures this.ledger == ledger
      ensures View() == World(ledger.accounts, map[], map[], {}, [])
    {
      this.ledger := ledger;
      deposits, proposals, decisions, releases := map[], map[], {}, [];
    }

    method CasStatus(id: nat, from: Status, to: Status) returns (moved: bool)
      modifies this`deposits
      ensures moved <==> Cas(old(deposits), id, from, to).Some?
      ensures deposits == if moved then Cas(old(deposits), id, from, to).value else old(deposits)
    {
      if !LegalTransition(from, to) || id !in deposits || deposits[id].status != from { return false; }
      deposits := deposits[id := deposits[id].(status := to)];
      return true;
    }

    method ObserveFinalized(id: nat, user: Option<nat>, amount: I64, origin: Option<nat>) returns (reply: Observation)
      requires Filed(ledger.accounts)
      modifies this, ledger
      ensures Filed(ledger.accounts)
      ensures (View(), reply) == ObserveNext(old(View()), id, user, amount, origin)
    {
      if amount <= 0 || origin.None? { return Invalid; }
      if id in deposits {
        return if deposits[id].Binds(user, amount, origin.value) then Known else BindingConflict;
      }
      var before := ledger.accounts;
      ledger.FindAccount(EXTERNAL);
      ledger.FindAccount(SUSPENSE);
      var posted := PostOrUndo(before, ObserveEntries(amount));
      if !posted { return NotPosted; }
      deposits := deposits[id := Deposit(user, amount, origin.value, ObservedFinalized, false, false)];
      return Stored;
    }

    /** Applies the entries; a refusal also takes back the accounts opened since `before`. */
    method PostOrUndo(before: Accounts, entries: seq<Entry>) returns (ok: bool)
      requires Filed(before) && Filed(ledger.accounts)
      modifies ledger
      ensures Filed(ledger.accounts)
      ensures ok <==> Acceptable(old(ledger.accounts), entries)
      ensures ledger.accounts == if ok then Posted(old(ledger.accounts), entries) else before
    {
      ghost var ready := ledger.accounts;
      var applied := ledger.ApplyTransaction(entries);
      if applied.Err? {
        ledger.accounts := before;
        return false;
      }
      PostingStaysFiled(ready, entries);
      return true;
    }

    method PostRelease(ghost w: World, target: AccountId, amount: I64) returns (ok: bool)
      requires w == View() && Filed(w.accounts)
      modifies ledger
      ensures Filed(ledger.accounts)
      ensures ok <==> Payable(w.accounts, target, amount)
      ensures ok ==> ledger.accounts == Posted(WithAccount(w.accounts, target), ReleaseEntries(target, amount))
      ensures !ok ==> ledger.accounts == w.accounts
    {
      if amount <= 0 { return false; }
      var before := ledger.accounts;
      ledger.FindAccount(target);
      ok := PostOrUndo(before, ReleaseEntries(target, amount));
    }

    /** Ledger first, then the releasing transaction's mark, then the swap; any refusal undoes them. */
    method ReleaseFunds(id: nat, target: AccountId, from: Status, to: Status) returns (ok: bool)
      requires id in deposits && Filed(ledger.accounts)
      modifies this, ledger
      ensures Filed(ledger.accounts)
      ensures ok <==> CanRelease(old(View()), id, target, from, to)
      ensures View() == ReleaseTo(old(View()), id, target, from, to)
    {
      ghost var w := View();
      var before := ledger.accounts;
      ok := PostRelease(w, target, deposits[id].amount);
      if ok {
        ok := MarkOrUndo(before, id, target, from, to);
        MarkedIsReleased(w, ok, id, target, from, to);
      }
    }

    method MarkOrUndo(before: Accounts, id: nat, target: AccountId, from: Status, to: Status) returns (ok: bool)
      requires id in deposits
      modifies this, ledger
      ensures ok <==>
        !old(deposits)[id].admitTx && !old(deposits)[id].refundTx && Cas(old(deposits), id, from, to).Some?
      ensures View() == if ok then Marked(old(View()), id, target, to) else old(View()).(accounts := before)
    {
      ok := MarkReleased(id, target, from, to);
      if !ok { ledger.accounts := before; }
    }

    method MarkReleased(id: nat, target: AccountId, from: Status, to: Status) returns (ok: bool)
      requires id in deposits
      modifies this
      ensures ok <==>
        !old(deposits)[id].admitTx && !old(deposits)[id].refundTx && Cas(old(deposits), id, from, to).Some?
      ensures !ok ==> View() == old(View())
      ensures ok ==> View() == Marked(old(View()), id, target, to)
    {
      var d := deposits[id];
      if d.admitTx || d.refundTx { return false; }
      ok := CasStatus(id, from, to);
      if ok {
        deposits := deposits[id := deposits[id].(admitTx := to.Admitted?, refundTx := to.Refunded?)];
        releases := releases + [Release(id, target, d.amount)];
      }
    }

    method AdmitObserved(id: nat, seen: Status, machine: bool, reevaluate: bool, verdict: Verdict)
      requires Filed(ledger.accounts)
      modifies this, ledger
      ensures Filed(ledger.accounts)
      ensures View() == AdmitNext(old(View()), id, seen, machine, reevaluate, verdict)
    {
      if (reevaluate && !machine) || id !in deposits { return; }
      if !seen.Waiting() || seen.RefundChosen() || (seen.ComplianceHold? && !reevaluate) { return; }
      var before := deposits;
      if !seen.AdmissionPending? {
        var moved := CasStatus(id, seen, AdmissionPending);
        if !moved { return; }
      }
      var done := AdmitPending(id, verdict);
      if !done { deposits := before; }
    }

    /** Holds or admits a row that this transaction has made pending. */
    method AdmitPending(id: nat, verdict: Verdict) returns (done: bool)
      requires id in deposits && Filed(ledger.accounts)
      modifies this, ledger
      ensures Filed(ledger.accounts)
      ensures done <==> PendingNext(old(View()), id, verdict).Some?
      ensures View() == if done then PendingNext(old(View()), id, verdict).value else old(View())
    {
      var user := deposits[id].user;
      if user.None? || verdict.Hold? {
        done := CasStatus(id, AdmissionPending, ComplianceHold);
      } else if verdict.Fail? {
        done := false;
      } else {
        done := ReleaseFunds(id, AccountId(UserRef(user.value), Usdc), AdmissionPending, Admitted);
      }
    }

    method RecordDecision(pid: nat, token: nat)
      requires pid in proposals
      modifies this
      ensures View() == Decided(old(View()), pid, token)
    {
      var p := proposals[pid];
      proposals := proposals[pid := p.(pending := false)];
      decisions := decisions + {Decision(p.kind, p.subject, p.proposer, token)};
    }

    method ConfirmManualAdmission(pid: nat, seen: Status, token: nat, inWindow: bool)
      requires Filed(ledger.accounts)
      modifies this, ledger
      ensures Filed(ledger.accounts)
      ensures View() == ConfirmAdmitNext(old(View()), pid, seen, token, inWindow)
    {
      if pid !in proposals || proposals[pid].kind != ManualAdmit || !proposals[pid].pending
        || proposals[pid].proposer == token || !inWindow { return; }
      var id := proposals[pid].subject;
      if id !in deposits || !seen.ComplianceHold? || deposits[id].user.None? { return; }
      var admitted := ReleaseFunds(id, AccountId(UserRef(deposits[id].user.value), Usdc), ComplianceHold, Admitted);
      if admitted { RecordDecision(pid, token); }
    }

    method ConfirmDepositRefund(pid: nat, seen: Status, token: nat, inWindow: bool, clear: bool)
      modifies this
      ensures View() == ConfirmRefundNext(old(View()), pid, seen, token, inWindow, clear)
    {
      if pid !in proposals || proposals[pid].kind != DepositRefund || !proposals[pid].pending
        || proposals[pid].proposer == token || !inWindow { return; }
      var id := proposals[pid].subject;
      if !seen.ComplianceHold? || id !in deposits { return; }
      if deposits[id].user.Some? && !clear { return; }
      var approved := CasStatus(id, ComplianceHold, RefundApproved);
      if approved { RecordDecision(pid, token); }
    }

    method ClaimRefund(id: nat, seen: Status) returns (claimed: bool)
      modifies this
      ensures View() == Deposits.Next(old(View()), SendRefund(id, seen))
      ensures claimed <==> View() != old(View())
    {
      if !seen.RefundApproved? { return false; }
      claimed := CasStatus(id, RefundApproved, RefundSending);
    }

    method CompleteRefund(id: nat, seen: Status) returns (released: bool)
      requires Filed(ledger.accounts)
      modifies this, ledger
      ensures Filed(ledger.accounts)
      ensures View() == Deposits.Next(old(View()), SettleRefund(id, seen))
      ensures released <==>
        id in old(deposits) && seen.RefundSending? && CanRelease(old(View()), id, EXTERNAL, RefundSending, Refunded)
    {
      if id !in deposits || !seen.RefundSending? { return false; }
      released := ReleaseFunds(id, EXTERNAL, RefundSending, Refunded);
    }
  }
}
