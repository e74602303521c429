/** The refund's rows and a process's rail as the calls change them in place. */
module RefundStore {
  import opened Money
  import opened Refund
  import opened Quorum

  class Rail {
    var persisted: Option<Signed>

    constructor ()
      ensures persisted.None?
    {
      persisted := None;
    }

    method Persist(s: Signed) returns (ok: bool)
      modifies this
      ensures ok <==> PersistSigned(old(persisted), s).Some?
      ensures persisted == if ok then Some(s) else old(persisted)
    {
      if persisted.Some? { return persisted.value == s; }
      persisted := Some(s);
      return true;
    }
  }

  class Store {
    var status: Status
    var attempts: seq<Attempt>

    ghost function View(): Rows
      reads this
    {
      Rows(status, attempts)
    }

    constructor ()
      ensures View() == Rows(Approved, [])
    {
      status, attempts := Approved, [];
    }

    method LiveAttempt() returns (r: Option<nat>)
      ensures r == LiveIndex(attempts)
    {
      var i := |attempts|;
      assert attempts[..i] == attempts;
      while i > 0
        invariant 0 <= i <= |attempts|
        invariant LiveIndex(attempts) == LiveIndex(attempts[..i])
      {
        assert attempts[..i][..i - 1] == attempts[..i - 1];
        i := i - 1;
        if attempts[i].landing.IsLive() { return Some(i); }
      }
      return None;
    }

    method NextAttemptNumber() returns (n: nat)
      ensures n == HighestNumber(attempts) + 1
    {
      var highest := 0;
      for i := 0 to |attempts|
        invariant highest == HighestNumber(attempts[..i])
      {
        assert attempts[..i + 1][..i] == attempts[..i];
        if attempts[i].number > highest { highest := attempts[i].number; }
      }
      assert attempts[..|attempts|] == attempts;
      return highest + 1;
    }

    method FindAttempt(signature: nat) returns (r: Option<nat>)
      ensures r == IndexOf(attempts, signature)
    {
      for i := 0 to |attempts|
        invariant IndexOf(attempts[..i], signature).None?
      {
        assert attempts[..i + 1][..i] == attempts[..i];
        if attempts[i].signed.signature == signature {
          FoundEarly(attempts, i, signature);
          return Some(i);
        }
      }
      assert attempts[..|attempts|] == attempts;
      return None;
    }

    method Save(i: nat, to: Landing) returns (ok: bool)
      requires i < |attempts|
      modifies this`attempts
      ensures ok <==> SaveAttempt(old(attempts), i, to).Some?
      ensures attempts == if ok then SaveAttempt(old(attempts), i, to).value else old(attempts)
    {
      if !LegalEdge(attempts[i].landing, to) || Competing(attempts, i, to) { return false; }
      attempts := attempts[i := attempts[i].(landing := to)];
      return true;
    }

    /** Insert, hand the bytes to the rail, commit; a lost commit rolls the rows back but not the rail. */
    method LaunchAttempt(ghost before: Rows, rail: Rail, a: Attempt, commits: bool)
      returns (task: Option<Task>, reply: Reply)
      modifies this, rail
      ensures var e := Launch(before, old(attempts), old(rail.persisted), a, commits);
              && task == e.task && reply == e.reply && rail.persisted == e.rail
              && View() == if reply.Ack? then e.rows else old(View())
    {
      var inserted := InsertAttempt(attempts, a);
      if inserted.None? { return None, StoreRefused; }
      var kept := rail.Persist(a.signed);
      if !kept { return None, RailConflict; }
      if !commits { return None, NotCommitted; }
      status, attempts := Sending, inserted.value;
      return Some(SendOwn(true)), Ack;
    }

    method BeginSend(rail: Rail, now: int, answers: Answers, commits: bool) returns (task: Option<Task>, reply: Reply)
      modifies this, rail
      ensures Effect(View(), rail.persisted, task, reply)
           == Begin(old(View()), old(rail.persisted), now, answers, commits)
    {
      match status
      case NotApproved => return None, Reply.Refused;
      case Refunded => return None, if OneFinalized(attempts) then AlreadyDone else Corrupt;
      case Approved =>
        if attempts != [] { return None, Corrupt; }
        if answers.taken { return None, StoreRefused; }
        task, reply := LaunchAttempt(View(), rail, Attempt(1, None, answers.offer, Prepared, now + LEASE), commits);
      case Sending =>
        var live := LiveAttempt();
        if live.None? { return None, Corrupt; }
        task, reply := RetrySend(live.value, now, answers);
    }

    method RetrySend(i: nat, now: int, answers: Answers) returns (task: Option<Task>, reply: Reply)
      requires i < |attempts| && attempts[i].landing.IsLive()
      modifies this
      ensures forall rail :: Effect(View(), rail, task, reply) == Retry(old(View()), rail, i, now, answers)
    {
      var a := attempts[i];
      var saved := true;
      match a.landing
      case Broadcast => return None, AlreadyDone;
      case Unknown =>
        if answers.height.None? || answers.height.value > a.signed.lastValid { return None, Reply.Refused; }
        return Some(Resend(a.signed, false)), Ack;
      case Prepared =>
        if now < a.lease { return None, Busy; }
        if answers.presence.Present? {
          saved := Save(i, Broadcast);
        } else if answers.presence.Absent? && answers.height.Some? && answers.height.value <= a.signed.lastValid {
          return Some(Resend(a.signed, true)), Ack;
        } else {
          saved := Save(i, Unknown);
        }
        return None, if saved then Ack else StoreRefused;
    }

    method ReplaceExpired(rail: Rail, payment: Payment, identity: Identity, now: int, obs: seq<Observation>,
                          answers: Answers, commits: bool)
      returns (task: Option<Task>, reply: Reply)
      modifies this, rail
      ensures var live := LiveIndex(old(attempts));
              var definitive :=
                live.Some? && Definitive(old(attempts)[live.value].signed.lastValid, obs, identity.endpoints);
              Effect(View(), rail.persisted, task, reply)
              == Replace(old(View()), old(rail.persisted), payment, identity, now, definitive, answers, commits)
    {
      if !status.Sending? || payment.fingerprint != identity.fingerprint { return None, Reply.Refused; }
      var live := LiveAttempt();
      if live.None? { return None, Corrupt; }
      var unknown := attempts[live.value];
      if !unknown.landing.Unknown? { return None, Reply.Refused; }
      if answers.height.None? || answers.height.value <= unknown.signed.lastValid { return None, Reply.Refused; }
      var definitive := RefundVerdict(unknown.signed.lastValid, obs, identity.endpoints);
      if !definitive { return None, Reply.Refused; }
      var rows := attempts;
      var next := NextAttemptNumber();
      var reused := FindAttempt(answers.offer.signature);
      var saved := Save(live.value, DefinitiveFailed);
      if !saved || reused.Some? || answers.taken {
        attempts := rows;
        return None, StoreRefused;
      }
      var successor := Attempt(next, Some(unknown.signed), answers.offer, Prepared, now + LEASE);
      task, reply := LaunchAttempt(old(View()), rail, successor, commits);
      if !reply.Ack? { attempts := rows; }
    }

    method MarkBroadcast() returns (reply: Reply)
      modifies this
      ensures forall rail :: Effect(View(), rail, None, reply) == Mark(old(View()), rail)
    {
      if !status.Sending? { return Reply.Refused; }
      var live := LiveAttempt();
      if live.None? { return Corrupt; }
      if attempts[live.value].landing.Broadcast? { return AlreadyDone; }
      var saved := Save(live.value, Broadcast);
      return if saved then Ack else StoreRefused;
    }

    method SettleRefund(payment: Payment, identity: Identity, receipt: Receipt) returns (reply: Reply)
      modifies this
      ensures forall rail :: Effect(View(), rail, None, reply) == Settle(old(View()), rail, payment, identity, receipt)
    {
      if payment.fingerprint != identity.fingerprint { return Reply.Refused; }
      var found := FindAttempt(receipt.signature);
      if found.None? { return Reply.Refused; }
      if !Proves(receipt, identity, payment, attempts[found.value]) { return Reply.Refused; }
      var landing := attempts[found.value].landing;
      if status.Refunded? { return if landing.Finalized? then AlreadyDone else Corrupt; }
      if !status.Sending? || !landing.IsLive() { return Reply.Refused; }
      var saved := Save(found.value, Finalized);
      if !saved { return StoreRefused; }
      status := Refunded;
      return Ack;
    }
  }

  lemma {:induction false} FoundEarly(attempts: seq<Attempt>, i: nat, signature: nat)
    requires i < |attempts| && attempts[i].signed.signature == signature && IndexOf(attempts[..i], signature).None?
    ensures IndexOf(attempts, signature) == Some(i)
    decreases |attempts|
  {
    var init := attempts[..|attempts| - 1];
    if i == |init| {
      assert init == attempts[..i];
    } else {
      assert init[..i] == attempts[..i];
      FoundEarly(init, i, signature);
    }
  }
}
