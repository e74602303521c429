/**
 Sending one refund: the persisted attempts, and each call's transaction over
 them. A call signs, persists, commits and only then broadcasts.
 */
module Refund {
  import opened Money

  /** A signed transfer; it can only land while the chain is at or below `lastValid`. */
  datatype Signed = Signed(signature: nat, lastValid: int)

  datatype Landing = Prepared | Broadcast | Unknown | Finalized | DefinitiveFailed {
    predicate IsLive() { Prepared? || Broadcast? || Unknown? }
  }

  datatype Attempt = Attempt(number: nat, replaced: Option<Signed>, signed: Signed, landing: Landing, lease: int)

  /** Where the deposit's refund stands; every other deposit state reads as `NotApproved`. */
  datatype Status = NotApproved | Approved | Sending | Refunded

  datatype Rows = Rows(status: Status, attempts: seq<Attempt>)

  const LEASE := 30

  // ---------------------------------------------------------------- the attempt store

  predicate LegalEdge(from: Landing, to: Landing) {
    || from == to
    || (from.Prepared? && (to.Broadcast? || to.Unknown? || to.Finalized? || to.DefinitiveFailed?))
    || (from.Broadcast? && (to.Unknown? || to.Finalized?))
    || (from.Unknown? && (to.Finalized? || to.DefinitiveFailed?))
  }

  predicate Competing(attempts: seq<Attempt>, i: nat, to: Landing) {
    || (to.IsLive() && exists j :: 0 <= j < |attempts| && j != i && attempts[j].landing.IsLive())
    || (to.Finalized? && exists j :: 0 <= j < |attempts| && j != i && attempts[j].landing.Finalized?)
  }

  /** Moves one attempt along a legal edge, or refuses. */
  function SaveAttempt(attempts: seq<Attempt>, i: nat, to: Landing): Option<seq<Attempt>>
    requires i < |attempts|
  {
    if !LegalEdge(attempts[i].landing, to) || Competing(attempts, i, to) then None
    else Some(attempts[i := attempts[i].(landing := to)])
  }

  /** The ways an attempt may go; staying where it is is always allowed. */
  const WAYS: set<(Landing, Landing)> :=
    {(Prepared, Broadcast), (Prepared, Unknown), (Prepared, Finalized), (Prepared, DefinitiveFailed),
     (Broadcast, Unknown), (Broadcast, Finalized), (Unknown, Finalized), (Unknown, DefinitiveFailed)}

  /** A save succeeds exactly along a way, without a second live or finalized attempt, and moves only that one. */
  lemma SaveIsExact(attempts: seq<Attempt>, i: nat, to: Landing)
    requires i < |attempts|
    ensures var saved := SaveAttempt(attempts, i, to);
            && (saved.Some? <==>
                  && (to == attempts[i].landing || (attempts[i].landing, to) in WAYS)
                  && (forall j :: 0 <= j < |attempts| && j != i ==>
                        && !(to.IsLive() && attempts[j].landing.IsLive())
                        && !(to.Finalized? && attempts[j].landing.Finalized?)))
            && (saved.Some? ==> saved.value == attempts[i := attempts[i].(landing := to)])
  {
  }

  predicate UsesSigned(attempts: seq<Attempt>, s: Signed) {
    exists i :: 0 <= i < |attempts| && attempts[i].signed == s
  }

  /** The store and the caller look for a signature alone. */
  predicate UsesSignature(attempts: seq<Attempt>, signature: nat) {
    exists i :: 0 <= i < |attempts| && attempts[i].signed.signature == signature
  }

  /** A new attempt carries the next number and names the failed attempt it replaces. */
  function InsertAttempt(attempts: seq<Attempt>, a: Attempt): Option<seq<Attempt>> {
    var n := |attempts|;
    if a.number != (if n == 0 then 1 else attempts[n - 1].number + 1) then None
    else if n == 0 && a.replaced.Some? then None
    else if n > 0 && (a.replaced != Some(attempts[n - 1].signed) || !attempts[n - 1].landing.DefinitiveFailed?)
    then None
    else if a.signed.lastValid <= 0 || !a.landing.Prepared? then None
    else if UsesSignature(attempts, a.signed.signature) then None
    else Some(attempts + [a])
  }

  /** The first attempt replaces nothing; a later one follows in number on the failed attempt it replaces. */
  lemma InsertIsExact(attempts: seq<Attempt>, a: Attempt)
    ensures var inserted := InsertAttempt(attempts, a);
            && (inserted.Some? <==>
                  && a.landing.Prepared? && a.signed.lastValid > 0
                  && (forall i :: 0 <= i < |attempts| ==> attempts[i].signed.signature != a.signed.signature)
                  && (attempts == [] ==> a.number == 1 && a.replaced.None?)
                  && (attempts != [] ==>
                        var last := attempts[|attempts| - 1];
                        && a.number == last.number + 1 && a.replaced == Some(last.signed)
                        && last.landing == DefinitiveFailed))
            && (inserted.Some? ==> inserted.value == attempts + [a])
  {
  }

  function LiveIndex(attempts: seq<Attempt>): (r: Option<nat>)
    ensures r.Some? ==> r.value < |attempts| && attempts[r.value].landing.IsLive()
    ensures r.None? ==> forall i :: 0 <= i < |attempts| ==> !attempts[i].landing.IsLive()
  {
    if attempts == [] then None
    else if attempts[|attempts| - 1].landing.IsLive() then Some(|attempts| - 1)
    else LiveIndex(attempts[..|attempts| - 1])
  }

  function HighestNumber(attempts: seq<Attempt>): nat {
    if attempts == [] then 0
    else
      var rest, last := HighestNumber(attempts[..|attempts| - 1]), attempts[|attempts| - 1].number;
      if last > rest then last else rest
  }

  // ---------------------------------------------------------------- a process's rail

  /** The rail keeps the first bytes it is given for a payment and refuses others. */
  function PersistSigned(rail: Option<Signed>, s: Signed): (r: Option<Signed>)
    ensures r.Some? <==> rail.None? || rail.value == s
    ensures r.Some? ==> r.value == s
  {
    if rail.Some? && rail.value != s then None else Some(s)
  }

  // ---------------------------------------------------------------- the calls

  datatype Presence = Present | Absent | Unsure

  /**
   What the chain endpoint and the key answer during a call; nothing here is
   trusted. `taken`: the offer's signature is stored for some other payment.
   */
  datatype Answers = Answers(presence: Presence, height: Option<int>, offer: Signed, taken: bool)

  /** What the refund pays, and the rail it was approved for. */
  datatype Payment = Payment(dest: nat, amount: int, fingerprint: nat)

  /** The rail as pinned when the process started. */
  datatype Identity = Identity(mint: nat, treasury: nat, finalized: bool, endpoints: set<nat>, fingerprint: nat)

  /** What a process still has to do once the transaction is committed. */
  datatype Task = SendOwn(mark: bool) | Resend(signed: Signed, mark: bool) | MarkSent

  datatype Reply = Ack | AlreadyDone | Busy | Refused | RailConflict | StoreRefused | Corrupt | NotCommitted

  /** New rows, the process's rail, follow-up work, and the answer. */
  datatype Effect = Effect(rows: Rows, rail: Option<Signed>, task: Option<Task>, reply: Reply)

  function Fail(rows: Rows, rail: Option<Signed>, reply: Reply): Effect { Effect(rows, rail, None, reply) }

  function MarkAs(rows: Rows, rail: Option<Signed>, i: nat, to: Landing): Effect
    requires i < |rows.attempts|
  {
    var saved := SaveAttempt(rows.attempts, i, to);
    if saved.None? then Fail(rows, rail, StoreRefused)
    else Effect(rows.(attempts := saved.value), rail, None, Ack)
  }

  /**
   Writes a new attempt and hands its bytes to the rail inside the transaction.
   When the commit is lost the rows stay, but the rail has already kept the bytes.
   */
  function Launch(rows: Rows, before: seq<Attempt>, rail: Option<Signed>, a: Attempt, commits: bool): Effect {
    var inserted := InsertAttempt(before, a);
    if inserted.None? then Fail(rows, rail, StoreRefused)
    else
      var kept := PersistSigned(rail, a.signed);
      if kept.None? then Fail(rows, rail, RailConflict)
      else if !commits then Fail(rows, kept, NotCommitted)
      else Effect(Rows(Sending, inserted.value), kept, Some(SendOwn(true)), Ack)
  }

  predicate OneFinalized(attempts: seq<Attempt>) {
    exists i :: 0 <= i < |attempts| && attempts[i].landing.Finalized?
      && forall j :: 0 <= j < |attempts| && attempts[j].landing.Finalized? ==> j == i
  }

  function FinalizedAt(attempts: seq<Attempt>): set<nat> {
    set i | 0 <= i < |attempts| && attempts[i].landing.Finalized?
  }

  lemma OneFinalizedCounts(attempts: seq<Attempt>)
    ensures OneFinalized(attempts) <==> |FinalizedAt(attempts)| == 1
  {
    if OneFinalized(attempts) { OneIsCounted(attempts); }
    if |FinalizedAt(attempts)| == 1 {
      var i :| i in FinalizedAt(attempts);
      OnlyMember(FinalizedAt(attempts), i);
      CountedIsOne(attempts, i);
    }
  }

  lemma OneIsCounted(attempts: seq<Attempt>)
    requires OneFinalized(attempts)
    ensures |FinalizedAt(attempts)| == 1
  {
    var i :| 0 <= i < |attempts| && attempts[i].landing.Finalized?
             && forall j :: 0 <= j < |attempts| && attempts[j].landing.Finalized? ==> j == i;
    assert FinalizedAt(attempts) == {i};
  }

  lemma CountedIsOne(attempts: seq<Attempt>, i: nat)
    requires FinalizedAt(attempts) == {i}
    ensures OneFinalized(attempts)
  {
    assert i in FinalizedAt(attempts);
    forall j | 0 <= j < |attempts| && attempts[j].landing.Finalized? ensures j == i {
      assert j in FinalizedAt(attempts);
    }
  }

  lemma OnlyMember(s: set<nat>, i: nat)
    requires |s| == 1 && i in s
    ensures s == {i}
  {
    assert |s - {i}| == 0;
    assert s == (s - {i}) + {i};
  }

  function Begin(rows: Rows, rail: Option<Signed>, now: int, answers: Answers, commits: bool): Effect {
    match rows.status
    case NotApproved => Fail(rows, rail, Refused)
    case Refunded => Fail(rows, rail, if OneFinalized(rows.attempts) then AlreadyDone else Corrupt)
    case Approved => StartSending(rows, rail, now, answers, commits)
    case Sending => ResumeSending(rows, rail, now, answers)
  }

  function StartSending(rows: Rows, rail: Option<Signed>, now: int, answers: Answers, commits: bool): Effect {
    if rows.attempts != [] then Fail(rows, rail, Corrupt)
    else if answers.taken then Fail(rows, rail, StoreRefused)
    else Launch(rows, [], rail, Attempt(1, None, answers.offer, Prepared, now + LEASE), commits)
  }

  function ResumeSending(rows: Rows, rail: Option<Signed>, now: int, answers: Answers): Effect {
    var live := LiveIndex(rows.attempts);
    if live.None? then Fail(rows, rail, Corrupt) else Retry(rows, rail, live.value, now, answers)
  }

  /** A second look at a refund already being sent. */
  function Retry(rows: Rows, rail: Option<Signed>, i: nat, now: int, answers: Answers): Effect
    requires i < |rows.attempts| && rows.attempts[i].landing.IsLive()
  {
    var a := rows.attempts[i];
    match a.landing
    case Broadcast => Fail(rows, rail, AlreadyDone)
    case Prepared =>
      if now < a.lease then Fail(rows, rail, Busy)
      else if answers.presence.Present? then MarkAs(rows, rail, i, Broadcast)
      else if answers.presence.Absent? && answers.height.Some? && answers.height.value <= a.signed.lastValid
      then Effect(rows, rail, Some(Resend(a.signed, true)), Ack)
      else MarkAs(rows, rail, i, Unknown)
    case Unknown =>
      if answers.height.None? || answers.height.value > a.signed.lastValid then Fail(rows, rail, Refused)
      else Effect(rows, rail, Some(Resend(a.signed, false)), Ack)
  }

  /** Only a definitive verdict retires the unknown attempt, in the transaction that adds its replacement. */
  function Replace(rows: Rows, rail: Option<Signed>, payment: Payment, identity: Identity, now: int, definitive: bool,
                   answers: Answers, commits: bool)
    : Effect
  {
    var live := LiveIndex(rows.attempts);
    if !rows.status.Sending? then Fail(rows, rail, Refused)
    else if payment.fingerprint != identity.fingerprint then Fail(rows, rail, Refused)
    else if live.None? then Fail(rows, rail, Corrupt)
    else ReplaceLive(rows, rail, live.value, now, definitive, answers, commits)
  }

  function ReplaceLive(rows: Rows, rail: Option<Signed>, i: nat, now: int, definitive: bool, answers: Answers,
                       commits: bool)
    : Effect
    requires i < |rows.attempts|
  {
    var prior := rows.attempts[i].signed;
    if !rows.attempts[i].landing.Unknown? then Fail(rows, rail, Refused)
    else if answers.height.None? || answers.height.value <= prior.lastValid then Fail(rows, rail, Refused)
    else if !definitive then Fail(rows, rail, Refused)
    else
      var failed := SaveAttempt(rows.attempts, i, DefinitiveFailed);
      if failed.None? || UsesSignature(rows.attempts, answers.offer.signature) || answers.taken
      then Fail(rows, rail, StoreRefused)
      else Launch(rows, failed.value, rail,
                  Attempt(HighestNumber(rows.attempts) + 1, Some(prior), answers.offer, Prepared, now + LEASE), commits)
  }

  function Mark(rows: Rows, rail: Option<Signed>): Effect {
    var live := LiveIndex(rows.attempts);
    if !rows.status.Sending? then Fail(rows, rail, Refused)
    else if live.None? then Fail(rows, rail, Corrupt)
    else MarkLive(rows, rail, live.value)
  }

  function MarkLive(rows: Rows, rail: Option<Signed>, i: nat): Effect
    requires i < |rows.attempts|
  {
    if rows.attempts[i].landing.Broadcast? then Fail(rows, rail, AlreadyDone) else MarkAs(rows, rail, i, Broadcast)
  }

  function IndexOf(attempts: seq<Attempt>, signature: nat): (r: Option<nat>)
    ensures r.Some? <==> UsesSignature(attempts, signature)
    ensures r.Some? ==> r.value < |attempts| && attempts[r.value].signed.signature == signature
  {
    if attempts == [] then None
    else
      var rest := IndexOf(attempts[..|attempts| - 1], signature);
      if rest.Some? then rest
      else if attempts[|attempts| - 1].signed.signature == signature then Some(|attempts| - 1)
      else None
  }

  /** What the chain reports of one transfer. */
  datatype Receipt = Receipt(signature: nat, mint: nat, source: nat, dest: nat, delta: int, finalized: bool)

  /** The receipt is final and is this payment, from the treasury, in the right coin, to the unit. */
  predicate Proves(receipt: Receipt, identity: Identity, payment: Payment, attempt: Attempt) {
    && receipt.finalized && identity.finalized
    && receipt.signature == attempt.signed.signature
    && receipt.mint == identity.mint && receipt.source == identity.treasury
    && receipt.dest == payment.dest && receipt.delta == payment.amount
  }

  /** A receipt that proves the payment finalizes the live attempt it names and ends the refund. */
  function Settle(rows: Rows, rail: Option<Signed>, payment: Payment, identity: Identity, receipt: Receipt): Effect {
    var found := IndexOf(rows.attempts, receipt.signature);
    if payment.fingerprint != identity.fingerprint || found.None? then Fail(rows, rail, Refused)
    else if !Proves(receipt, identity, payment, rows.attempts[found.value]) then Fail(rows, rail, Refused)
    else if rows.status.Refunded? then
      Fail(rows, rail, if rows.attempts[found.value].landing.Finalized? then AlreadyDone else Corrupt)
    else if !rows.status.Sending? || !rows.attempts[found.value].landing.IsLive() then Fail(rows, rail, Refused)
    else
      var saved := SaveAttempt(rows.attempts, found.value, Finalized);
      if saved.None? then Fail(rows, rail, StoreRefused)
      else Effect(Rows(Refunded, saved.value), rail, None, Ack)
  }

  // ---------------------------------------------------------------- what the rows keep

  /** Numbered from one; every attempt but the newest has definitively failed; no signature twice. */
  predicate Chained(attempts: seq<Attempt>) {
    && (forall i :: 0 <= i < |attempts| ==> attempts[i].number == i + 1)
    && (forall i :: 0 <= i < |attempts| - 1 ==> attempts[i].landing.DefinitiveFailed?)
    && (forall i :: 0 < i < |attempts| ==> attempts[i].replaced == Some(attempts[i - 1].signed))
    && (forall i, j :: 0 <= i < j < |attempts| ==> attempts[i].signed.signature != attempts[j].signed.signature)
  }

  predicate Coherent(rows: Rows) {
    && Chained(rows.attempts)
    && match rows.status
       case NotApproved => rows.attempts == []
       case Approved => rows.attempts == []
       case Sending => rows.attempts != [] && rows.attempts[|rows.attempts| - 1].landing.IsLive()
       case Refunded => rows.attempts != [] && rows.attempts[|rows.attempts| - 1].landing.Finalized?
  }

  /** What a call may do to coherent rows: nothing, move the newest attempt, or add one. */
  predicate Moved(rows: Rows, rows': Rows) {
    var n := |rows.attempts|;
    || rows' == rows
    || (&& rows'.status.Sending? && n == 0 && |rows'.attempts| == 1 && rows'.attempts[0].landing.Prepared?)
    || (&& rows.status.Sending? && rows'.status.Sending? && n > 0
        && |rows'.attempts| == n + 1
        && (forall i :: 0 <= i < n ==> rows'.attempts[i].signed == rows.attempts[i].signed)
        && rows.attempts[n - 1].landing.Unknown?)
    || (&& rows.status.Sending? && n > 0 && |rows'.attempts| == n
        && rows' == Rows(rows'.status, rows.attempts[n - 1 := rows'.attempts[n - 1]])
        && rows'.attempts[n - 1].signed == rows.attempts[n - 1].signed
        && !rows'.attempts[n - 1].landing.DefinitiveFailed?)
  }

  lemma LiveIsNewest(rows: Rows)
    requires Coherent(rows)
    ensures rows.status.Sending? <==> LiveIndex(rows.attempts).Some?
    ensures rows.status.Sending? ==> LiveIndex(rows.attempts) == Some(|rows.attempts| - 1)
    ensures HighestNumber(rows.attempts) == |rows.attempts|
  {
    var n := |rows.attempts|;
    if n > 0 && !rows.attempts[n - 1].landing.IsLive() {
      var live := LiveIndex(rows.attempts[..n - 1]);
    }
    NumbersRise(rows.attempts);
  }

  lemma {:induction false} NumbersRise(attempts: seq<Attempt>)
    requires forall i :: 0 <= i < |attempts| ==> attempts[i].number == i + 1
    ensures HighestNumber(attempts) == |attempts|
  {
    if attempts != [] { NumbersRise(attempts[..|attempts| - 1]); }
  }

  lemma MarkAsKeeps(rows: Rows, rail: Option<Signed>, to: Landing)
    requires Coherent(rows) && rows.status.Sending? && (to.Broadcast? || to.Unknown?)
    ensures var e := MarkAs(rows, rail, |rows.attempts| - 1, to); Coherent(e.rows) && Moved(rows, e.rows)
  {
  }

  lemma LaunchKeeps(rows: Rows, rail: Option<Signed>, prior: Option<Signed>, before: seq<Attempt>, offer: Signed,
                    lease: int, commits: bool)
    requires Coherent(rows)
    requires rows.status.Approved? ==> before == [] && prior.None?
    requires rows.status.Sending? ==>
      && rows.attempts[|rows.attempts| - 1].landing.Unknown? && prior == Some(rows.attempts[|rows.attempts| - 1].signed)
      && var last := |rows.attempts| - 1;
         before == rows.attempts[last := rows.attempts[last].(landing := DefinitiveFailed)]
    requires rows.status.Approved? || rows.status.Sending?
    ensures var e := Launch(rows, before, rail, Attempt(|before| + 1, prior, offer, Prepared, lease), commits);
            Coherent(e.rows) && Moved(rows, e.rows)
  {
  }

  lemma RetryKeeps(rows: Rows, rail: Option<Signed>, now: int, answers: Answers)
    requires Coherent(rows) && rows.status.Sending?
    ensures var e := Retry(rows, rail, |rows.attempts| - 1, now, answers);
            Coherent(e.rows) && Moved(rows, e.rows) && !e.reply.Corrupt?
  {
    var e := Retry(rows, rail, |rows.attempts| - 1, now, answers);
    if e.rows != rows {
      if answers.presence.Present? { MarkAsKeeps(rows, rail, Broadcast); } else { MarkAsKeeps(rows, rail, Unknown); }
    }
  }

  lemma StartKeeps(rows: Rows, rail: Option<Signed>, now: int, answers: Answers, commits: bool)
    requires Coherent(rows) && rows.status.Approved?
    ensures var e := StartSending(rows, rail, now, answers, commits);
            Coherent(e.rows) && Moved(rows, e.rows) && !e.reply.Corrupt?
  {
    LaunchKeeps(rows, rail, None, [], answers.offer, now + LEASE, commits);
  }

  lemma ResumeKeeps(rows: Rows, rail: Option<Signed>, now: int, answers: Answers)
    requires Coherent(rows) && rows.status.Sending?
    ensures var e := ResumeSending(rows, rail, now, answers);
            Coherent(e.rows) && Moved(rows, e.rows) && !e.reply.Corrupt?
  {
    LiveIsNewest(rows);
    RetryKeeps(rows, rail, now, answers);
  }

  lemma FinalizedOnce(rows: Rows)
    requires Coherent(rows) && rows.status.Refunded?
    ensures OneFinalized(rows.attempts)
  {
    assert rows.attempts[|rows.attempts| - 1].landing.Finalized?;
  }

  lemma BeginKeeps(rows: Rows, rail: Option<Signed>, now: int, answers: Answers, commits: bool)
    requires Coherent(rows)
    ensures var e := Begin(rows, rail, now, answers, commits);
            Coherent(e.rows) && Moved(rows, e.rows) && !e.reply.Corrupt?
  {
    match rows.status
    case Approved => StartKeeps(rows, rail, now, answers, commits);
    case Sending => ResumeKeeps(rows, rail, now, answers);
    case Refunded => FinalizedOnce(rows);
    case NotApproved =>
  }

  /** The rows with their newest attempt at another point of its way. */
  function WithNewest(rows: Rows, landing: Landing): Rows
    requires rows.attempts != []
  {
    var last := |rows.attempts| - 1;
    rows.(attempts := rows.attempts[last := rows.attempts[last].(landing := landing)])
  }

  predicate InTime(answers: Answers, s: Signed) { answers.height.Some? && answers.height.value <= s.lastValid }

  /**
   A second call while sending. Before the lease is out nothing happens; then a
   transfer that is seen counts as broadcast, one that is missing and can still
   land is sent again, and any other becomes unknown. An unknown transfer is
   only ever sent again, in its time; a broadcast one is left alone.
   */
  lemma ResumeIsExact(rows: Rows, rail: Option<Signed>, now: int, answers: Answers, commits: bool)
    requires Coherent(rows) && rows.status.Sending?
    ensures var e := Begin(rows, rail, now, answers, commits);
            var a := rows.attempts[|rows.attempts| - 1];
            && e.rail == rail && |e.rows.attempts| == |rows.attempts|
            && var after := e.rows.attempts[|rows.attempts| - 1].landing;
            && e.rows == WithNewest(rows, after)
            && (a.landing.Prepared? && now >= a.lease ==>
                  && (after.Broadcast? <==> answers.presence.Present?)
                  && (after.Prepared? <==> answers.presence.Absent? && InTime(answers, a.signed))
                  && (after.Unknown?
                      <==> answers.presence.Unsure? || (answers.presence.Absent? && !InTime(answers, a.signed)))
                  && e.task == if after.Prepared? then Some(Resend(a.signed, true)) else None)
            && (a.landing.Prepared? && now < a.lease ==> e == Fail(rows, rail, Busy))
            && (a.landing.Unknown? ==>
                  && e.rows == rows
                  && e.task == if InTime(answers, a.signed) then Some(Resend(a.signed, false)) else None)
            && (a.landing.Broadcast? ==> e == Fail(rows, rail, AlreadyDone))
  {
    LiveIsNewest(rows);
    RetryIsExact(rows, rail, now, answers);
    assert rows == WithNewest(rows, rows.attempts[|rows.attempts| - 1].landing);
  }

  lemma RetryIsExact(rows: Rows, rail: Option<Signed>, now: int, answers: Answers)
    requires Coherent(rows) && rows.status.Sending?
    ensures var a := rows.attempts[|rows.attempts| - 1];
            Retry(rows, rail, |rows.attempts| - 1, now, answers)
            == if a.landing.Broadcast? then Fail(rows, rail, AlreadyDone)
               else if a.landing.Prepared? && now < a.lease then Fail(rows, rail, Busy)
               else if a.landing.Prepared? && answers.presence.Present?
               then Effect(WithNewest(rows, Broadcast), rail, None, Ack)
               else if (a.landing.Unknown? || answers.presence.Absent?) && InTime(answers, a.signed)
               then Effect(rows, rail, Some(Resend(a.signed, a.landing.Prepared?)), Ack)
               else if a.landing.Prepared? then Effect(WithNewest(rows, Unknown), rail, None, Ack)
               else Fail(rows, rail, Refused)
  {
  }

  /** Exactly when a first attempt is committed, what it is, and that its bytes stay on the rail even if it is not. */
  lemma StartIsExact(rows: Rows, rail: Option<Signed>, now: int, answers: Answers, commits: bool)
    requires Coherent(rows) && rows.status.Approved?
    ensures var e := Begin(rows, rail, now, answers, commits);
            var signs := !answers.taken && answers.offer.lastValid > 0 && (rail.None? || rail.value == answers.offer);
            && (e.rows != rows <==> signs && commits)
            && e.rail == (if signs then Some(answers.offer) else rail)
            && (e.rows != rows ==>
                  && e.rows == Rows(Sending, [Attempt(1, None, answers.offer, Prepared, now + 30)])
                  && e.task == Some(SendOwn(true)))
            && (e.rows == rows ==> e.task.None?)
  {
  }

  /** A replacement works on the newest attempt of a refund being sent over the process's own rail, or is refused. */
  lemma ReplaceIsOfNewest(rows: Rows, rail: Option<Signed>, payment: Payment, identity: Identity, now: int,
                          definitive: bool, answers: Answers, commits: bool)
    requires Coherent(rows)
    ensures Replace(rows, rail, payment, identity, now, definitive, answers, commits)
         == if !rows.status.Sending? || payment.fingerprint != identity.fingerprint then Fail(rows, rail, Refused)
            else ReplaceLive(rows, rail, |rows.attempts| - 1, now, definitive, answers, commits)
  {
    LiveIsNewest(rows);
  }

  lemma ReplaceKeeps(rows: Rows, rail: Option<Signed>, payment: Payment, identity: Identity, now: int, definitive: bool,
                     answers: Answers, commits: bool)
    requires Coherent(rows)
    ensures var e := Replace(rows, rail, payment, identity, now, definitive, answers, commits);
            Coherent(e.rows) && Moved(rows, e.rows) && !e.reply.Corrupt?
    ensures var e := Replace(rows, rail, payment, identity, now, definitive, answers, commits);
            e.rows != rows ==> definitive && rows.status.Sending? && |e.rows.attempts| == |rows.attempts| + 1
  {
    ReplaceIsOfNewest(rows, rail, payment, identity, now, definitive, answers, commits);
    if rows.status.Sending? { ReplaceLiveKeeps(rows, rail, now, definitive, answers, commits); }
  }

  function Retired(rows: Rows): seq<Attempt>
    requires rows.attempts != []
  {
    WithNewest(rows, DefinitiveFailed).attempts
  }

  function Successor(rows: Rows, offer: Signed, lease: int): Attempt
    requires rows.attempts != []
  {
    Attempt(|rows.attempts| + 1, Some(rows.attempts[|rows.attempts| - 1].signed), offer, Prepared, lease)
  }

  lemma ReplaceLiveLaunches(rows: Rows, rail: Option<Signed>, now: int, definitive: bool, answers: Answers,
                            commits: bool)
    requires Coherent(rows) && rows.status.Sending?
    ensures var e := ReplaceLive(rows, rail, |rows.attempts| - 1, now, definitive, answers, commits);
            || (e.rows == rows && !e.reply.Corrupt?)
            || (&& definitive && rows.attempts[|rows.attempts| - 1].landing.Unknown?
                && e == Launch(rows, Retired(rows), rail, Successor(rows, answers.offer, now + LEASE), commits))
  {
    NumbersRise(rows.attempts);
  }

  lemma LaunchAdds(rows: Rows, before: seq<Attempt>, rail: Option<Signed>, a: Attempt, commits: bool)
    ensures var e := Launch(rows, before, rail, a, commits);
            !e.reply.Corrupt? && (e.rows == rows || |e.rows.attempts| == |before| + 1)
  {
  }

  lemma ReplaceLiveKeeps(rows: Rows, rail: Option<Signed>, now: int, definitive: bool, answers: Answers, commits: bool)
    requires Coherent(rows) && rows.status.Sending?
    ensures var e := ReplaceLive(rows, rail, |rows.attempts| - 1, now, definitive, answers, commits);
            && Coherent(e.rows) && Moved(rows, e.rows) && !e.reply.Corrupt?
            && (e.rows != rows ==> definitive && |e.rows.attempts| == |rows.attempts| + 1)
  {
    ReplaceLiveLaunches(rows, rail, now, definitive, answers, commits);
    LaunchAdds(rows, Retired(rows), rail, Successor(rows, answers.offer, now + LEASE), commits);
    if rows.attempts[|rows.attempts| - 1].landing.Unknown? {
      LaunchKeeps(rows, rail, Some(rows.attempts[|rows.attempts| - 1].signed), Retired(rows), answers.offer,
                  now + LEASE, commits);
    }
  }

  lemma MarkKeeps(rows: Rows, rail: Option<Signed>)
    requires Coherent(rows)
    ensures var e := Mark(rows, rail); Coherent(e.rows) && Moved(rows, e.rows) && !e.reply.Corrupt?
    ensures Mark(rows, rail).rows != rows
            <==> rows.status.Sending? && rows.attempts[|rows.attempts| - 1].landing.Prepared?
    ensures var e := Mark(rows, rail);
            e.rows != rows ==> rows.attempts != [] && e.rows == WithNewest(rows, Broadcast) && e.reply.Ack?
  {
    LiveIsNewest(rows);
    if rows.status.Sending? { MarkLiveKeeps(rows, rail); }
  }

  lemma MarkLiveKeeps(rows: Rows, rail: Option<Signed>)
    requires Coherent(rows) && rows.status.Sending?
    ensures var e := MarkLive(rows, rail, |rows.attempts| - 1);
            && Coherent(e.rows) && Moved(rows, e.rows) && !e.reply.Corrupt?
            && (e.rows != rows <==> rows.attempts[|rows.attempts| - 1].landing.Prepared?)
            && (e.rows != rows ==> e.rows == WithNewest(rows, Broadcast) && e.reply.Ack?)
  {
    MarkAsKeeps(rows, rail, Broadcast);
  }

  lemma SettleKeeps(rows: Rows, rail: Option<Signed>, payment: Payment, identity: Identity, receipt: Receipt)
    requires Coherent(rows)
    ensures var e := Settle(rows, rail, payment, identity, receipt); Coherent(e.rows) && Moved(rows, e.rows)
    ensures var e := Settle(rows, rail, payment, identity, receipt);
            e.rows != rows ==>
              && e.rows.status.Refunded? && rows.attempts != []
              && payment.fingerprint == identity.fingerprint
              && Proves(receipt, identity, payment, rows.attempts[|rows.attempts| - 1])
  {
    LiveIsNewest(rows);
  }

  /** The receipt is final on a finalized rail, and names this signature, coin, treasury, destination and amount. */
  predicate PaysExactly(receipt: Receipt, identity: Identity, payment: Payment, s: Signed) {
    receipt == Receipt(s.signature, identity.mint, identity.treasury, payment.dest, payment.amount, true)
    && identity.finalized
  }

  /**
   Exactly when a receipt ends the refund: while it is being sent over the
   process's own rail, and the receipt is this payment by the newest attempt.
   Afterwards the same receipt is a repetition.
   */
  lemma SettlesIff(rows: Rows, rail: Option<Signed>, payment: Payment, identity: Identity, receipt: Receipt)
    requires Coherent(rows)
    ensures var e := Settle(rows, rail, payment, identity, receipt);
            var pays := rows.attempts != [] && payment.fingerprint == identity.fingerprint
                        && PaysExactly(receipt, identity, payment, rows.attempts[|rows.attempts| - 1].signed);
            && (e.rows != rows <==> rows.status.Sending? && pays)
            && (e.rows != rows ==> e.rows == WithNewest(rows, Finalized).(status := Refunded) && e.reply.Ack?)
            && (rows.status.Refunded? && pays ==> e.reply.AlreadyDone?)
            && (rows.status.Sending? && !pays ==> e.reply.Refused?)
  {
    LiveIsNewest(rows);
    if rows.attempts != [] {
      var last := rows.attempts[|rows.attempts| - 1];
      assert Proves(receipt, identity, payment, last) <==> PaysExactly(receipt, identity, payment, last.signed);
      if receipt.signature == last.signed.signature { assert UsesSignature(rows.attempts, receipt.signature); }
    }
  }

  /** Exactly when a replacement is committed. */
  lemma ReplacesIff(rows: Rows, rail: Option<Signed>, payment: Payment, identity: Identity, now: int, definitive: bool,
                    answers: Answers, commits: bool)
    requires Coherent(rows)
    ensures Replace(rows, rail, payment, identity, now, definitive, answers, commits).rows != rows
            <==> Replaceable(rows, answers) && payment.fingerprint == identity.fingerprint && definitive && commits
                 && !UsesSignature(rows.attempts, answers.offer.signature) && !answers.taken
                 && answers.offer.lastValid > 0 && (rail.None? || rail.value == answers.offer)
    ensures var e := Replace(rows, rail, payment, identity, now, definitive, answers, commits);
            if e.rows == rows then e.task.None?
            else && rows.attempts != [] && e.task == Some(SendOwn(true)) && e.rail == Some(answers.offer)
                 && e.rows == Rows(Sending, Retired(rows) + [Successor(rows, answers.offer, now + 30)])
  {
    LiveIsNewest(rows);
    if Replaceable(rows, answers) {
      var last := rows.attempts[|rows.attempts| - 1];
      var failed := SaveAttempt(rows.attempts, |rows.attempts| - 1, DefinitiveFailed);
      assert failed == Some(rows.attempts[|rows.attempts| - 1 := last.(landing := DefinitiveFailed)]);
      SameSignatures(rows.attempts, failed.value, answers.offer.signature);
    }
  }

  /** The newest attempt is unknown and the chain is past its time. */
  predicate Replaceable(rows: Rows, answers: Answers) {
    && rows.status.Sending? && rows.attempts != []
    && rows.attempts[|rows.attempts| - 1].landing.Unknown?
    && answers.height.Some? && answers.height.value > rows.attempts[|rows.attempts| - 1].signed.lastValid
  }

  lemma SameSignatures(before: seq<Attempt>, after: seq<Attempt>, signature: nat)
    requires |before| == |after| && forall i :: 0 <= i < |before| ==> before[i].signed == after[i].signed
    ensures UsesSignature(before, signature) <==> UsesSignature(after, signature)
  {
    if UsesSignature(before, signature) {
      var i :| 0 <= i < |before| && before[i].signed.signature == signature;
      assert after[i].signed.signature == signature;
    }
    if UsesSignature(after, signature) {
      var i :| 0 <= i < |after| && after[i].signed.signature == signature;
      assert before[i].signed.signature == signature;
    }
  }
}
