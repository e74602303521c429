/**
 One refund sent by any number of processes that may crash between any two
 effects, over a chain that keeps its own clock.
 */
module RefundRuns {
  import opened Money
  import opened Refund
  import opened Quorum

  /** A process's memory: the bytes its rail keeps, and the work it still has to do. */
  datatype Process = Process(rail: Option<Signed>, tasks: multiset<Task>)

  datatype System = System(
    rows: Rows, processes: map<nat, Process>,
    height: int, sent: set<Signed>, landed: map<Signed, int>)
  {
    function ProcessOf(p: nat): Process { if p in processes then processes[p] else Process(None, multiset{}) }
  }

  datatype Step =
    | CallBegin(p: nat, now: int, answers: Answers, commits: bool)
    | CallReplace(p: nat, payment: Payment, identity: Identity, now: int, obs: seq<Observation>, faulty: nat,
                  answers: Answers, commits: bool)
    | CallSettle(p: nat, payment: Payment, identity: Identity, receipt: Receipt)
    | RunTask(p: nat, task: Task, delivered: bool, acked: bool)
    | Crash(p: nat)
    | Land(signed: Signed)
    | Grow(height: int)

  /** The environment's side: receipts are true, at most one endpoint lies, transfers land in time. */
  ghost predicate Enabled(sys: System, step: Step) {
    match step
    case CallReplace(_, _, _, _, obs, faulty, _, _) =>
      var live := LiveIndex(sys.rows.attempts);
      live.Some? ==>
        forall i :: 0 <= i < |obs| && obs[i].endpoint != faulty ==>
          Honest(obs[i], sys.height, sys.landed, sys.rows.attempts[live.value].signed)
    case CallSettle(_, _, _, receipt) =>
      receipt.finalized ==> exists s :: s in sys.landed && s.signature == receipt.signature
    case RunTask(p, task, _, _) => task in sys.ProcessOf(p).tasks
    case Land(s) => s in sys.sent && sys.height <= s.lastValid && s !in sys.landed
    case Grow(height) => height >= sys.height
    case _ => true
  }

  /** A committed call changes the rows and leaves its follow-up with the calling process. */
  ghost function Called(sys: System, p: nat, e: Effect): System {
    var tasks := sys.ProcessOf(p).tasks;
    sys.(rows := e.rows,
         processes :=
           sys.processes[p := Process(e.rail, if e.task.Some? then tasks + multiset{e.task.value} else tasks)])
  }

  ghost function Became(sys: System, p: nat, rail: Option<Signed>, before: Task, after: multiset<Task>): System {
    sys.(processes := sys.processes[p := Process(rail, sys.ProcessOf(p).tasks - multiset{before} + after)])
  }

  ghost function Worked(sys: System, p: nat, task: Task, delivered: bool, acked: bool): System {
    var rail := sys.ProcessOf(p).rail;
    match task
    case Resend(s, mark) =>
      if PersistSigned(rail, s).None? then Became(sys, p, rail, task, multiset{})
      else Became(sys, p, Some(s), task, multiset{SendOwn(mark)})
    case SendOwn(mark) =>
      Became(sys, p, rail, task, if mark && acked then multiset{MarkSent} else multiset{})
      .(sent := if rail.Some? && delivered then sys.sent + {rail.value} else sys.sent)
    case MarkSent => Became(sys, p, rail, task, multiset{}).(rows := Mark(sys.rows, rail).rows)
  }

  ghost function Perform(sys: System, step: Step): System {
    if !Enabled(sys, step) then sys
    else
      match step
      case CallBegin(p, now, answers, commits) =>
        Called(sys, p, Begin(sys.rows, sys.ProcessOf(p).rail, now, answers, commits))
      case CallReplace(p, payment, identity, now, obs, _, answers, commits) =>
        var live := LiveIndex(sys.rows.attempts);
        var definitive :=
          live.Some? && Definitive(sys.rows.attempts[live.value].signed.lastValid, obs, identity.endpoints);
        var rail := sys.ProcessOf(p).rail;
        Called(sys, p, Replace(sys.rows, rail, payment, identity, now, definitive, answers, commits))
      case CallSettle(p, payment, identity, receipt) =>
        Called(sys, p, Settle(sys.rows, sys.ProcessOf(p).rail, payment, identity, receipt))
      case RunTask(p, task, delivered, acked) => Worked(sys, p, task, delivered, acked)
      case Crash(p) => sys.(processes := sys.processes - {p})
      case Land(s) => sys.(landed := sys.landed[s := sys.height])
      case Grow(height) => sys.(height := height)
  }

  // ---------------------------------------------------------------- the invariant

  /** A retired attempt has not landed, and its time has passed. */
  ghost predicate RetiredIsOver(rows: Rows, landed: map<Signed, int>, height: int) {
    forall i :: 0 <= i < |rows.attempts| && rows.attempts[i].landing.DefinitiveFailed? ==>
      rows.attempts[i].signed !in landed && height > rows.attempts[i].signed.lastValid
  }

  /** Only persisted attempts are ever sent, and only sent transfers land, in time. */
  ghost predicate ChainIsOurs(rows: Rows, sent: set<Signed>, landed: map<Signed, int>) {
    && (forall s :: s in sent ==> UsesSigned(rows.attempts, s))
    && (forall s :: s in landed ==> s in sent && landed[s] <= s.lastValid)
  }

  /** Work a process still holds concerns persisted attempts only. */
  ghost predicate WorkIsOurs(rows: Rows, process: Process) {
    && (forall mark :: SendOwn(mark) in process.tasks ==>
          process.rail.Some? && UsesSigned(rows.attempts, process.rail.value))
    && (forall s, mark :: Resend(s, mark) in process.tasks ==> UsesSigned(rows.attempts, s))
  }

  ghost predicate AllWorkIsOurs(sys: System) {
    forall p :: p in sys.processes ==> WorkIsOurs(sys.rows, sys.processes[p])
  }

  ghost predicate RefundLanded(rows: Rows, landed: map<Signed, int>) {
    rows.status.Refunded? ==> rows.attempts != [] && rows.attempts[|rows.attempts| - 1].signed in landed
  }

  ghost predicate Inv(sys: System) {
    && Coherent(sys.rows)
    && RetiredIsOver(sys.rows, sys.landed, sys.height)
    && ChainIsOurs(sys.rows, sys.sent, sys.landed)
    && AllWorkIsOurs(sys)
    && RefundLanded(sys.rows, sys.landed)
  }

  // ---------------------------------------------------------------- calls

  lemma MovedKeepsSigned(rows: Rows, rows': Rows, s: Signed)
    requires Moved(rows, rows') && UsesSigned(rows.attempts, s)
    ensures UsesSigned(rows'.attempts, s)
  {
    var i :| 0 <= i < |rows.attempts| && rows.attempts[i].signed == s;
    assert rows'.attempts[i].signed == s;
  }

  /** What a call's follow-up must satisfy: own bytes are persisted in the rows. */
  ghost predicate TaskIsOurs(e: Effect) {
    match e.task
    case None => true
    case Some(SendOwn(_)) => e.rail.Some? && UsesSigned(e.rows.attempts, e.rail.value)
    case Some(Resend(s, _)) => UsesSigned(e.rows.attempts, s)
    case Some(MarkSent) => true
  }

  lemma RowsKeepWork(sys: System, rows': Rows)
    requires AllWorkIsOurs(sys) && Moved(sys.rows, rows')
    ensures AllWorkIsOurs(sys.(rows := rows'))
  {
    forall s | UsesSigned(sys.rows.attempts, s) ensures UsesSigned(rows'.attempts, s) {
      MovedKeepsSigned(sys.rows, rows', s);
    }
    forall q | q in sys.processes ensures WorkIsOurs(rows', sys.processes[q]) {
      assert WorkIsOurs(sys.rows, sys.processes[q]);
    }
  }

  /** One process may drop work and take on more that is ours, as long as its rail does not change hands. */
  lemma ProcessKeepsWork(sys: System, p: nat, rail: Option<Signed>, tasks: multiset<Task>, more: multiset<Task>)
    requires AllWorkIsOurs(sys) && tasks <= sys.ProcessOf(p).tasks
    requires sys.ProcessOf(p).rail.Some? ==> rail == sys.ProcessOf(p).rail
    requires WorkIsOurs(sys.rows, Process(rail, more))
    ensures AllWorkIsOurs(sys.(processes := sys.processes[p := Process(rail, tasks + more)]))
  {
    assert WorkIsOurs(sys.rows, sys.ProcessOf(p));
  }

  lemma CalledKeepsWork(sys: System, p: nat, e: Effect)
    requires AllWorkIsOurs(sys) && Moved(sys.rows, e.rows) && TaskIsOurs(e)
    requires sys.ProcessOf(p).rail.Some? ==> e.rail == sys.ProcessOf(p).rail
    ensures AllWorkIsOurs(Called(sys, p, e))
  {
    RowsKeepWork(sys, e.rows);
    var more := if e.task.Some? then multiset{e.task.value} else multiset{};
    var tasks := sys.ProcessOf(p).tasks;
    ProcessKeepsWork(sys.(rows := e.rows), p, e.rail, tasks, more);
    assert tasks + multiset{} == tasks;
  }

  lemma CalledKeepsChain(sys: System, p: nat, e: Effect)
    requires ChainIsOurs(sys.rows, sys.sent, sys.landed) && Moved(sys.rows, e.rows)
    ensures ChainIsOurs(Called(sys, p, e).rows, Called(sys, p, e).sent, Called(sys, p, e).landed)
  {
    forall s | s in sys.sent ensures UsesSigned(e.rows.attempts, s) { MovedKeepsSigned(sys.rows, e.rows, s); }
  }

  /** No call but a replacement retires anything. */
  lemma NothingRetired(rows: Rows, rows': Rows, landed: map<Signed, int>, height: int)
    requires Moved(rows, rows') && |rows'.attempts| <= |rows.attempts| + (if rows.attempts == [] then 1 else 0)
    requires RetiredIsOver(rows, landed, height)
    ensures RetiredIsOver(rows', landed, height)
  {
    forall i | 0 <= i < |rows'.attempts| && rows'.attempts[i].landing.DefinitiveFailed?
      ensures rows'.attempts[i].signed !in landed && height > rows'.attempts[i].signed.lastValid
    {
      assert i < |rows.attempts| && rows.attempts[i].landing.DefinitiveFailed?;
    }
  }

  lemma BeginTask(rows: Rows, rail: Option<Signed>, now: int, answers: Answers, commits: bool)
    requires Coherent(rows)
    ensures var e := Begin(rows, rail, now, answers, commits);
            && TaskIsOurs(e) && (rail.Some? ==> e.rail == rail)
            && |e.rows.attempts| <= |rows.attempts| + (if rows.attempts == [] then 1 else 0)
            && (e.rows.status.Refunded? ==> e.rows == rows)
  {
    var e := Begin(rows, rail, now, answers, commits);
    if e.task.Some? && e.task.value.SendOwn? {
      assert e.rows.attempts[|e.rows.attempts| - 1].signed == e.rail.value;
    }
  }

  lemma BeginKeepsInv(sys: System, p: nat, now: int, answers: Answers, commits: bool)
    requires Inv(sys)
    ensures Inv(Called(sys, p, Begin(sys.rows, sys.ProcessOf(p).rail, now, answers, commits)))
  {
    var e := Begin(sys.rows, sys.ProcessOf(p).rail, now, answers, commits);
    BeginKeeps(sys.rows, sys.ProcessOf(p).rail, now, answers, commits);
    BeginTask(sys.rows, sys.ProcessOf(p).rail, now, answers, commits);
    CalledKeepsWork(sys, p, e);
    CalledKeepsChain(sys, p, e);
    NothingRetired(sys.rows, e.rows, sys.landed, sys.height);
  }

  lemma ReplaceTask(rows: Rows, rail: Option<Signed>, payment: Payment, identity: Identity, now: int, definitive: bool,
                    answers: Answers, commits: bool)
    requires Coherent(rows)
    ensures var e := Replace(rows, rail, payment, identity, now, definitive, answers, commits);
            && TaskIsOurs(e) && (rail.Some? ==> e.rail == rail)
            && (e.rows.status.Refunded? ==> e.rows == rows)
            && (e.rows != rows ==>
                  && |e.rows.attempts| == |rows.attempts| + 1
                  && !e.rows.attempts[|rows.attempts|].landing.DefinitiveFailed?
                  && LiveIndex(rows.attempts) == Some(|rows.attempts| - 1))
  {
    LiveIsNewest(rows);
    var e := Replace(rows, rail, payment, identity, now, definitive, answers, commits);
    if e.task.Some? { assert e.rows.attempts[|e.rows.attempts| - 1].signed == e.rail.value; }
  }

  /** The retired attempt is over, because the verdict that retired it is sound. */
  lemma OneRetired(rows: Rows, rows': Rows, landed: map<Signed, int>, height: int)
    requires Coherent(rows) && Moved(rows, rows') && rows.attempts != [] && |rows'.attempts| == |rows.attempts| + 1
    requires !rows'.attempts[|rows.attempts|].landing.DefinitiveFailed?
    requires RetiredIsOver(rows, landed, height)
    requires var s := rows.attempts[|rows.attempts| - 1].signed; s !in landed && height > s.lastValid
    ensures RetiredIsOver(rows', landed, height)
  {
    forall i | 0 <= i < |rows'.attempts| && rows'.attempts[i].landing.DefinitiveFailed?
      ensures rows'.attempts[i].signed !in landed && height > rows'.attempts[i].signed.lastValid
    {
      assert i == |rows.attempts| - 1 || rows.attempts[i].landing.DefinitiveFailed?;
    }
  }

  lemma ReplaceKeepsInv(sys: System, step: Step)
    requires Inv(sys) && step.CallReplace? && Enabled(sys, step)
    ensures Inv(Perform(sys, step))
  {
    var rows, rail := sys.rows, sys.ProcessOf(step.p).rail;
    var live := LiveIndex(rows.attempts);
    var definitive :=
      live.Some? && Definitive(rows.attempts[live.value].signed.lastValid, step.obs, step.identity.endpoints);
    var e := Replace(rows, rail, step.payment, step.identity, step.now, definitive, step.answers, step.commits);
    ReplaceKeeps(rows, rail, step.payment, step.identity, step.now, definitive, step.answers, step.commits);
    ReplaceTask(rows, rail, step.payment, step.identity, step.now, definitive, step.answers, step.commits);
    CalledKeepsWork(sys, step.p, e);
    CalledKeepsChain(sys, step.p, e);
    if e.rows != rows {
      VerdictIsSound(rows.attempts[live.value].signed, step.obs, step.identity.endpoints, step.faulty,
                     sys.height, sys.landed);
      OneRetired(rows, e.rows, sys.landed, sys.height);
    }
  }

  lemma SettleKeepsInv(sys: System, p: nat, payment: Payment, identity: Identity, receipt: Receipt)
    requires Inv(sys) && Enabled(sys, CallSettle(p, payment, identity, receipt))
    ensures Inv(Called(sys, p, Settle(sys.rows, sys.ProcessOf(p).rail, payment, identity, receipt)))
  {
    var e := Settle(sys.rows, sys.ProcessOf(p).rail, payment, identity, receipt);
    SettleKeeps(sys.rows, sys.ProcessOf(p).rail, payment, identity, receipt);
    CalledKeepsWork(sys, p, e);
    CalledKeepsChain(sys, p, e);
    NothingRetired(sys.rows, e.rows, sys.landed, sys.height);
    if e.rows != sys.rows { ReceiptLanded(sys, receipt.signature); }
  }

  /** A landed transfer with the newest attempt's signature is that attempt's transfer. */
  lemma ReceiptLanded(sys: System, signature: nat)
    requires Coherent(sys.rows) && ChainIsOurs(sys.rows, sys.sent, sys.landed) && sys.rows.attempts != []
    requires exists s :: s in sys.landed && s.signature == signature
    requires sys.rows.attempts[|sys.rows.attempts| - 1].signed.signature == signature
    ensures sys.rows.attempts[|sys.rows.attempts| - 1].signed in sys.landed
  {
    var s :| s in sys.landed && s.signature == signature;
    var i :| 0 <= i < |sys.rows.attempts| && sys.rows.attempts[i].signed == s;
  }

  // ---------------------------------------------------------------- work and environment

  lemma ResendKeepsInv(sys: System, p: nat, task: Task)
    requires Inv(sys) && task in sys.ProcessOf(p).tasks && task.Resend?
    ensures Inv(Worked(sys, p, task, true, true))
  {
    var rail, tasks := sys.ProcessOf(p).rail, sys.ProcessOf(p).tasks - multiset{task};
    assert WorkIsOurs(sys.rows, sys.ProcessOf(p));
    if PersistSigned(rail, task.signed).None? {
      ProcessKeepsWork(sys, p, rail, tasks, multiset{});
    } else {
      ProcessKeepsWork(sys, p, Some(task.signed), tasks, multiset{SendOwn(task.mark)});
    }
  }

  lemma SendKeepsInv(sys: System, p: nat, task: Task, delivered: bool, acked: bool)
    requires Inv(sys) && task in sys.ProcessOf(p).tasks && task.SendOwn?
    ensures Inv(Worked(sys, p, task, delivered, acked))
  {
    var rail, tasks := sys.ProcessOf(p).rail, sys.ProcessOf(p).tasks - multiset{task};
    assert WorkIsOurs(sys.rows, sys.ProcessOf(p));
    ProcessKeepsWork(sys, p, rail, tasks, if task.mark && acked then multiset{MarkSent} else multiset{});
  }

  lemma MarkKeepsInv(sys: System, p: nat)
    requires Inv(sys)
    ensures Inv(Worked(sys, p, MarkSent, true, true))
  {
    var rail := sys.ProcessOf(p).rail;
    var rows' := Mark(sys.rows, rail).rows;
    MarkKeeps(sys.rows, rail);
    MarkLeaves(sys.rows, rail);
    NothingRetired(sys.rows, rows', sys.landed, sys.height);
    CalledKeepsChain(sys, p, Effect(rows', rail, None, Ack));
    ProcessKeepsWork(sys, p, rail, sys.ProcessOf(p).tasks - multiset{MarkSent}, multiset{});
    RowsKeepWork(Became(sys, p, rail, MarkSent, multiset{}), rows');
  }

  lemma MarkLeaves(rows: Rows, rail: Option<Signed>)
    ensures var rows' := Mark(rows, rail).rows; rows'.status == rows.status && |rows'.attempts| == |rows.attempts|
    ensures Coherent(rows) && rows.status.Refunded? ==> Mark(rows, rail).rows == rows
  {
  }

  lemma LandKeepsInv(sys: System, s: Signed)
    requires Inv(sys) && Enabled(sys, Land(s))
    ensures Inv(Perform(sys, Land(s)))
  {
  }

  lemma StepKeepsInv(sys: System, step: Step)
    requires Inv(sys)
    ensures Inv(Perform(sys, step))
  {
    if Enabled(sys, step) {
      match step
      case CallBegin(p, now, answers, commits) => BeginKeepsInv(sys, p, now, answers, commits);
      case CallReplace(_, _, _, _, _, _, _, _) => ReplaceKeepsInv(sys, step);
      case CallSettle(p, payment, identity, receipt) => SettleKeepsInv(sys, p, payment, identity, receipt);
      case RunTask(p, task, delivered, acked) =>
        match task {
          case MarkSent => MarkKeepsInv(sys, p);
          case SendOwn(_) => SendKeepsInv(sys, p, task, delivered, acked);
          case Resend(_, _) => ResendKeepsInv(sys, p, task);
        }
      case Land(s) => LandKeepsInv(sys, s);
      case Crash(_) =>
      case Grow(_) =>
    }
  }

  // ---------------------------------------------------------------- every run

  /** An approved refund nobody has touched. */
  ghost predicate Initial(sys: System) {
    sys.rows == Rows(Approved, []) && sys.processes == map[] && sys.sent == {} && sys.landed == map[]
  }

  ghost function Run(sys: System, steps: seq<Step>): System {
    if steps == [] then sys else Perform(Run(sys, steps[..|steps| - 1]), steps[|steps| - 1])
  }

  lemma {:induction false} EveryRunKeepsInv(sys: System, steps: seq<Step>)
    requires Initial(sys)
    ensures Inv(Run(sys, steps))
  {
    if steps != [] {
      EveryRunKeepsInv(sys, steps[..|steps| - 1]);
      StepKeepsInv(Run(sys, steps[..|steps| - 1]), steps[|steps| - 1]);
    }
  }

  /**
   However calls, crashes and the chain interleave, at most one signed transfer
   ever lands; all attempts but the newest have definitively failed.
   */
  lemma AtMostOneLands(sys: System, steps: seq<Step>, s: Signed, t: Signed)
    requires Initial(sys)
    requires s in Run(sys, steps).landed && t in Run(sys, steps).landed
    ensures s == t
    ensures var attempts := Run(sys, steps).rows.attempts;
            attempts != [] && s == attempts[|attempts| - 1].signed
    ensures forall i :: 0 <= i < |Run(sys, steps).rows.attempts| - 1 ==>
              Run(sys, steps).rows.attempts[i].landing.DefinitiveFailed?
  {
    EveryRunKeepsInv(sys, steps);
    LandedIsNewest(Run(sys, steps), s);
    LandedIsNewest(Run(sys, steps), t);
  }

  lemma LandedIsNewest(sys: System, s: Signed)
    requires Inv(sys) && s in sys.landed
    ensures sys.rows.attempts != [] && s == sys.rows.attempts[|sys.rows.attempts| - 1].signed
  {
    var i :| 0 <= i < |sys.rows.attempts| && sys.rows.attempts[i].signed == s;
    assert !sys.rows.attempts[i].landing.DefinitiveFailed?;
  }

  /** A refund recorded as done has exactly one finalized attempt, and that transfer landed. */
  lemma RefundedMeansPaidOnce(sys: System, steps: seq<Step>)
    requires Initial(sys)
    requires Run(sys, steps).rows.status.Refunded?
    ensures OneFinalized(Run(sys, steps).rows.attempts)
    ensures var attempts := Run(sys, steps).rows.attempts;
            && attempts != [] && attempts[|attempts| - 1].landing.Finalized?
            && Run(sys, steps).landed.Keys == {attempts[|attempts| - 1].signed}
  {
    EveryRunKeepsInv(sys, steps);
    FinalizedOnce(Run(sys, steps).rows);
    OnlyNewestLanded(Run(sys, steps));
  }

  lemma OnlyNewestLanded(sys: System)
    requires Inv(sys) && sys.rows.status.Refunded?
    ensures sys.landed.Keys == {sys.rows.attempts[|sys.rows.attempts| - 1].signed}
  {
    forall s | s in sys.landed ensures s == sys.rows.attempts[|sys.rows.attempts| - 1].signed {
      LandedIsNewest(sys, s);
    }
  }

  /** At any time at most one attempt is live, and only the newest. */
  lemma OneLiveAttempt(sys: System, steps: seq<Step>, i: nat)
    requires Initial(sys) && i < |Run(sys, steps).rows.attempts|
    requires Run(sys, steps).rows.attempts[i].landing.IsLive()
    ensures i == |Run(sys, steps).rows.attempts| - 1 && Run(sys, steps).rows.status.Sending?
  {
    EveryRunKeepsInv(sys, steps);
  }

  // ---------------------------------------------------------------- who can replace

  /**
   A process whose rail still holds an earlier attempt's bytes can never commit
   a replacement: it takes one that has restarted, or that never sent.
   */
  lemma ReplacementNeedsFreshRail(rows: Rows, rail: Option<Signed>, payment: Payment, identity: Identity, now: int,
                                  definitive: bool, answers: Answers, commits: bool)
    requires Coherent(rows) && rail.Some? && UsesSigned(rows.attempts, rail.value)
    ensures Replace(rows, rail, payment, identity, now, definitive, answers, commits).rows == rows
  {
    ReplacesIff(rows, rail, payment, identity, now, definitive, answers, commits);
    var i :| 0 <= i < |rows.attempts| && rows.attempts[i].signed == rail.value;
    if rail.value == answers.offer { assert UsesSignature(rows.attempts, answers.offer.signature); }
  }

  lemma RunThen(sys: System, steps: seq<Step>, step: Step)
    ensures Run(sys, steps + [step]) == Perform(Run(sys, steps), step)
  {
    assert (steps + [step])[..|steps|] == steps;
  }

  /** The sender of `first`, which has expired unseen, asks to send `second` instead. */
  ghost function AskToReplace(payment: Payment, identity: Identity, second: Signed, height: int): Step {
    CallReplace(0, payment, identity, 60, Absences(height), 0, Answers(Unsure, Some(height), second, false), true)
  }

  ghost function Expire(first: Signed, height: int): seq<Step> {
    [CallBegin(0, 0, Answers(Unsure, None, first, false), true), RunTask(0, SendOwn(true), true, false),
     CallBegin(0, LEASE, Answers(Unsure, None, first, false), true), Grow(height)]
  }

  /** All three endpoints truthfully report the height and no such signature. */
  ghost function Absences(height: int): seq<Observation> {
    [Observation(1, Some(height), Some(false), false), Observation(2, Some(height), Some(false), false),
     Observation(3, Some(height), Some(false), false)]
  }

  lemma FirstIsSent(sys: System, first: Signed, height: int)
    requires Initial(sys) && 0 < first.lastValid
    ensures var sent := Run(sys, Expire(first, height)[..2]);
            && sent.rows == Rows(Sending, [Attempt(1, None, first, Prepared, LEASE)])
            && sent.ProcessOf(0).rail == Some(first) && sent.height == sys.height && sent.landed == map[]
  {
    var steps := Expire(first, height);
    RunThen(sys, [], steps[0]);
    assert [] + [steps[0]] == steps[..1];
    FirstIsPrepared(sys, first);
    var begun := Run(sys, steps[..1]);
    assert begun.rows == Rows(Sending, [Attempt(1, None, first, Prepared, LEASE)])
        && begun.ProcessOf(0) == Process(Some(first), multiset{SendOwn(true)}) && begun.landed == map[];
    RunThen(sys, steps[..1], steps[1]);
    assert steps[..1] + [steps[1]] == steps[..2];
  }

  lemma FirstIsUnknown(sys: System, first: Signed, height: int)
    requires Initial(sys) && 0 < first.lastValid
    ensures var end := Run(sys, Expire(first, height)[..3]);
            && end.rows == Rows(Sending, [Attempt(1, None, first, Unknown, LEASE)])
            && end.ProcessOf(0).rail == Some(first) && end.height == sys.height && end.landed == map[]
  {
    var steps := Expire(first, height);
    FirstIsSent(sys, first, height);
    RunThen(sys, steps[..2], steps[2]);
    assert steps[..2] + [steps[2]] == steps[..3];
    PreparedBecomesUnknown(Run(sys, steps[..2]).rows, Some(first), first);
  }

  lemma FirstExpires(sys: System, first: Signed, height: int)
    requires Initial(sys) && 0 < first.lastValid < height && sys.height <= height
    ensures var end := Run(sys, Expire(first, height));
            && end.rows == Rows(Sending, [Attempt(1, None, first, Unknown, LEASE)])
            && end.ProcessOf(0).rail == Some(first) && end.height == height && end.landed == map[]
  {
    var steps := Expire(first, height);
    FirstIsUnknown(sys, first, height);
    RunThen(sys, steps[..3], steps[3]);
    assert steps[..3] + [steps[3]] == steps;
  }

  lemma FirstIsPrepared(sys: System, first: Signed)
    requires Initial(sys) && 0 < first.lastValid
    ensures var e := Begin(sys.rows, None, 0, Answers(Unsure, None, first, false), true);
            && e.rows == Rows(Sending, [Attempt(1, None, first, Prepared, LEASE)])
            && e.rail == Some(first) && e.task == Some(SendOwn(true))
  {
  }

  lemma PreparedBecomesUnknown(rows: Rows, rail: Option<Signed>, first: Signed)
    requires rows == Rows(Sending, [Attempt(1, None, first, Prepared, LEASE)])
    ensures Begin(rows, rail, LEASE, Answers(Unsure, None, first, false), true)
         == Effect(Rows(Sending, [Attempt(1, None, first, Unknown, LEASE)]), rail, None, Ack)
  {
  }

  /**
   The case is reached: a first attempt expires unseen, every endpoint says so,
   and its own sender asks for a fresh replacement. Nothing changes, although a
   process with an empty rail would commit the same request.
   */
  lemma SenderCannotReplace(sys: System, payment: Payment, identity: Identity, first: Signed, second: Signed,
                            height: int)
    requires Initial(sys) && 0 < first.lastValid < height && sys.height <= height
    requires second.signature != first.signature && second.lastValid > 0
    requires identity.endpoints == {1, 2, 3} && payment.fingerprint == identity.fingerprint
    ensures var end, ask := Run(sys, Expire(first, height)), AskToReplace(payment, identity, second, height);
            && Enabled(end, ask) && Definitive(first.lastValid, ask.obs, identity.endpoints)
            && Run(sys, Expire(first, height) + [ask]).rows == end.rows
            && Replace(end.rows, None, payment, identity, 60, true, ask.answers, true).rows != end.rows
  {
    FirstExpires(sys, first, height);
    AbsencesAreDefinitive(first.lastValid, height);
    var end, ask := Run(sys, Expire(first, height)), AskToReplace(payment, identity, second, height);
    RunThen(sys, Expire(first, height), ask);
    ReplacesIff(end.rows, Some(first), payment, identity, 60, true, ask.answers, true);
    ReplacesIff(end.rows, None, payment, identity, 60, true, ask.answers, true);
  }

  lemma AbsencesAreDefinitive(lastValid: int, height: int)
    requires height > lastValid
    ensures Definitive(lastValid, Absences(height), {1, 2, 3})
  {
    var obs := Absences(height);
    assert obs[0].endpoint == 1 && obs[1].endpoint == 2 && obs[2].endpoint == 3;
    assert Endpoints(obs) == {1, 2, 3};
    assert obs[..2][..1] == [obs[0]] && obs[..2][..1][..0] == [];
    assert FailVotes(lastValid, obs[..2][..1]) == 1;
    assert FailVotes(lastValid, obs[..2]) == 2;
  }
}
