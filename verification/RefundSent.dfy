/**
 What `Broadcast` is worth. With truthful lookups and acknowledgements, a mark
 made by the process that sent the attempt is true; a mark is written to
 whichever attempt is live, and one that comes late can hit a replacement that
 nobody sent. Such a refund is lost.
 */
module RefundSent {
  import opened Money
  import opened Refund
  import opened Quorum
  import opened RefundRuns

  // ---------------------------------------------------------------- honest runs

  /** A lookup finds only what was sent, and a send is acknowledged only if it was delivered. */
  ghost predicate Truthful(sys: System, step: Step) {
    match step
    case CallBegin(_, _, answers, _) =>
      var live := LiveIndex(sys.rows.attempts);
      live.Some? && answers.presence.Present? ==> sys.rows.attempts[live.value].signed in sys.sent
    case RunTask(_, task, delivered, acked) => task.SendOwn? && acked ==> delivered
    case _ => true
  }

  /** A process marks only while its own bytes are the newest attempt's. */
  ghost predicate MarksItsOwn(sys: System, step: Step) {
    step.RunTask? && step.task.MarkSent? && sys.rows.attempts != [] ==>
      sys.ProcessOf(step.p).rail == Some(sys.rows.attempts[|sys.rows.attempts| - 1].signed)
  }

  ghost predicate AllTruthful(sys: System, steps: seq<Step>) {
    forall k :: 0 <= k < |steps| ==> Truthful(Run(sys, steps[..k]), steps[k])
  }

  ghost predicate AllMarkTheirOwn(sys: System, steps: seq<Step>) {
    forall k :: 0 <= k < |steps| ==> MarksItsOwn(Run(sys, steps[..k]), steps[k])
  }

  /** Whoever is about to mark has sent what its rail keeps. */
  ghost predicate MarkersHaveSent(sys: System) {
    forall p :: p in sys.processes && MarkSent in sys.processes[p].tasks ==>
      sys.processes[p].rail.Some? && sys.processes[p].rail.value in sys.sent
  }

  ghost predicate BroadcastsAreSent(sys: System) {
    forall i :: 0 <= i < |sys.rows.attempts| && sys.rows.attempts[i].landing.Broadcast? ==>
      sys.rows.attempts[i].signed in sys.sent
  }

  // ---------------------------------------------------------------- markers have sent

  lemma CalledKeepsMarkers(sys: System, p: nat, e: Effect)
    requires MarkersHaveSent(sys) && (e.task.Some? ==> !e.task.value.MarkSent?)
    requires sys.ProcessOf(p).rail.Some? ==> e.rail == sys.ProcessOf(p).rail
    ensures MarkersHaveSent(Called(sys, p, e))
  {
  }

  lemma SendKeepsMarkers(sys: System, p: nat, task: Task, delivered: bool, acked: bool)
    requires MarkersHaveSent(sys) && AllWorkIsOurs(sys) && task in sys.ProcessOf(p).tasks && task.SendOwn?
    requires acked ==> delivered
    ensures MarkersHaveSent(Worked(sys, p, task, delivered, acked))
  {
    assert WorkIsOurs(sys.rows, sys.ProcessOf(p));
  }

  lemma ResendKeepsMarkers(sys: System, p: nat, task: Task)
    requires MarkersHaveSent(sys) && task in sys.ProcessOf(p).tasks && task.Resend?
    ensures MarkersHaveSent(Worked(sys, p, task, true, true))
  {
  }

  lemma BeginLeavesMarkers(rows: Rows, rail: Option<Signed>, now: int, answers: Answers, commits: bool)
    requires Coherent(rows)
    ensures var e := Begin(rows, rail, now, answers, commits);
            (e.task.Some? ==> !e.task.value.MarkSent?) && (rail.Some? ==> e.rail == rail)
  {
    BeginTask(rows, rail, now, answers, commits);
  }

  lemma ReplaceLeavesMarkers(rows: Rows, rail: Option<Signed>, payment: Payment, identity: Identity, now: int,
                             definitive: bool, answers: Answers, commits: bool)
    requires Coherent(rows)
    ensures var e := Replace(rows, rail, payment, identity, now, definitive, answers, commits);
            (e.task.Some? ==> !e.task.value.MarkSent?) && (rail.Some? ==> e.rail == rail)
  {
    ReplaceTask(rows, rail, payment, identity, now, definitive, answers, commits);
  }

  lemma StepKeepsMarkers(sys: System, step: Step)
    requires Inv(sys) && MarkersHaveSent(sys) && Truthful(sys, step)
    ensures MarkersHaveSent(Perform(sys, step))
  {
    if Enabled(sys, step) {
      match step
      case CallBegin(p, now, answers, commits) =>
        var rail := sys.ProcessOf(p).rail;
        BeginLeavesMarkers(sys.rows, rail, now, answers, commits);
        CalledKeepsMarkers(sys, p, Begin(sys.rows, rail, now, answers, commits));
      case CallReplace(p, payment, identity, now, obs, _, answers, commits) =>
        var live, rail := LiveIndex(sys.rows.attempts), sys.ProcessOf(p).rail;
        var definitive :=
          live.Some? && Definitive(sys.rows.attempts[live.value].signed.lastValid, obs, identity.endpoints);
        ReplaceLeavesMarkers(sys.rows, rail, payment, identity, now, definitive, answers, commits);
        CalledKeepsMarkers(sys, p, Replace(sys.rows, rail, payment, identity, now, definitive, answers, commits));
      case CallSettle(p, payment, identity, receipt) =>
        CalledKeepsMarkers(sys, p, Settle(sys.rows, sys.ProcessOf(p).rail, payment, identity, receipt));
      case RunTask(p, task, delivered, acked) =>
        match task {
          case SendOwn(_) => SendKeepsMarkers(sys, p, task, delivered, acked);
          case Resend(_, _) => ResendKeepsMarkers(sys, p, task);
          case MarkSent =>
        }
      case _ =>
    }
  }

  lemma {:induction false} RunKeepsMarkers(sys: System, steps: seq<Step>)
    requires Initial(sys) && AllTruthful(sys, steps)
    ensures MarkersHaveSent(Run(sys, steps))
  {
    if steps != [] {
      var init := steps[..|steps| - 1];
      forall k | 0 <= k < |init| ensures Truthful(Run(sys, init[..k]), init[k]) {
        assert init[..k] == steps[..k];
        assert Truthful(Run(sys, steps[..k]), steps[k]);
      }
      RunKeepsMarkers(sys, init);
      EveryRunKeepsInv(sys, init);
      StepKeepsMarkers(Run(sys, init), steps[|steps| - 1]);
    }
  }

  /** A mark by the process that holds the newest attempt's bytes is true: that attempt has been sent. */
  lemma OwnMarkIsTrue(sys: System, steps: seq<Step>, p: nat)
    requires Initial(sys) && AllTruthful(sys, steps) && MarkSent in Run(sys, steps).ProcessOf(p).tasks
    requires var rows := Run(sys, steps).rows;
             rows.attempts != [] && Run(sys, steps).ProcessOf(p).rail == Some(rows.attempts[|rows.attempts| - 1].signed)
    ensures var end := Run(sys, steps); end.rows.attempts[|end.rows.attempts| - 1].signed in end.sent
  {
    RunKeepsMarkers(sys, steps);
  }

  // ---------------------------------------------------------------- broadcast attempts are sent

  /** In coherent rows only the newest attempt can stand as broadcast. */
  lemma NewestDecides(sys: System)
    requires Coherent(sys.rows)
    requires sys.rows.status.Sending? && sys.rows.attempts[|sys.rows.attempts| - 1].landing.Broadcast? ==>
               sys.rows.attempts[|sys.rows.attempts| - 1].signed in sys.sent
    ensures BroadcastsAreSent(sys)
  {
  }

  lemma BeginMarksSent(sys: System, p: nat, now: int, answers: Answers, commits: bool)
    requires Coherent(sys.rows) && BroadcastsAreSent(sys) && Truthful(sys, CallBegin(p, now, answers, commits))
    ensures BroadcastsAreSent(Called(sys, p, Begin(sys.rows, sys.ProcessOf(p).rail, now, answers, commits)))
  {
    var rail := sys.ProcessOf(p).rail;
    BeginKeeps(sys.rows, rail, now, answers, commits);
    if sys.rows.status.Sending? {
      LiveIsNewest(sys.rows);
      ResumeIsExact(sys.rows, rail, now, answers, commits);
    } else if sys.rows.status.Approved? {
      StartIsExact(sys.rows, rail, now, answers, commits);
    }
    NewestDecides(Called(sys, p, Begin(sys.rows, rail, now, answers, commits)));
  }

  lemma ReplacementIsPrepared(rows: Rows, rail: Option<Signed>, payment: Payment, identity: Identity, now: int,
                              definitive: bool, answers: Answers, commits: bool)
    requires Coherent(rows)
    ensures var e := Replace(rows, rail, payment, identity, now, definitive, answers, commits);
            e.rows != rows ==> e.rows.attempts != [] && e.rows.attempts[|e.rows.attempts| - 1].landing.Prepared?
  {
  }

  lemma ReplaceMarksNothing(sys: System, p: nat, payment: Payment, identity: Identity, now: int, definitive: bool,
                            answers: Answers, commits: bool)
    requires Coherent(sys.rows) && BroadcastsAreSent(sys)
    ensures var rail := sys.ProcessOf(p).rail;
            BroadcastsAreSent(
              Called(sys, p, Replace(sys.rows, rail, payment, identity, now, definitive, answers, commits)))
  {
    var rail := sys.ProcessOf(p).rail;
    var e := Replace(sys.rows, rail, payment, identity, now, definitive, answers, commits);
    ReplaceKeeps(sys.rows, rail, payment, identity, now, definitive, answers, commits);
    ReplacementIsPrepared(sys.rows, rail, payment, identity, now, definitive, answers, commits);
    NewestDecides(Called(sys, p, e));
  }

  lemma SettleMarksNothing(sys: System, p: nat, payment: Payment, identity: Identity, receipt: Receipt)
    requires Coherent(sys.rows) && BroadcastsAreSent(sys)
    ensures BroadcastsAreSent(Called(sys, p, Settle(sys.rows, sys.ProcessOf(p).rail, payment, identity, receipt)))
  {
    SettleKeeps(sys.rows, sys.ProcessOf(p).rail, payment, identity, receipt);
    NewestDecides(Called(sys, p, Settle(sys.rows, sys.ProcessOf(p).rail, payment, identity, receipt)));
  }

  lemma OwnMarkKeepsSent(sys: System, p: nat)
    requires Inv(sys) && BroadcastsAreSent(sys) && MarkersHaveSent(sys) && MarkSent in sys.ProcessOf(p).tasks
    requires sys.rows.attempts != [] ==>
               sys.ProcessOf(p).rail == Some(sys.rows.attempts[|sys.rows.attempts| - 1].signed)
    ensures BroadcastsAreSent(Worked(sys, p, MarkSent, true, true))
  {
    MarkKeeps(sys.rows, sys.ProcessOf(p).rail);
    MarkLeaves(sys.rows, sys.ProcessOf(p).rail);
    NewestDecides(Worked(sys, p, MarkSent, true, true));
  }

  lemma StepMarksSent(sys: System, step: Step)
    requires Inv(sys) && MarkersHaveSent(sys) && BroadcastsAreSent(sys)
    requires Truthful(sys, step) && MarksItsOwn(sys, step)
    ensures BroadcastsAreSent(Perform(sys, step))
  {
    if Enabled(sys, step) {
      match step
      case CallBegin(p, now, answers, commits) => BeginMarksSent(sys, p, now, answers, commits);
      case CallReplace(p, payment, identity, now, obs, _, answers, commits) =>
        var live := LiveIndex(sys.rows.attempts);
        var definitive :=
          live.Some? && Definitive(sys.rows.attempts[live.value].signed.lastValid, obs, identity.endpoints);
        ReplaceMarksNothing(sys, p, payment, identity, now, definitive, answers, commits);
      case CallSettle(p, payment, identity, receipt) => SettleMarksNothing(sys, p, payment, identity, receipt);
      case RunTask(p, task, _, _) => if task.MarkSent? { OwnMarkKeepsSent(sys, p); }
      case _ =>
    }
  }

  /** In every truthful run in which processes mark only their own, an attempt that stands as broadcast was sent. */
  lemma {:induction false} BroadcastWasSent(sys: System, steps: seq<Step>)
    requires Initial(sys) && AllTruthful(sys, steps) && AllMarkTheirOwn(sys, steps)
    ensures BroadcastsAreSent(Run(sys, steps))
  {
    if steps != [] {
      var init := steps[..|steps| - 1];
      forall k | 0 <= k < |init|
        ensures Truthful(Run(sys, init[..k]), init[k]) && MarksItsOwn(Run(sys, init[..k]), init[k])
      {
        assert init[..k] == steps[..k];
        assert Truthful(Run(sys, steps[..k]), steps[k]) && MarksItsOwn(Run(sys, steps[..k]), steps[k]);
      }
      BroadcastWasSent(sys, init);
      EveryRunKeepsInv(sys, init);
      RunKeepsMarkers(sys, init);
      StepMarksSent(Run(sys, init), steps[|steps| - 1]);
    }
  }

  // ---------------------------------------------------------------- a lost refund

  /** The newest attempt stands as broadcast, was never sent, and nobody is about to send it. */
  ghost predicate Lost(sys: System) {
    && Inv(sys) && sys.rows.status.Sending?
    && var newest := sys.rows.attempts[|sys.rows.attempts| - 1];
       && newest.landing.Broadcast? && newest.signed !in sys.sent
       && NobodySends(sys.processes, newest.signed)
  }

  ghost predicate NobodySends(processes: map<nat, Process>, s: Signed) {
    forall p :: p in processes ==> NotSending(processes[p], s)
  }

  lemma OneMoreDoesNotSend(processes: map<nat, Process>, p: nat, process: Process, s: Signed)
    requires NobodySends(processes, s) && NotSending(process, s)
    ensures NobodySends(processes[p := process], s)
  {
  }

  ghost predicate NotSending(process: Process, s: Signed) {
    && (forall mark :: SendOwn(mark) in process.tasks ==> process.rail != Some(s))
    && (forall mark :: Resend(s, mark) !in process.tasks)
  }

  lemma LostCallsChangeNothing(sys: System, rail: Option<Signed>)
    requires Lost(sys)
    ensures forall now, answers, commits ::
              Begin(sys.rows, rail, now, answers, commits) == Fail(sys.rows, rail, AlreadyDone)
    ensures Mark(sys.rows, rail).rows == sys.rows
  {
    forall now, answers, commits
      ensures Begin(sys.rows, rail, now, answers, commits) == Fail(sys.rows, rail, AlreadyDone)
    {
      ResumeIsExact(sys.rows, rail, now, answers, commits);
    }
    MarkKeeps(sys.rows, rail);
  }

  lemma LostIsNotReplaced(sys: System, rail: Option<Signed>, payment: Payment, identity: Identity, now: int,
                          definitive: bool, answers: Answers, commits: bool)
    requires Lost(sys)
    ensures Replace(sys.rows, rail, payment, identity, now, definitive, answers, commits)
         == Fail(sys.rows, rail, Refund.Refused)
  {
    LiveIsNewest(sys.rows);
  }

  lemma LostIsNotSettled(sys: System, rail: Option<Signed>, payment: Payment, identity: Identity, receipt: Receipt)
    requires Lost(sys)
    requires receipt.finalized ==> exists s :: s in sys.landed && s.signature == receipt.signature
    ensures var e := Settle(sys.rows, rail, payment, identity, receipt);
            e.rows == sys.rows && e.rail == rail && e.task.None?
  {
    SettlesIff(sys.rows, rail, payment, identity, receipt);
    var newest := sys.rows.attempts[|sys.rows.attempts| - 1];
    if receipt.finalized && receipt.signature == newest.signed.signature { ReceiptLanded(sys, receipt.signature); }
  }

  lemma LostAfter(sys: System, sys': System)
    requires Lost(sys) && Inv(sys') && sys'.rows == sys.rows
    requires sys.rows.attempts[|sys.rows.attempts| - 1].signed !in sys'.sent
    requires NobodySends(sys'.processes, sys.rows.attempts[|sys.rows.attempts| - 1].signed)
    ensures Lost(sys')
  {
  }

  /** A call that changes neither rows nor rail and leaves nothing to do. */
  lemma LostAfterCall(sys: System, p: nat, e: Effect)
    requires Lost(sys) && e.rows == sys.rows && e.rail == sys.ProcessOf(p).rail && e.task.None?
    requires Inv(Called(sys, p, e))
    ensures Lost(Called(sys, p, e))
  {
    LostAfter(sys, Called(sys, p, e));
  }

  lemma ResendsOther(process: Process, task: Task, s: Signed)
    requires NotSending(process, s) && task in process.tasks && task.Resend?
    ensures NotSending(Process(process.rail, process.tasks - multiset{task} + multiset{}), s)
    ensures NotSending(Process(Some(task.signed), process.tasks - multiset{task} + multiset{SendOwn(task.mark)}), s)
  {
    assert task == Resend(task.signed, task.mark);
  }

  lemma LostAfterResend(sys: System, p: nat, task: Task)
    requires Lost(sys) && task in sys.ProcessOf(p).tasks && task.Resend? && Inv(Worked(sys, p, task, true, true))
    ensures Lost(Worked(sys, p, task, true, true))
  {
    var s, after := sys.rows.attempts[|sys.rows.attempts| - 1].signed, Worked(sys, p, task, true, true);
    ResendsOther(sys.ProcessOf(p), task, s);
    OneMoreDoesNotSend(sys.processes, p, after.processes[p], s);
    LostAfter(sys, Worked(sys, p, task, true, true));
  }

  lemma LostAfterSend(sys: System, p: nat, task: Task, delivered: bool, acked: bool)
    requires Lost(sys) && task in sys.ProcessOf(p).tasks && task.SendOwn? && Inv(Worked(sys, p, task, delivered, acked))
    ensures Lost(Worked(sys, p, task, delivered, acked))
  {
    assert NotSending(sys.ProcessOf(p), sys.rows.attempts[|sys.rows.attempts| - 1].signed);
    LostAfter(sys, Worked(sys, p, task, delivered, acked));
  }

  lemma LostAfterMark(sys: System, p: nat)
    requires Lost(sys) && MarkSent in sys.ProcessOf(p).tasks && Inv(Worked(sys, p, MarkSent, true, true))
    ensures Lost(Worked(sys, p, MarkSent, true, true)) && Worked(sys, p, MarkSent, true, true).rows == sys.rows
  {
    LostCallsChangeNothing(sys, sys.ProcessOf(p).rail);
    assert NotSending(sys.ProcessOf(p), sys.rows.attempts[|sys.rows.attempts| - 1].signed);
    LostAfter(sys, Worked(sys, p, MarkSent, true, true));
  }

  lemma LostAfterWork(sys: System, p: nat, task: Task, delivered: bool, acked: bool)
    requires Lost(sys) && task in sys.ProcessOf(p).tasks && Inv(Worked(sys, p, task, delivered, acked))
    ensures Lost(Worked(sys, p, task, delivered, acked))
    ensures Worked(sys, p, task, delivered, acked).rows == sys.rows
  {
    match task
    case Resend(_, _) => LostAfterResend(sys, p, task);
    case SendOwn(_) => LostAfterSend(sys, p, task, delivered, acked);
    case MarkSent => LostAfterMark(sys, p);
  }

  lemma StepStaysLost(sys: System, step: Step)
    requires Lost(sys)
    ensures Lost(Perform(sys, step)) && Perform(sys, step).rows == sys.rows
  {
    StepKeepsInv(sys, step);
    if Enabled(sys, step) {
      match step
      case CallBegin(p, now, answers, commits) =>
        LostCallsChangeNothing(sys, sys.ProcessOf(p).rail);
        LostAfterCall(sys, p, Begin(sys.rows, sys.ProcessOf(p).rail, now, answers, commits));
      case CallReplace(p, payment, identity, now, obs, _, answers, commits) =>
        var live, rail := LiveIndex(sys.rows.attempts), sys.ProcessOf(p).rail;
        var definitive :=
          live.Some? && Definitive(sys.rows.attempts[live.value].signed.lastValid, obs, identity.endpoints);
        LostIsNotReplaced(sys, rail, payment, identity, now, definitive, answers, commits);
        LostAfterCall(sys, p, Replace(sys.rows, rail, payment, identity, now, definitive, answers, commits));
      case CallSettle(p, payment, identity, receipt) =>
        LostIsNotSettled(sys, sys.ProcessOf(p).rail, payment, identity, receipt);
        LostAfterCall(sys, p, Settle(sys.rows, sys.ProcessOf(p).rail, payment, identity, receipt));
      case RunTask(p, task, delivered, acked) => LostAfterWork(sys, p, task, delivered, acked);
      case _ => LostAfter(sys, Perform(sys, step));
    }
  }

  /** A lost refund stays lost: no call, no retry and no landing ever changes its rows again. */
  lemma {:induction false} LostForever(sys: System, steps: seq<Step>)
    requires Lost(sys)
    ensures Lost(Run(sys, steps)) && Run(sys, steps).rows == sys.rows
    decreases |steps|
  {
    if steps != [] {
      LostForever(sys, steps[..|steps| - 1]);
      StepStaysLost(Run(sys, steps[..|steps| - 1]), steps[|steps| - 1]);
    }
  }

  // ---------------------------------------------------------------- a run that loses a refund

  /** Process 0 sends `first` and is slow to mark it; process 1 replaces it and crashes before it sends. */
  ghost function LateMark(payment: Payment, identity: Identity, first: Signed, second: Signed, height: int): seq<Step> {
    [CallBegin(0, 0, Answers(Unsure, None, first, false), true),
     RunTask(0, SendOwn(true), true, true),
     CallBegin(1, LEASE, Answers(Unsure, None, first, false), true),
     Grow(height),
     CallReplace(1, payment, identity, 60, Absences(height), 0, Answers(Unsure, Some(height), second, false), true),
     Crash(1),
     RunTask(0, MarkSent, true, true)]
  }

  ghost function First(first: Signed, landing: Landing): Attempt { Attempt(1, None, first, landing, LEASE) }

  ghost function Replaced(first: Signed, second: Signed, landing: Landing): Rows {
    Rows(Sending, [First(first, DefinitiveFailed), Attempt(2, Some(first), second, landing, 60 + LEASE)])
  }

  /** The states the run passes through. */
  ghost function LateMarkStates(sys: System, first: Signed, second: Signed, height: int): seq<System> {
    var sent := sys.(rows := Rows(Sending, [First(first, Prepared)]), sent := {first},
                     processes := map[0 := Process(Some(first), multiset{MarkSent})]);
    var unknown := sent.(rows := Rows(Sending, [First(first, Unknown)]),
                         processes := sent.processes[1 := Process(None, multiset{})]);
    var late := unknown.(height := height);
    [sys,
     sys.(rows := Rows(Sending, [First(first, Prepared)]),
          processes := map[0 := Process(Some(first), multiset{SendOwn(true)})]),
     sent, unknown, late,
     late.(rows := Replaced(first, second, Prepared),
           processes := late.processes[1 := Process(Some(second), multiset{SendOwn(true)})]),
     late.(rows := Replaced(first, second, Prepared), processes := sent.processes),
     late.(rows := Replaced(first, second, Broadcast), processes := map[0 := Process(Some(first), multiset{})])]
  }

  lemma {:induction false} RunPasses(states: seq<System>, steps: seq<Step>)
    requires |states| == |steps| + 1
    requires forall i :: 0 <= i < |steps| ==> Perform(states[i], steps[i]) == states[i + 1]
    ensures Run(states[0], steps) == states[|steps|]
    decreases |steps|
  {
    if steps != [] {
      RunPasses(states[..|steps|], steps[..|steps| - 1]);
      assert Perform(states[|steps| - 1], steps[|steps| - 1]) == states[|steps|];
    }
  }

  lemma FirstSteps(sys: System, first: Signed, second: Signed, height: int, payment: Payment, identity: Identity)
    requires Initial(sys) && 0 < first.lastValid
    ensures var states, steps := LateMarkStates(sys, first, second, height),
                                 LateMark(payment, identity, first, second, height);
            && Truthful(states[0], steps[0]) && Perform(states[0], steps[0]) == states[1]
            && Truthful(states[1], steps[1]) && Perform(states[1], steps[1]) == states[2]
  {
    FirstIsPrepared(sys, first);
    var states := LateMarkStates(sys, first, second, height);
    assert multiset{SendOwn(true)} - multiset{SendOwn(true)} + multiset{MarkSent} == multiset{MarkSent};
    assert multiset{} + multiset{SendOwn(true)} == multiset{SendOwn(true)};
    assert sys.sent + {first} == {first};
  }

  lemma Expires(sys: System, first: Signed, second: Signed, height: int, payment: Payment, identity: Identity)
    requires Initial(sys) && 0 < first.lastValid < height && sys.height <= height
    ensures var states, steps := LateMarkStates(sys, first, second, height),
                                 LateMark(payment, identity, first, second, height);
            && Truthful(states[2], steps[2]) && Perform(states[2], steps[2]) == states[3]
            && Truthful(states[3], steps[3]) && Perform(states[3], steps[3]) == states[4]
  {
    PreparedBecomesUnknown(Rows(Sending, [First(first, Prepared)]), None, first);
  }

  lemma IsReplaced(sys: System, first: Signed, second: Signed, height: int, payment: Payment, identity: Identity)
    requires Initial(sys) && 0 < first.lastValid < height && sys.height <= height
    requires second.signature != first.signature && second.lastValid > 0
    requires identity.endpoints == {1, 2, 3} && payment.fingerprint == identity.fingerprint
    ensures var states, steps := LateMarkStates(sys, first, second, height),
                                 LateMark(payment, identity, first, second, height);
            Perform(states[4], steps[4]) == states[5]
  {
    AbsencesAreDefinitive(first.lastValid, height);
    UnknownIsReplaced(first, second, height, payment, identity);
    var late := LateMarkStates(sys, first, second, height)[4];
    assert Enabled(late, LateMark(payment, identity, first, second, height)[4]);
    assert multiset{} + multiset{SendOwn(true)} == multiset{SendOwn(true)};
  }

  lemma UnknownIsReplaced(first: Signed, second: Signed, height: int, payment: Payment, identity: Identity)
    requires 0 < first.lastValid < height && second.signature != first.signature && second.lastValid > 0
    requires payment.fingerprint == identity.fingerprint
    ensures LiveIndex([First(first, Unknown)]) == Some(0)
    ensures Replace(Rows(Sending, [First(first, Unknown)]), None, payment, identity, 60, true,
                    Answers(Unsure, Some(height), second, false), true)
         == Effect(Replaced(first, second, Prepared), Some(second), Some(SendOwn(true)), Ack)
  {
    var rows := Rows(Sending, [First(first, Unknown)]);
    assert Coherent(rows);
    LiveIsNewest(rows);
    assert rows.attempts[0 := First(first, DefinitiveFailed)] == [First(first, DefinitiveFailed)];
    assert [First(first, DefinitiveFailed)] + [Attempt(2, Some(first), second, Prepared, 60 + LEASE)]
        == Replaced(first, second, Prepared).attempts;
  }

  lemma LastSteps(sys: System, first: Signed, second: Signed, height: int, payment: Payment, identity: Identity)
    requires Initial(sys)
    ensures var states, steps := LateMarkStates(sys, first, second, height),
                                 LateMark(payment, identity, first, second, height);
            && Perform(states[5], steps[5]) == states[6] && Perform(states[6], steps[6]) == states[7]
  {
    var states := LateMarkStates(sys, first, second, height);
    assert states[5].processes - {1} == states[6].processes;
    LateMarkHits(first, second);
    assert multiset{MarkSent} - multiset{MarkSent} + multiset{} == multiset{};
  }

  lemma LateMarkHits(first: Signed, second: Signed)
    ensures Mark(Replaced(first, second, Prepared), Some(first)).rows == Replaced(first, second, Broadcast)
  {
    var rows := Replaced(first, second, Prepared);
    assert rows.attempts[1 := rows.attempts[1].(landing := Broadcast)] == Replaced(first, second, Broadcast).attempts;
  }

  lemma LateMarkRuns(sys: System, payment: Payment, identity: Identity, first: Signed, second: Signed, height: int)
    requires Initial(sys) && 0 < first.lastValid < height && sys.height <= height
    requires second.signature != first.signature && second.lastValid > 0
    requires identity.endpoints == {1, 2, 3} && payment.fingerprint == identity.fingerprint
    ensures var late := LateMark(payment, identity, first, second, height);
            Run(sys, late) == LateMarkStates(sys, first, second, height)[7] && AllTruthful(sys, late)
  {
    var late, states := LateMark(payment, identity, first, second, height),
                        LateMarkStates(sys, first, second, height);
    FirstSteps(sys, first, second, height, payment, identity);
    Expires(sys, first, second, height, payment, identity);
    IsReplaced(sys, first, second, height, payment, identity);
    LastSteps(sys, first, second, height, payment, identity);
    RunPasses(states, late);
    PassesTruthfully(states, late);
  }

  lemma LateMarkIsLost(sys: System, end: System, first: Signed, second: Signed, height: int)
    requires end == LateMarkStates(sys, first, second, height)[7] && Inv(end) && first != second
    ensures Lost(end)
  {
  }

  /**
   It happens in a truthful run: the replacement of an expired attempt stands
   as broadcast although only the attempt before it was ever sent, and from
   there on no run of any length changes the refund again.
   */
  lemma LateMarkLosesRefund(sys: System, payment: Payment, identity: Identity, first: Signed, second: Signed,
                            height: int, steps: seq<Step>)
    requires Initial(sys) && 0 < first.lastValid < height && sys.height <= height
    requires second.signature != first.signature && second.lastValid > 0
    requires identity.endpoints == {1, 2, 3} && payment.fingerprint == identity.fingerprint
    ensures var late := LateMark(payment, identity, first, second, height);
            var end := Run(sys, late);
            && AllTruthful(sys, late) && end.rows == Replaced(first, second, Broadcast) && end.sent == {first}
            && Run(end, steps).rows == end.rows
  {
    var late := LateMark(payment, identity, first, second, height);
    LateMarkRuns(sys, payment, identity, first, second, height);
    EveryRunKeepsInv(sys, late);
    LateMarkIsLost(sys, Run(sys, late), first, second, height);
    LostForever(Run(sys, late), steps);
  }

  lemma PassesTruthfully(states: seq<System>, steps: seq<Step>)
    requires |states| == |steps| + 1
    requires forall i :: 0 <= i < |steps| ==> Perform(states[i], steps[i]) == states[i + 1]
    requires forall i :: 0 <= i < |steps| ==> Truthful(states[i], steps[i])
    ensures AllTruthful(states[0], steps)
  {
    forall k | 0 <= k < |steps| ensures Truthful(Run(states[0], steps[..k]), steps[k]) {
      RunPasses(states[..k + 1], steps[..k]);
    }
  }
}
