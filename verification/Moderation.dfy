/**
 Leased moderation jobs: comments become jobs, runners claim them under a fresh
 token, work outside any lock, and complete only while the token is current.
 */
module Moderation {
  import opened Money

  datatype Visibility = Visible | Shadow | Blocked

  datatype Verdict = VisibleVerdict | ShadowVerdict

  /** The only escalation is from visible to shadow. */
  function Escalated(current: Visibility, verdict: Verdict): Option<Visibility> {
    match (current, verdict)
    case (Visible, ShadowVerdict) => Some(Shadow)
    case _ => None
  }

  datatype JobStatus = Queued | Running | Done | Failed

  datatype Job =
    Job(comment: nat, status: JobStatus, availableAt: int, updatedAt: int, token: Option<nat>, leaseUntil: int,
        attempts: nat)

  /** An outbox event; only posted comments matter here. */
  datatype Event = CommentPosted(comment: nat) | OtherEvent

  /** How far a runner has come with the job copy it claimed. */
  datatype Phase = Claimed | MustEscalate(verdict: Verdict) | Finished(error: bool, terminal: bool)

  /** A claimed copy of a job row in some runner's hands. */
  datatype Work = Work(job: nat, comment: nat, token: nat, attempts: nat, phase: Phase)

  /** An event takes its sequence number when it is inserted, but is read only once its transaction commits. */
  datatype RowState = Open | Committed(cursorThen: nat) | RolledBack

  /** `cursorThen` is history: where the cursor stood when the row became visible. */
  datatype LogRow = LogRow(event: Event, state: RowState)

  /**
   The outbox in order of sequence numbers; the cursor is past the rows below
   it. `works` is everything claimed and neither completed nor lost to a crash.
   */
  datatype World = World(
    log: seq<LogRow>, cursor: nat, jobs: seq<Job>,
    comments: map<nat, Visibility>, nextToken: nat, works: set<Work>)

  datatype Config = Config(maxAttempts: nat, backoffBase: nat)

  const MATERIALIZE_BATCH := 128

  function Power(n: nat): nat { if n == 0 then 1 else 2 * Power(n - 1) }

  /** Doubles with each attempt, up to the eighth, and saturates at the widest second count. */
  function BackoffSecs(base: nat, attempts: nat): (secs: nat)
    ensures secs <= I64_MAX
  {
    var widest: nat := I64_MAX;
    var product := (if base > widest then widest else base) * Power(if attempts < 8 then attempts else 8);
    if product > widest then widest else product
  }

  /** Waiting never gets shorter with more attempts, and never longer than 256 bases. */
  lemma BackoffNeverShrinks(base: nat, a: nat, b: nat)
    requires a <= b
    ensures BackoffSecs(base, a) <= BackoffSecs(base, b) <= 256 * base
  {
    var x, y := if a < 8 then a else 8, if b < 8 then b else 8;
    PowerGrows(x, y);
    PowerGrows(y, 8);
    var kept: nat := if base > I64_MAX then I64_MAX else base;
    assert kept * Power(x) <= kept * Power(y) <= kept * 256 by {
      assert Power(8) == 256;
      ScaleOrder(kept, Power(x), Power(y));
      ScaleOrder(kept, Power(y), 256);
    }
  }

  lemma ScaleOrder(k: nat, a: nat, b: nat)
    requires a <= b
    ensures k * a <= k * b
  {
  }

  lemma {:induction false} PowerGrows(a: nat, b: nat)
    requires a <= b
    ensures 1 <= Power(a) <= Power(b)
  {
    if a < b {
      PowerGrows(a, b - 1);
    } else if a > 0 {
      PowerGrows(a - 1, b - 1);
    }
  }

  // ---------------------------------------------------------------- materializing

  predicate HasJob(jobs: seq<Job>, comment: nat) { exists i :: 0 <= i < |jobs| && jobs[i].comment == comment }

  /** A comment's first event makes its job; a repeat is absorbed. */
  function AddJob(jobs: seq<Job>, event: Event, now: int): seq<Job> {
    match event
    case OtherEvent => jobs
    case CommentPosted(c) => if HasJob(jobs, c) then jobs else jobs + [Job(c, Queued, now, now, None, 0, 0)]
  }

  function AddJobs(jobs: seq<Job>, events: seq<Event>, now: int): seq<Job> {
    if events == [] then jobs else AddJob(AddJobs(jobs, events[..|events| - 1], now), events[|events| - 1], now)
  }

  /** The first `limit` committed rows at or after `from`, in order of sequence numbers. */
  function Readable(log: seq<LogRow>, from: nat, limit: nat): (batch: seq<nat>)
    ensures |batch| <= limit
    ensures forall i :: 0 <= i < |batch| ==> from <= batch[i] < |log| && log[batch[i]].state.Committed?
    decreases |log| - from
  {
    if from >= |log| || limit == 0 then []
    else if log[from].state.Committed? then [from] + Readable(log, from + 1, limit - 1)
    else Readable(log, from + 1, limit)
  }

  function EventsOf(log: seq<LogRow>, batch: seq<nat>): (events: seq<Event>)
    requires forall i :: 0 <= i < |batch| ==> batch[i] < |log|
    ensures |events| == |batch| && forall i :: 0 <= i < |batch| ==> events[i] == log[batch[i]].event
  {
    seq(|batch|, i requires 0 <= i < |batch| => log[batch[i]].event)
  }

  /** Jobs and cursor move in one transaction; the cursor goes to the last row read. */
  function MaterializeNext(w: World, now: int): World {
    var batch := Readable(w.log, w.cursor, MATERIALIZE_BATCH);
    if batch == [] then w
    else w.(jobs := AddJobs(w.jobs, EventsOf(w.log, batch), now), cursor := batch[|batch| - 1] + 1)
  }

  // ---------------------------------------------------------------- claiming and completing

  predicate Due(job: Job, now: int) { job.status.Queued? && job.availableAt <= now }

  predicate Expired(job: Job, now: int) { job.status.Running? && job.leaseUntil <= now }

  function ClaimNext(w: World, i: nat, now: int, lease: int): World {
    if i >= |w.jobs| || !Due(w.jobs[i], now) then w
    else
      var job := w.jobs[i].(status := Running, token := Some(w.nextToken), leaseUntil := now + lease,
                            attempts := w.jobs[i].attempts + 1, updatedAt := now);
      w.(jobs := w.jobs[i := job], nextToken := w.nextToken + 1,
         works := w.works + {Work(i, job.comment, w.nextToken, job.attempts, Claimed)})
  }

  function ReclaimNext(w: World, config: Config, i: nat, now: int): World {
    if i >= |w.jobs| || !Expired(w.jobs[i], now) then w
    else
      var status := if w.jobs[i].attempts >= config.maxAttempts then Failed else Queued;
      w.(jobs := w.jobs[i := w.jobs[i].(status := status, token := None, leaseUntil := 0, updatedAt := now)])
  }

  /** What a runner does next with its copy: read, screen, decide; a failure becomes a retry or the end. */
  function Progress(w: World, config: Config, work: Work, screened: Option<Verdict>): Phase {
    var failed := Finished(true, work.attempts >= config.maxAttempts);
    if work.comment !in w.comments then Finished(true, true)
    else if !w.comments[work.comment].Visible? then Finished(false, true)
    else if screened.None? then failed
    else if Escalated(Visible, screened.value).Some? then MustEscalate(screened.value)
    else Finished(false, true)
  }

  function MoveWork(w: World, work: Work, phase: Phase): World {
    w.(works := w.works - {work} + {work.(phase := phase)})
  }

  /** Re-checked under the comment's row lock. */
  function EscalateNext(w: World, config: Config, work: Work, succeeds: bool): World
    requires work.phase.MustEscalate?
  {
    if !succeeds || work.comment !in w.comments
    then MoveWork(w, work, Finished(true, work.attempts >= config.maxAttempts))
    else
      var to := Escalated(w.comments[work.comment], work.phase.verdict);
      MoveWork(if to.Some? then w.(comments := w.comments[work.comment := to.value]) else w,
               work, Finished(false, true))
  }

  predicate Current(w: World, work: Work) {
    work.job < |w.jobs| && w.jobs[work.job].status.Running? && w.jobs[work.job].token == Some(work.token)
  }

  /** The fenced completion; a token that is no longer current changes no job. */
  function CompleteNext(w: World, config: Config, work: Work, now: int): World
    requires work.phase.Finished?
  {
    var w' := w.(works := w.works - {work});
    if !Current(w, work) then w'
    else
      var job := w.jobs[work.job];
      var status := if !work.phase.error then Done else if work.phase.terminal then Failed else Queued;
      var until := if status.Queued? then now + BackoffSecs(config.backoffBase, work.attempts) else now;
      w'.(jobs := w.jobs[work.job := job.(status := status, token := None, leaseUntil := 0,
                                          availableAt := until, updatedAt := until)])
  }

  // ---------------------------------------------------------------- steps

  datatype Step =
    | Allocate(event: Event)
    | Commit(row: nat, visibility: Visibility)
    | RollBack(row: nat)
    | Review(comment: nat, visibility: Visibility)
    | Materialize(now: int)
    | Claim(i: nat, now: int, lease: int)
    | Reclaim(i: nat, now: int)
    | Screen(work: Work, verdict: Option<Verdict>)
    | Escalate(work: Work, succeeds: bool)
    | Complete(work: Work, now: int)
    | Crash(work: Work)

  predicate IsRunnerStep(step: Step) { !step.Allocate? && !step.Commit? && !step.RollBack? && !step.Review? }

  /** A comment is inserted once: no second row for it unless the first rolled back. */
  predicate Live(log: seq<LogRow>, k: nat, event: Event) {
    k < |log| && log[k].event == event && event.CommentPosted? && !log[k].state.RolledBack?
  }

  function CommitNext(w: World, k: nat, visibility: Visibility): World {
    if k >= |w.log| || !w.log[k].state.Open? then w
    else
      var event := w.log[k].event;
      w.(log := w.log[k := LogRow(event, Committed(w.cursor))],
         comments := if event.CommentPosted? then w.comments[event.comment := visibility] else w.comments)
  }

  function Perform(w: World, config: Config, step: Step): World {
    match step
    case Allocate(event) =>
      if exists k :: 0 <= k < |w.log| && Live(w.log, k, event) then w else w.(log := w.log + [LogRow(event, Open)])
    case Commit(k, visibility) => CommitNext(w, k, visibility)
    case RollBack(k) =>
      if k < |w.log| && w.log[k].state.Open? then w.(log := w.log[k := w.log[k].(state := RolledBack)]) else w
    case Review(c, v) => if c in w.comments then w.(comments := w.comments[c := v]) else w
    case Materialize(now) => MaterializeNext(w, now)
    case Claim(i, now, lease) => ClaimNext(w, i, now, lease)
    case Reclaim(i, now) => ReclaimNext(w, config, i, now)
    case Screen(work, verdict) =>
      if work in w.works && work.phase.Claimed? then MoveWork(w, work, Progress(w, config, work, verdict)) else w
    case Escalate(work, succeeds) =>
      if work in w.works && work.phase.MustEscalate? then EscalateNext(w, config, work, succeeds) else w
    case Complete(work, now) =>
      if work in w.works && work.phase.Finished? then CompleteNext(w, config, work, now) else w
    case Crash(work) => w.(works := w.works - {work})
  }

  // ---------------------------------------------------------------- the invariant

  predicate JobKept(job: Job, config: Config, nextToken: nat) {
    && job.attempts <= config.maxAttempts
    && (job.status.Queued? ==> job.attempts < config.maxAttempts)
    && (job.status.Running? <==> job.token.Some?)
    && (job.token.Some? ==> job.token.value < nextToken)
  }

  ghost predicate JobsKept(w: World, config: Config) {
    && (forall i :: 0 <= i < |w.jobs| ==> JobKept(w.jobs[i], config, w.nextToken))
    && (forall i, j :: 0 <= i < j < |w.jobs| ==> w.jobs[i].comment != w.jobs[j].comment)
  }

  /** A copy whose token is current anywhere is a copy of that very row; a non-terminal failure has attempts left. */
  ghost predicate WorkKept(w: World, config: Config, work: Work) {
    && work.token < w.nextToken
    && work.job < |w.jobs|
    && (forall i :: 0 <= i < |w.jobs| && w.jobs[i].token == Some(work.token) ==>
          i == work.job && w.jobs[i].attempts == work.attempts && w.jobs[i].comment == work.comment)
    && (work.phase.Finished? && work.phase.error && !work.phase.terminal ==> work.attempts < config.maxAttempts)
  }

  ghost predicate WorksKept(w: World, config: Config) {
    forall work :: work in w.works ==> WorkKept(w, config, work)
  }

  /** A row the cursor has passed, that was visible before the cursor did. */
  predicate ReadInTime(log: seq<LogRow>, cursor: nat, k: nat, c: nat) {
    && k < cursor && k < |log| && log[k].event == CommentPosted(c)
    && log[k].state.Committed? && log[k].state.cursorThen <= k
  }

  predicate Passed(log: seq<LogRow>, cursor: nat, c: nat) {
    exists k :: 0 <= k < |log| && ReadInTime(log, cursor, k, c)
  }

  /** Exactly the comments read in time have a job. */
  ghost predicate CursorKept(w: World) {
    && w.cursor <= |w.log|
    && (forall k :: 0 <= k < |w.log| && w.log[k].state.Committed? ==> w.log[k].state.cursorThen <= w.cursor)
    && (forall j, k :: 0 <= j < k < |w.log| && Live(w.log, j, w.log[j].event) && Live(w.log, k, w.log[k].event) ==>
          w.log[j].event != w.log[k].event)
    && (forall c :: HasJob(w.jobs, c) <==> Passed(w.log, w.cursor, c))
  }

  ghost predicate Inv(w: World, config: Config) {
    JobsKept(w, config) && WorksKept(w, config) && CursorKept(w)
  }

  // ---------------------------------------------------------------- materializing keeps it

  predicate Grown(before: seq<Job>, after: seq<Job>) {
    |before| <= |after| && forall i :: 0 <= i < |before| ==> after[i] == before[i]
  }

  predicate Fresh(job: Job, now: int) {
    && job.status.Queued? && job.token.None? && job.attempts == 0 && job.leaseUntil == 0
    && job.availableAt == now && job.updatedAt == now
  }

  lemma AddJobGrows(jobs: seq<Job>, event: Event, now: int)
    requires forall i, j :: 0 <= i < j < |jobs| ==> jobs[i].comment != jobs[j].comment
    ensures var after := AddJob(jobs, event, now);
            && Grown(jobs, after)
            && (forall i :: |jobs| <= i < |after| ==> Fresh(after[i], now))
            && (forall i, j :: 0 <= i < j < |after| ==> after[i].comment != after[j].comment)
            && (forall c :: HasJob(after, c) <==> HasJob(jobs, c) || event == CommentPosted(c))
  {
    var after := AddJob(jobs, event, now);
    forall c ensures HasJob(after, c) <==> HasJob(jobs, c) || event == CommentPosted(c) {
      if HasJob(jobs, c) {
        var i :| 0 <= i < |jobs| && jobs[i].comment == c;
        assert after[i].comment == c;
      }
      if event == CommentPosted(c) && |after| > |jobs| { assert after[|jobs|].comment == c; }
    }
  }

  lemma {:induction false} AddJobsGrows(jobs: seq<Job>, events: seq<Event>, now: int)
    requires forall i, j :: 0 <= i < j < |jobs| ==> jobs[i].comment != jobs[j].comment
    ensures var after := AddJobs(jobs, events, now);
            && Grown(jobs, after)
            && (forall i :: |jobs| <= i < |after| ==> Fresh(after[i], now))
            && (forall i, j :: 0 <= i < j < |after| ==> after[i].comment != after[j].comment)
            && (forall c :: HasJob(after, c) <==> HasJob(jobs, c) || CommentPosted(c) in events)
    decreases |events|
  {
    if events != [] {
      var init, last := events[..|events| - 1], events[|events| - 1];
      assert events == init + [last];
      AddJobsGrows(jobs, init, now);
      AddJobGrows(AddJobs(jobs, init, now), last, now);
    }
  }

  /** A batch leaves out no committed row up to the last one it holds. */
  lemma {:induction false} BatchIsComplete(log: seq<LogRow>, from: nat, limit: nat, k: nat)
    requires Readable(log, from, limit) != []
    requires from <= k <= Readable(log, from, limit)[|Readable(log, from, limit)| - 1] && k < |log|
    requires log[k].state.Committed?
    ensures k in Readable(log, from, limit)
    decreases |log| - from
  {
    if log[from].state.Committed? {
      var rest := Readable(log, from + 1, limit - 1);
      assert Readable(log, from, limit) == [from] + rest;
      if k != from { BatchIsComplete(log, from + 1, limit - 1, k); }
    } else {
      BatchIsComplete(log, from + 1, limit, k);
    }
  }

  /** Reading a batch passes exactly the comments in it. */
  lemma BatchPasses(w: World, batch: seq<nat>, c: nat)
    requires CursorKept(w) && batch == Readable(w.log, w.cursor, MATERIALIZE_BATCH) && batch != []
    ensures Passed(w.log, batch[|batch| - 1] + 1, c)
            <==> Passed(w.log, w.cursor, c) || CommentPosted(c) in EventsOf(w.log, batch)
  {
    StillPassed(w.log, w.cursor, batch[|batch| - 1] + 1, c);
    BatchedIsPassed(w, batch, c);
    if Passed(w.log, batch[|batch| - 1] + 1, c) {
      var k :| 0 <= k < |w.log| && ReadInTime(w.log, batch[|batch| - 1] + 1, k, c);
      NewlyPassed(w, batch, k, c);
    }
  }

  lemma StillPassed(log: seq<LogRow>, cursor: nat, next: nat, c: nat)
    requires cursor <= next
    ensures Passed(log, cursor, c) ==> Passed(log, next, c)
  {
    if Passed(log, cursor, c) {
      var k :| 0 <= k < |log| && ReadInTime(log, cursor, k, c);
      assert ReadInTime(log, next, k, c);
    }
  }

  lemma BatchedIsPassed(w: World, batch: seq<nat>, c: nat)
    requires CursorKept(w) && batch == Readable(w.log, w.cursor, MATERIALIZE_BATCH) && batch != []
    ensures CommentPosted(c) in EventsOf(w.log, batch) ==> Passed(w.log, batch[|batch| - 1] + 1, c)
  {
    if CommentPosted(c) in EventsOf(w.log, batch) {
      var i :| 0 <= i < |batch| && EventsOf(w.log, batch)[i] == CommentPosted(c);
      BatchAscends(w.log, w.cursor, MATERIALIZE_BATCH, i);
      assert ReadInTime(w.log, batch[|batch| - 1] + 1, batch[i], c);
    }
  }

  lemma NewlyPassed(w: World, batch: seq<nat>, k: nat, c: nat)
    requires batch == Readable(w.log, w.cursor, MATERIALIZE_BATCH) && batch != []
    requires ReadInTime(w.log, batch[|batch| - 1] + 1, k, c)
    ensures Passed(w.log, w.cursor, c) || CommentPosted(c) in EventsOf(w.log, batch)
  {
    if k < w.cursor {
      assert ReadInTime(w.log, w.cursor, k, c);
    } else {
      BatchIsComplete(w.log, w.cursor, MATERIALIZE_BATCH, k);
      var i :| 0 <= i < |batch| && batch[i] == k;
      assert EventsOf(w.log, batch)[i] == CommentPosted(c);
    }
  }

  lemma {:induction false} BatchAscends(log: seq<LogRow>, from: nat, limit: nat, i: nat)
    requires i < |Readable(log, from, limit)|
    ensures Readable(log, from, limit)[i] <= Readable(log, from, limit)[|Readable(log, from, limit)| - 1]
    decreases |log| - from
  {
    if log[from].state.Committed? {
      if i > 0 { BatchAscends(log, from + 1, limit - 1, i - 1); }
    } else {
      BatchAscends(log, from + 1, limit, i);
    }
  }

  lemma MaterializeKeepsInv(w: World, config: Config, now: int)
    requires Inv(w, config) && config.maxAttempts > 0
    ensures Inv(MaterializeNext(w, now), config)
  {
    var batch := Readable(w.log, w.cursor, MATERIALIZE_BATCH);
    if batch != [] {
      BatchKeepsInv(w, config, batch, EventsOf(w.log, batch), batch[|batch| - 1] + 1, now);
    }
  }

  lemma BatchKeepsInv(w: World, config: Config, batch: seq<nat>, events: seq<Event>, cursor: nat, now: int)
    requires Inv(w, config) && config.maxAttempts > 0
    requires batch == Readable(w.log, w.cursor, MATERIALIZE_BATCH) && batch != []
    requires events == EventsOf(w.log, batch) && cursor == batch[|batch| - 1] + 1
    ensures Inv(w.(jobs := AddJobs(w.jobs, events, now), cursor := cursor), config)
  {
    AddJobsGrows(w.jobs, events, now);
    forall c ensures Passed(w.log, cursor, c) <==> Passed(w.log, w.cursor, c) || CommentPosted(c) in events {
      BatchPasses(w, batch, c);
    }
    GrownKeepsInv(w, config, AddJobs(w.jobs, events, now), events, cursor, now);
  }

  lemma GrownKeepsInv(w: World, config: Config, jobs: seq<Job>, events: seq<Event>, cursor: nat, now: int)
    requires Inv(w, config) && config.maxAttempts > 0 && w.cursor <= cursor <= |w.log|
    requires Grown(w.jobs, jobs) && forall i :: |w.jobs| <= i < |jobs| ==> Fresh(jobs[i], now)
    requires forall i, j :: 0 <= i < j < |jobs| ==> jobs[i].comment != jobs[j].comment
    requires forall c :: HasJob(jobs, c) <==> HasJob(w.jobs, c) || CommentPosted(c) in events
    requires forall c :: Passed(w.log, cursor, c) <==> Passed(w.log, w.cursor, c) || CommentPosted(c) in events
    ensures Inv(w.(jobs := jobs, cursor := cursor), config)
  {
    var w' := w.(jobs := jobs, cursor := cursor);
    forall work | work in w'.works ensures WorkKept(w', config, work) { assert WorkKept(w, config, work); }
  }

  // ---------------------------------------------------------------- one job changes

  /** A job row rewritten in place with no live token. */
  lemma RetiredJobKeepsInv(w: World, config: Config, i: nat, job: Job, works: set<Work>)
    requires Inv(w, config) && i < |w.jobs| && works <= w.works
    requires job.comment == w.jobs[i].comment && job.token.None? && JobKept(job, config, w.nextToken)
    ensures Inv(w.(jobs := w.jobs[i := job], works := works), config)
  {
    var w' := w.(jobs := w.jobs[i := job], works := works);
    forall work | work in works ensures WorkKept(w', config, work) { assert WorkKept(w, config, work); }
    forall c ensures HasJob(w'.jobs, c) <==> HasJob(w.jobs, c) { SameComments(w.jobs, i, job, c); }
  }

  lemma SameComments(jobs: seq<Job>, i: nat, job: Job, c: nat)
    requires i < |jobs| && job.comment == jobs[i].comment
    ensures HasJob(jobs[i := job], c) <==> HasJob(jobs, c)
  {
    if HasJob(jobs, c) {
      var k :| 0 <= k < |jobs| && jobs[k].comment == c;
      assert jobs[i := job][k].comment == c;
    }
    if HasJob(jobs[i := job], c) {
      var k :| 0 <= k < |jobs| && jobs[i := job][k].comment == c;
      assert jobs[k].comment == c;
    }
  }

  lemma ClaimKeepsInv(w: World, config: Config, i: nat, now: int, lease: int)
    requires Inv(w, config)
    ensures Inv(ClaimNext(w, i, now, lease), config)
  {
    var w' := ClaimNext(w, i, now, lease);
    if w' != w {
      forall c ensures HasJob(w'.jobs, c) <==> HasJob(w.jobs, c) { SameComments(w.jobs, i, w'.jobs[i], c); }
      forall work | work in w'.works ensures WorkKept(w', config, work) {
        if work in w.works { assert WorkKept(w, config, work); }
        assert forall k :: 0 <= k < |w.jobs| ==> JobKept(w.jobs[k], config, w.nextToken);
      }
    }
  }

  lemma ReclaimKeepsInv(w: World, config: Config, i: nat, now: int)
    requires Inv(w, config)
    ensures Inv(ReclaimNext(w, config, i, now), config)
  {
    var w' := ReclaimNext(w, config, i, now);
    if w' != w { RetiredJobKeepsInv(w, config, i, w'.jobs[i], w.works); }
  }

  lemma CompleteKeepsInv(w: World, config: Config, work: Work, now: int)
    requires Inv(w, config) && work in w.works && work.phase.Finished?
    ensures Inv(CompleteNext(w, config, work, now), config)
  {
    var w' := CompleteNext(w, config, work, now);
    assert WorkKept(w, config, work);
    if Current(w, work) {
      RetiredJobKeepsInv(w, config, work.job, w'.jobs[work.job], w.works - {work});
    } else {
      forall other | other in w'.works ensures WorkKept(w', config, other) { assert WorkKept(w, config, other); }
    }
  }

  /** The runner's own progress, and anything that happens to comments, leaves the jobs alone. */
  lemma MovedWorkKeepsInv(w: World, w': World, config: Config, work: Work, phase: Phase)
    requires Inv(w, config) && work in w.works
    requires w' == w.(comments := w'.comments, works := w.works - {work} + {work.(phase := phase)})
    requires phase.Finished? && phase.error && !phase.terminal ==> work.attempts < config.maxAttempts
    ensures Inv(w', config)
  {
    assert WorkKept(w, config, work);
    forall other | other in w'.works ensures WorkKept(w', config, other) {
      if other != work.(phase := phase) { assert WorkKept(w, config, other); }
    }
  }

  /** Row `k` is new, for an event no live row has, or was open and keeps its event. */
  ghost predicate RowChanges(log: seq<LogRow>, log': seq<LogRow>, k: nat) {
    && k < |log'| && |log| <= |log'| <= |log| + 1
    && (forall j :: 0 <= j < |log'| && j != k ==> j < |log| && log'[j] == log[j])
    && (k < |log| ==> log'[k].event == log[k].event && log[k].state.Open?)
    && (k == |log| ==> !exists j :: 0 <= j < |log| && Live(log, j, log'[k].event))
  }

  /** One row more, or one row in another state, that is not read in time at this moment. */
  lemma RowKeepsInv(w: World, w': World, config: Config, k: nat)
    requires Inv(w, config)
    requires w' == w.(log := w'.log, comments := w'.comments) && RowChanges(w.log, w'.log, k)
    requires w'.log[k].state.Committed? ==> w'.log[k].state.cursorThen == w.cursor
    ensures Inv(w', config)
  {
    forall c ensures Passed(w'.log, w.cursor, c) <==> Passed(w.log, w.cursor, c) {
      if Passed(w'.log, w.cursor, c) {
        var j :| 0 <= j < |w'.log| && ReadInTime(w'.log, w.cursor, j, c);
        assert ReadInTime(w.log, w.cursor, j, c);
      }
      if Passed(w.log, w.cursor, c) {
        var j :| 0 <= j < |w.log| && ReadInTime(w.log, w.cursor, j, c);
        assert ReadInTime(w'.log, w.cursor, j, c);
      }
    }
    assert forall i, j ::
      0 <= i < j < |w'.log| && Live(w'.log, i, w'.log[i].event) && Live(w'.log, j, w'.log[j].event) ==>
        w'.log[i].event != w'.log[j].event by { RowsStayDistinct(w.log, w'.log, k); }
    forall other | other in w'.works ensures WorkKept(w', config, other) { assert WorkKept(w, config, other); }
  }

  lemma RowsStayDistinct(log: seq<LogRow>, log': seq<LogRow>, k: nat)
    requires forall i, j :: 0 <= i < j < |log| && Live(log, i, log[i].event) && Live(log, j, log[j].event) ==>
               log[i].event != log[j].event
    requires RowChanges(log, log', k)
    ensures forall i, j :: 0 <= i < j < |log'| && Live(log', i, log'[i].event) && Live(log', j, log'[j].event) ==>
              log'[i].event != log'[j].event
  {
    forall i, j | 0 <= i < j < |log'| && Live(log', i, log'[i].event) && Live(log', j, log'[j].event)
      ensures log'[i].event != log'[j].event
    {
      if j < |log| {
        assert Live(log, i, log[i].event) && Live(log, j, log[j].event);
      } else {
        assert Live(log, i, log[i].event);
      }
    }
  }

  lemma CommentKeepsInv(w: World, w': World, config: Config)
    requires Inv(w, config) && w' == w.(comments := w'.comments, works := w'.works) && w'.works <= w.works
    ensures Inv(w', config)
  {
    forall other | other in w'.works ensures WorkKept(w', config, other) { assert WorkKept(w, config, other); }
  }

  lemma StepKeepsInv(w: World, config: Config, step: Step)
    requires Inv(w, config) && config.maxAttempts > 0
    ensures Inv(Perform(w, config, step), config)
  {
    var w' := Perform(w, config, step);
    match step
    case Materialize(now) => MaterializeKeepsInv(w, config, now);
    case Claim(i, now, lease) => ClaimKeepsInv(w, config, i, now, lease);
    case Reclaim(i, now) => ReclaimKeepsInv(w, config, i, now);
    case Screen(work, verdict) =>
      if work in w.works && work.phase.Claimed? {
        MovedWorkKeepsInv(w, w', config, work, Progress(w, config, work, verdict));
      }
    case Escalate(work, succeeds) =>
      if work in w.works && work.phase.MustEscalate? {
        var failed := !succeeds || work.comment !in w.comments;
        var phase := if failed then Finished(true, work.attempts >= config.maxAttempts) else Finished(false, true);
        MovedWorkKeepsInv(w, w', config, work, phase);
      }
    case Complete(work, now) =>
      if work in w.works && work.phase.Finished? { CompleteKeepsInv(w, config, work, now); }
    case Allocate(event) => if w' != w { RowKeepsInv(w, w', config, |w.log|); }
    case Commit(k, _) => if w' != w { RowKeepsInv(w, w', config, k); }
    case RollBack(k) => if w' != w { RowKeepsInv(w, w', config, k); }
    case Review(_, _) => CommentKeepsInv(w, w', config);
    case Crash(_) => CommentKeepsInv(w, w', config);
  }

  // ---------------------------------------------------------------- every run

  ghost function Run(w: World, config: Config, steps: seq<Step>): (w': World)
    requires Inv(w, config) && config.maxAttempts > 0
    ensures Inv(w', config)
    decreases |steps|
  {
    if steps == [] then w
    else
      var before := Run(w, config, steps[..|steps| - 1]);
      StepKeepsInv(before, config, steps[|steps| - 1]);
      Perform(before, config, steps[|steps| - 1])
  }

  const EMPTY: World := World([], 0, [], map[], 0, {})

  /** From nothing, through any interleaving: one job per comment, and attempts within bounds. */
  lemma EveryRunIsBounded(config: Config, steps: seq<Step>)
    requires config.maxAttempts > 0
    ensures Inv(EMPTY, config)
    ensures var w := Run(EMPTY, config, steps);
            && (forall i, j :: 0 <= i < j < |w.jobs| ==> w.jobs[i].comment != w.jobs[j].comment)
            && (forall i :: 0 <= i < |w.jobs| ==> w.jobs[i].attempts <= config.maxAttempts)
  {
    var w := Run(EMPTY, config, steps);
    forall i | 0 <= i < |w.jobs| ensures w.jobs[i].attempts <= config.maxAttempts {
      assert JobKept(w.jobs[i], config, w.nextToken);
    }
  }

  /**
   When a comment behind the cursor has its job, in every run: if and only if
   the cursor had not passed its sequence number when it was committed.
   */
  lemma JobIffCommittedInTime(config: Config, steps: seq<Step>, k: nat)
    requires config.maxAttempts > 0
    ensures Inv(EMPTY, config)
    ensures var w := Run(EMPTY, config, steps);
            k < w.cursor && w.log[k].event.CommentPosted? && w.log[k].state.Committed? ==>
              (HasJob(w.jobs, w.log[k].event.comment) <==> w.log[k].state.cursorThen <= k)
  {
    var w := Run(EMPTY, config, steps);
    if k < w.cursor && w.log[k].event.CommentPosted? && w.log[k].state.Committed? { RowDecidesJob(w, config, k); }
  }

  lemma RowDecidesJob(w: World, config: Config, k: nat)
    requires Inv(w, config) && k < w.cursor && k < |w.log|
    requires w.log[k].event.CommentPosted? && w.log[k].state.Committed?
    ensures HasJob(w.jobs, w.log[k].event.comment) <==> w.log[k].state.cursorThen <= k
  {
    var c := w.log[k].event.comment;
    if w.log[k].state.cursorThen <= k { assert ReadInTime(w.log, w.cursor, k, c); }
    if Passed(w.log, w.cursor, c) {
      var j :| 0 <= j < |w.log| && ReadInTime(w.log, w.cursor, j, c);
      assert Live(w.log, j, w.log[j].event) && Live(w.log, k, w.log[k].event);
    }
  }

  /** A comment takes its number before another event, and commits after that one has been read. */
  ghost function LateRun(comment: nat): seq<Step> {
    [Allocate(CommentPosted(comment)), Allocate(OtherEvent), Commit(1, Visible), Materialize(0), Commit(0, Visible)]
  }

  /** Such a comment is passed over. */
  lemma LateCommitIsSkipped(config: Config, comment: nat)
    requires config.maxAttempts > 0
    ensures Inv(EMPTY, config)
    ensures var w := Run(EMPTY, config, LateRun(comment));
            && w.cursor == 2 && |w.log| == 2 && w.log[0] == LogRow(CommentPosted(comment), Committed(2))
            && comment in w.comments && !HasJob(w.jobs, comment)
  {
    var steps := LateRun(comment);
    SecondIsRead(config, comment);
    RunThen(EMPTY, config, steps[..4], steps[4]);
    assert steps[..4] + [steps[4]] == steps;
  }

  lemma BothAreOpen(config: Config, comment: nat)
    requires config.maxAttempts > 0
    ensures Inv(EMPTY, config)
    ensures Run(EMPTY, config, LateRun(comment)[..2])
         == EMPTY.(log := [LogRow(CommentPosted(comment), Open), LogRow(OtherEvent, Open)])
  {
    var steps := LateRun(comment);
    RunThen(EMPTY, config, [], steps[0]);
    assert [] + [steps[0]] == steps[..1];
    assert Run(EMPTY, config, steps[..1]) == EMPTY.(log := [LogRow(CommentPosted(comment), Open)]);
    RunThen(EMPTY, config, steps[..1], steps[1]);
    assert steps[..1] + [steps[1]] == steps[..2];
  }

  lemma SecondCommitsFirst(config: Config, comment: nat)
    requires config.maxAttempts > 0
    ensures Inv(EMPTY, config)
    ensures Run(EMPTY, config, LateRun(comment)[..3])
         == EMPTY.(log := [LogRow(CommentPosted(comment), Open), LogRow(OtherEvent, Committed(0))])
  {
    var steps := LateRun(comment);
    BothAreOpen(config, comment);
    RunThen(EMPTY, config, steps[..2], steps[2]);
    assert steps[..2] + [steps[2]] == steps[..3];
  }

  lemma SecondIsRead(config: Config, comment: nat)
    requires config.maxAttempts > 0
    ensures Inv(EMPTY, config)
    ensures Run(EMPTY, config, LateRun(comment)[..4])
         == EMPTY.(log := [LogRow(CommentPosted(comment), Open), LogRow(OtherEvent, Committed(0))], cursor := 2)
  {
    var steps := LateRun(comment);
    SecondCommitsFirst(config, comment);
    var read := Run(EMPTY, config, steps[..3]);
    RunThen(EMPTY, config, steps[..3], steps[3]);
    assert steps[..3] + [steps[3]] == steps[..4];
    SecondRowOnly(read.log);
    OtherMakesNoJob(read);
  }

  lemma OtherMakesNoJob(w: World)
    requires w.cursor == 0 && w.jobs == [] && |w.log| == 2 && w.log[1].event.OtherEvent?
    requires Readable(w.log, 0, MATERIALIZE_BATCH) == [1]
    ensures MaterializeNext(w, 0) == w.(cursor := 2)
  {
    var events := EventsOf(w.log, [1]);
    assert events == [OtherEvent] && events[..0] == [];
    assert AddJobs([], events, 0) == AddJob(AddJobs([], [], 0), OtherEvent, 0);
  }

  lemma SecondRowOnly(log: seq<LogRow>)
    requires |log| == 2 && log[0].state.Open? && log[1].state.Committed?
    ensures Readable(log, 0, MATERIALIZE_BATCH) == [1]
  {
    assert Readable(log, 2, MATERIALIZE_BATCH - 1) == [];
    assert Readable(log, 1, MATERIALIZE_BATCH) == [1];
  }

  lemma RunThen(w: World, config: Config, steps: seq<Step>, step: Step)
    requires Inv(w, config) && config.maxAttempts > 0
    ensures Run(w, config, steps + [step]) == Perform(Run(w, config, steps), config, step)
  {
    assert (steps + [step])[..|steps|] == steps;
  }

  /** And it stays passed over, whatever runs afterwards. */
  lemma {:induction false} SkippedForever(w: World, config: Config, steps: seq<Step>, k: nat)
    requires Inv(w, config) && config.maxAttempts > 0 && k < |w.log| && w.log[k].event.CommentPosted?
    requires w.log[k].state.Committed? && w.log[k].state.cursorThen > k
    ensures var end := Run(w, config, steps);
            k < |end.log| && end.log[k] == w.log[k] && k < end.cursor && !HasJob(end.jobs, w.log[k].event.comment)
    decreases |steps|
  {
    if steps != [] {
      SkippedForever(w, config, steps[..|steps| - 1], k);
      CommittedRowStays(Run(w, config, steps[..|steps| - 1]), config, steps[|steps| - 1], k);
    }
    RowDecidesJob(Run(w, config, steps), config, k);
  }

  lemma CommittedRowStays(w: World, config: Config, step: Step, k: nat)
    requires k < |w.log| && w.log[k].state.Committed?
    ensures k < |Perform(w, config, step).log| && Perform(w, config, step).log[k] == w.log[k]
  {
  }

  /** No job carries the token. */
  predicate Stale(w: World, token: nat) { forall i :: 0 <= i < |w.jobs| ==> w.jobs[i].token != Some(token) }

  lemma StepKeepsStale(w: World, config: Config, step: Step, token: nat)
    requires Inv(w, config) && config.maxAttempts > 0 && token < w.nextToken && Stale(w, token)
    ensures token < Perform(w, config, step).nextToken && Stale(Perform(w, config, step), token)
  {
    if step.Materialize? {
      AddJobsGrows(w.jobs, EventsOf(w.log, Readable(w.log, w.cursor, MATERIALIZE_BATCH)), step.now);
    }
  }

  /** A token that has lost its job never regains it, so its late completion can change no job ever again. */
  lemma {:induction false} StaleForever(w: World, config: Config, steps: seq<Step>, token: nat, late: Work, now: int)
    requires Inv(w, config) && config.maxAttempts > 0 && token < w.nextToken && Stale(w, token)
    requires late.token == token && late.phase.Finished?
    ensures Stale(Run(w, config, steps), token) && token < Run(w, config, steps).nextToken
    ensures Perform(Run(w, config, steps), config, Complete(late, now)).jobs == Run(w, config, steps).jobs
    decreases |steps|
  {
    if steps != [] {
      StaleForever(w, config, steps[..|steps| - 1], token, late, now);
      StepKeepsStale(Run(w, config, steps[..|steps| - 1]), config, steps[|steps| - 1], token);
    }
  }

  /** The runner only ever tightens, and only from visible to shadow. */
  lemma RunnerOnlyShadows(w: World, config: Config, step: Step, c: nat)
    requires IsRunnerStep(step) && c in w.comments
    ensures c in Perform(w, config, step).comments
    ensures Perform(w, config, step).comments[c] != w.comments[c] ==>
              w.comments[c].Visible? && Perform(w, config, step).comments[c].Shadow?
  {
  }
}
