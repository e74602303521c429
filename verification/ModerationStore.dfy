/** The moderation tables and the runner's batches over them. */
module ModerationStore {
  import opened Money
  import opened Moderation

  const CLAIM_BATCH := 16
  const RECLAIM_BATCH := 32

  /** A run of steps applied in order. */
  ghost function Performed(w: World, config: Config, steps: seq<Step>): World {
    if steps == [] then w else Perform(Performed(w, config, steps[..|steps| - 1]), config, steps[|steps| - 1])
  }

  lemma PerformedThen(w: World, config: Config, steps: seq<Step>, step: Step)
    ensures Performed(w, config, steps + [step]) == Perform(Performed(w, config, steps), config, step)
  {
    assert (steps + [step])[..|steps|] == steps;
  }

  /** Due jobs are taken by time of availability, then of last change; expired ones by time of lease. */
  datatype Queue = DueJobs | ExpiredJobs {
    predicate Holds(job: Job, now: int) { if DueJobs? then Due(job, now) else Expired(job, now) }
    predicate Before(a: Job, b: Job) {
      if DueJobs? then a.availableAt < b.availableAt || (a.availableAt == b.availableAt && a.updatedAt < b.updatedAt)
      else a.leaseUntil < b.leaseUntil
    }
  }

  predicate IsFirst(queue: Queue, jobs: seq<Job>, now: int, i: nat) {
    && i < |jobs| && queue.Holds(jobs[i], now)
    && forall j :: 0 <= j < |jobs| && queue.Holds(jobs[j], now) ==>
         queue.Before(jobs[i], jobs[j]) || (!queue.Before(jobs[j], jobs[i]) && i <= j)
  }

  /** First of the due jobs: available soonest, among those changed longest ago, then the lowest row. */
  lemma FirstDueIsEarliest(jobs: seq<Job>, now: int, i: nat)
    ensures IsFirst(DueJobs, jobs, now, i)
       <==> && i < |jobs| && Due(jobs[i], now)
            && forall j :: 0 <= j < |jobs| && Due(jobs[j], now) ==>
                 && jobs[i].availableAt <= jobs[j].availableAt
                 && (jobs[i].availableAt == jobs[j].availableAt ==>
                       && jobs[i].updatedAt <= jobs[j].updatedAt
                       && (jobs[i].updatedAt == jobs[j].updatedAt ==> i <= j))
  {
    if i < |jobs| && Due(jobs[i], now) {
      forall j | 0 <= j < |jobs| && Due(jobs[j], now) ensures DueJobs.Holds(jobs[j], now) {}
    }
  }

  /** First of the expired leases: run out longest ago, then the lowest row. */
  lemma FirstExpiredIsOldest(jobs: seq<Job>, now: int, i: nat)
    ensures IsFirst(ExpiredJobs, jobs, now, i)
       <==> && i < |jobs| && Expired(jobs[i], now)
            && forall j :: 0 <= j < |jobs| && Expired(jobs[j], now) ==>
                 && jobs[i].leaseUntil <= jobs[j].leaseUntil
                 && (jobs[i].leaseUntil == jobs[j].leaseUntil ==> i <= j)
  {
    if i < |jobs| && Expired(jobs[i], now) {
      forall j | 0 <= j < |jobs| && Expired(jobs[j], now) ensures ExpiredJobs.Holds(jobs[j], now) {}
    }
  }

  /** The first of a queue, unless it is empty. */
  method FindFirst(queue: Queue, jobs: seq<Job>, now: int) returns (r: Option<nat>)
    ensures r.Some? ==> IsFirst(queue, jobs, now, r.value)
    ensures r.None? ==> forall i :: 0 <= i < |jobs| ==> !queue.Holds(jobs[i], now)
  {
    r := None;
    for i := 0 to |jobs|
      invariant r.Some? ==> r.value < i && IsFirst(queue, jobs[..i], now, r.value)
      invariant r.None? ==> forall j :: 0 <= j < i ==> !queue.Holds(jobs[j], now)
    {
      if queue.Holds(jobs[i], now) && (r.None? || queue.Before(jobs[i], jobs[r.value])) { r := Some(i); }
    }
    assert jobs[..|jobs|] == jobs;
  }

  /** Each step took the first of its queue at that moment. */
  ghost predicate InOrder(w: World, config: Config, queue: Queue, steps: seq<Step>, now: int) {
    forall k :: 0 <= k < |steps| ==> FirstTaken(w, config, queue, steps, now, k)
  }

  ghost predicate FirstTaken(w: World, config: Config, queue: Queue, steps: seq<Step>, now: int, k: nat)
    requires k < |steps|
  {
    && (if queue.DueJobs? then steps[k].Claim? else steps[k].Reclaim?)
    && IsFirst(queue, Performed(w, config, steps[..k]).jobs, now, steps[k].i)
  }

  lemma InOrderThen(w: World, config: Config, queue: Queue, steps: seq<Step>, now: int, step: Step)
    requires InOrder(w, config, queue, steps, now)
    requires if queue.DueJobs? then step.Claim? else step.Reclaim?
    requires IsFirst(queue, Performed(w, config, steps).jobs, now, step.i)
    ensures InOrder(w, config, queue, steps + [step], now)
  {
    var grown := steps + [step];
    forall k | 0 <= k < |grown| ensures FirstTaken(w, config, queue, grown, now, k) {
      if k < |steps| {
        assert FirstTaken(w, config, queue, steps, now, k);
        assert grown[..k] == steps[..k];
      } else {
        assert grown[..k] == steps;
      }
    }
  }

  /** The committed rows from a point on, in order, at most a batch of them. */
  method ReadBatch(log: seq<LogRow>, from: nat, limit: nat) returns (batch: seq<nat>)
    ensures batch == Readable(log, from, limit)
  {
    batch := [];
    var next := from;
    while next < |log| && |batch| < limit
      invariant |batch| <= limit
      invariant Readable(log, from, limit) == batch + Readable(log, next, limit - |batch|)
      decreases |log| - next
    {
      ReadOne(log, next, limit - |batch|, batch);
      if log[next].state.Committed? { batch := batch + [next]; }
      next := next + 1;
    }
  }

  lemma ReadOne(log: seq<LogRow>, next: nat, room: nat, batch: seq<nat>)
    requires next < |log| && room > 0
    ensures batch + Readable(log, next, room)
         == if log[next].state.Committed? then (batch + [next]) + Readable(log, next + 1, room - 1)
            else batch + Readable(log, next + 1, room)
  {
  }

  class Tables {
    const config: Config
    var log: seq<LogRow>
    var cursor: nat
    var jobs: seq<Job>
    var comments: map<nat, Visibility>
    var nextToken: nat
    ghost var works: set<Work>

    ghost function View(): World
      reads this
    {
      World(log, cursor, jobs, comments, nextToken, works)
    }

    ghost predicate Valid()
      reads this
    {
      Inv(View(), config) && config.maxAttempts > 0
    }

    constructor (config: Config)
      requires config.maxAttempts > 0
      ensures this.config == config && View() == EMPTY && Valid()
    {
      this.config := config;
      log, cursor, jobs, comments, nextToken, works := [], 0, [], map[], 0, {};
      new;
      EveryRunIsBounded(config, []);
    }

    /** Stage one: every comment event of the batch gets its job, then the cursor moves. */
    method MaterializeStage(now: int)
      requires Valid()
      modifies this
      ensures Valid() && View() == MaterializeNext(old(View()), now)
    {
      MaterializeKeepsInv(View(), config, now);
      var batch := ReadBatch(log, cursor, MATERIALIZE_BATCH);
      if batch == [] { return; }
      AddEvents(EventsOf(log, batch), now);
      cursor := batch[|batch| - 1] + 1;
    }

    method AddEvents(events: seq<Event>, now: int)
      modifies this`jobs
      ensures jobs == AddJobs(old(jobs), events, now)
    {
      for i := 0 to |events|
        invariant jobs == AddJobs(old(jobs), events[..i], now)
      {
        assert events[..i + 1][..i] == events[..i];
        if events[i].CommentPosted? {
          var known := Find(events[i].comment);
          if !known { jobs := jobs + [Job(events[i].comment, Queued, now, now, None, 0, 0)]; }
        }
      }
      assert events[..|events|] == events;
    }

    method Find(comment: nat) returns (known: bool)
      ensures known <==> HasJob(jobs, comment)
    {
      for i := 0 to |jobs|
        invariant forall j :: 0 <= j < i ==> jobs[j].comment != comment
      {
        if jobs[i].comment == comment { return true; }
      }
      return false;
    }

    /** Expired leases first: requeued, or failed once the attempts are used up. */
    method ReclaimExpired(now: int) returns (count: nat, ghost steps: seq<Step>)
      requires Valid()
      modifies this
      ensures Valid() && count <= RECLAIM_BATCH && |steps| == count
      ensures View() == Performed(old(View()), config, steps)
      ensures InOrder(old(View()), config, ExpiredJobs, steps, now)
      ensures count < RECLAIM_BATCH ==> forall i :: 0 <= i < |jobs| ==> !Expired(jobs[i], now)
    {
      count, steps := 0, [];
      while count < RECLAIM_BATCH
        invariant Valid() && count <= RECLAIM_BATCH && |steps| == count
        invariant View() == Performed(old(View()), config, steps)
        invariant InOrder(old(View()), config, ExpiredJobs, steps, now)
      {
        var first := FindFirst(ExpiredJobs, jobs, now);
        if first.None? { return; }
        ghost var step := Reclaim(first.value, now);
        InOrderThen(old(View()), config, ExpiredJobs, steps, now, step);
        PerformedThen(old(View()), config, steps, step);
        steps := steps + [step];
        ReclaimOne(first.value, now);
        count := count + 1;
      }
    }

    method ReclaimOne(i: nat, now: int)
      requires Valid() && i < |jobs| && Expired(jobs[i], now)
      modifies this
      ensures Valid() && View() == ReclaimNext(old(View()), config, i, now)
    {
      ReclaimKeepsInv(View(), config, i, now);
      var status := if jobs[i].attempts >= config.maxAttempts then Failed else Queued;
      jobs := jobs[i := jobs[i].(status := status, token := None, leaseUntil := 0, updatedAt := now)];
    }

    method ClaimOne(i: nat, now: int, lease: int) returns (work: Work)
      requires Valid() && i < |jobs| && Due(jobs[i], now)
      modifies this
      ensures Valid() && View() == ClaimNext(old(View()), i, now, lease)
      ensures works == old(works) + {work} && work.phase.Claimed? && work.job == i
    {
      ClaimKeepsInv(View(), config, i, now, lease);
      var job := jobs[i].(status := Running, token := Some(nextToken), leaseUntil := now + lease,
                          attempts := jobs[i].attempts + 1, updatedAt := now);
      work := Work(i, job.comment, nextToken, job.attempts, Claimed);
      jobs, nextToken, works := jobs[i := job], nextToken + 1, works + {work};
    }

    /** Takes due jobs under fresh tokens; each claim is one more attempt. */
    method ClaimDue(now: int, lease: int) returns (claimed: seq<Work>, ghost steps: seq<Step>)
      requires Valid()
      modifies this
      ensures Valid() && |claimed| <= CLAIM_BATCH && |steps| == |claimed|
      ensures View() == Performed(old(View()), config, steps)
      ensures InOrder(old(View()), config, DueJobs, steps, now)
      ensures forall k :: 0 <= k < |claimed| ==>
                claimed[k].phase.Claimed? && claimed[k] in works && steps[k].Claim? && claimed[k].job == steps[k].i
      ensures |claimed| < CLAIM_BATCH ==> forall i :: 0 <= i < |jobs| ==> !Due(jobs[i], now)
    {
      claimed, steps := [], [];
      while |claimed| < CLAIM_BATCH
        invariant Valid() && |claimed| <= CLAIM_BATCH && |steps| == |claimed|
        invariant View() == Performed(old(View()), config, steps)
        invariant InOrder(old(View()), config, DueJobs, steps, now)
        invariant forall k :: 0 <= k < |claimed| ==>
                    claimed[k].phase.Claimed? && claimed[k] in works && steps[k].Claim? && claimed[k].job == steps[k].i
      {
        var first := FindFirst(DueJobs, jobs, now);
        if first.None? { return; }
        ghost var step := Claim(first.value, now, lease);
        InOrderThen(old(View()), config, DueJobs, steps, now, step);
        PerformedThen(old(View()), config, steps, step);
        steps := steps + [step];
        var work := ClaimOne(first.value, now, lease);
        claimed := claimed + [work];
      }
    }

    /** Re-checks the join under the comment's lock before it writes. */
    method ApplyEscalation(comment: nat, verdict: Verdict)
      modifies this`comments
      ensures comments == if comment in old(comments) && Escalated(old(comments)[comment], verdict).Some?
                          then old(comments)[comment := Shadow] else old(comments)
    {
      if comment !in comments { return; }
      var to := Escalated(comments[comment], verdict);
      if to.Some? { comments := comments[comment := to.value]; }
    }

    /** Completes the job only while the token is current. */
    method CompleteJob(work: Work, now: int) returns (current: bool)
      requires Valid() && work in works && work.phase.Finished?
      modifies this
      ensures Valid() && View() == CompleteNext(old(View()), config, work, now)
      ensures current == Current(old(View()), work)
      ensures !current ==> jobs == old(jobs)
    {
      CompleteKeepsInv(View(), config, work, now);
      works := works - {work};
      if work.job >= |jobs| || !jobs[work.job].status.Running? || jobs[work.job].token != Some(work.token) {
        return false;
      }
      var status := if !work.phase.error then Done else if work.phase.terminal then Failed else Queued;
      var until := if status.Queued? then now + BackoffSecs(config.backoffBase, work.attempts) else now;
      jobs := jobs[work.job := jobs[work.job].(status := status, token := None, leaseUntil := 0,
                                               availableAt := until, updatedAt := until)];
      return true;
    }
  }
}
