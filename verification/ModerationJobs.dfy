/** One job from claim to completion: what each step does to its row, and what the work does to the comment. */
module ModerationJobs {
  import opened Money
  import opened Moderation

  // ---------------------------------------------------------------- verdicts and waiting

  /** Only a visible comment with a shadow verdict is escalated, and then it is shadowed. */
  lemma EscalatesIff(current: Visibility, verdict: Verdict)
    ensures Escalated(current, verdict)
         == if current == Visible && verdict == ShadowVerdict then Some(Shadow) else None
  {
  }

  function Capped(secs: int): int { if secs > I64_MAX then I64_MAX else secs }

  lemma CappedDoubles(base: nat, p: nat)
    ensures var kept := Capped(base);
            Capped(kept * (2 * p)) == Capped(2 * Capped(kept * p))
  {
    var kept := Capped(base);
    assert kept * (2 * p) == 2 * (kept * p);
  }

  /** The wait starts at the base, doubles with each of the first eight attempts, then stays; never beyond 64 bits. */
  lemma BackoffDoubles(base: nat, attempts: nat)
    ensures BackoffSecs(base, 0) == Capped(base)
    ensures BackoffSecs(base, attempts + 1)
         == if attempts < 8 then Capped(2 * BackoffSecs(base, attempts)) else BackoffSecs(base, attempts)
  {
    if attempts < 8 { CappedDoubles(base, Power(attempts)); }
  }

  // ---------------------------------------------------------------- the rows

  /** A claim takes exactly a queued row that is available, under a token nobody has, for one more attempt. */
  lemma ClaimIsExact(w: World, config: Config, i: nat, now: int, lease: int)
    requires Inv(w, config)
    ensures var after := ClaimNext(w, i, now, lease);
            if i < |w.jobs| && w.jobs[i].status.Queued? && w.jobs[i].availableAt <= now
            then var token := w.nextToken;
                 && (forall j :: 0 <= j < |w.jobs| ==> w.jobs[j].token != Some(token))
                 && (forall work :: work in w.works ==> work.token != token)
                 && after == w.(jobs := after.jobs, works := after.works, nextToken := after.nextToken)
                 && after.nextToken > token
                 && after.jobs == w.jobs[i := Job(w.jobs[i].comment, Running, w.jobs[i].availableAt, now, Some(token),
                                                  now + lease, w.jobs[i].attempts + 1)]
                 && after.works == w.works + {Work(i, w.jobs[i].comment, token, w.jobs[i].attempts + 1, Claimed)}
            else after == w
  {
    forall work | work in w.works ensures work.token != w.nextToken { assert WorkKept(w, config, work); }
    forall j | 0 <= j < |w.jobs| ensures w.jobs[j].token != Some(w.nextToken) {
      assert JobKept(w.jobs[j], config, w.nextToken);
    }
  }

  /** A lease that has run out is taken back exactly then: for another try, or for good after the last attempt. */
  lemma ReclaimIsExact(w: World, config: Config, i: nat, now: int)
    ensures var after := ReclaimNext(w, config, i, now);
            if i < |w.jobs| && w.jobs[i].status.Running? && w.jobs[i].leaseUntil <= now
            then && after == w.(jobs := after.jobs)
                 && after.jobs == w.jobs[i := w.jobs[i].(status := after.jobs[i].status, token := None, leaseUntil := 0,
                                                         updatedAt := now)]
                 && (after.jobs[i].status.Failed? <==> w.jobs[i].attempts >= config.maxAttempts)
                 && (after.jobs[i].status.Queued? <==> w.jobs[i].attempts < config.maxAttempts)
            else after == w
  {
  }

  /** A completion counts exactly while its token is current; it ends the job, or queues it again after its wait. */
  lemma CompleteIsExact(w: World, config: Config, work: Work, now: int)
    requires work.phase.Finished?
    ensures var after := CompleteNext(w, config, work, now);
            && after.works == w.works - {work}
            && if work.job < |w.jobs| && w.jobs[work.job].status.Running? && w.jobs[work.job].token == Some(work.token)
               then var job := after.jobs[work.job];
                    && after == w.(jobs := w.jobs[work.job := job], works := after.works)
                    && job.comment == w.jobs[work.job].comment && job.attempts == w.jobs[work.job].attempts
                    && job.token.None? && job.leaseUntil == 0 && job.updatedAt == job.availableAt
                    && (job.status.Done? <==> !work.phase.error)
                    && (job.status.Failed? <==> work.phase.error && work.phase.terminal)
                    && (job.status.Queued? <==> work.phase.error && !work.phase.terminal)
                    && job.availableAt
                       == now + (if job.status.Queued? then BackoffSecs(config.backoffBase, work.attempts) else 0)
               else after == w.(works := after.works)
  {
  }

  // ---------------------------------------------------------------- the work

  /** What a runner concludes: missing, settled, unreachable, to be shadowed, or fine. */
  lemma ScreenIsExact(w: World, config: Config, work: Work, screened: Option<Verdict>)
    ensures var phase := Progress(w, config, work, screened);
            var known := work.comment in w.comments;
            && (phase.MustEscalate? <==>
                  known && w.comments[work.comment] == Visible && screened == Some(ShadowVerdict))
            && (phase.MustEscalate? ==> phase.verdict == ShadowVerdict)
            && (phase.Finished? && phase.error <==>
                  !known || (w.comments[work.comment] == Visible && screened.None?))
            && (phase.Finished? && phase.error ==> (phase.terminal <==> !known || work.attempts >= config.maxAttempts))
            && !phase.Claimed?
  {
  }

  /** The claimed copy of a due job, and the steps that work it off. */
  ghost function CopyOf(w: World, i: nat): Work
    requires i < |w.jobs|
  {
    Work(i, w.jobs[i].comment, w.nextToken, w.jobs[i].attempts + 1, Claimed)
  }

  ghost function WorkedOff(w: World, i: nat, now: int, lease: int, verdict: Verdict): seq<Step>
    requires i < |w.jobs|
  {
    var copy := CopyOf(w, i);
    [Claim(i, now, lease), Screen(copy, Some(verdict))]
    + (if verdict.ShadowVerdict? then [Escalate(copy.(phase := MustEscalate(verdict)), true)] else [])
    + [Complete(copy.(phase := Finished(false, true)), now)]
  }

  lemma ClaimThenScreen(w: World, config: Config, i: nat, now: int, lease: int, verdict: Verdict)
    requires Inv(w, config) && i < |w.jobs| && Due(w.jobs[i], now)
    requires w.jobs[i].comment in w.comments && w.comments[w.jobs[i].comment] == Visible
    ensures var copy := CopyOf(w, i);
            var claimed := Perform(w, config, Claim(i, now, lease));
            var phase := if verdict.ShadowVerdict? then MustEscalate(verdict) else Finished(false, true);
            Perform(claimed, config, Screen(copy, Some(verdict)))
            == claimed.(works := claimed.works - {copy} + {copy.(phase := phase)})
  {
    var copy := CopyOf(w, i);
    assert copy in ClaimNext(w, i, now, lease).works;
  }

  lemma EscalationShadows(w: World, config: Config, work: Work)
    requires work in w.works && work.phase == MustEscalate(ShadowVerdict)
    requires work.comment in w.comments && w.comments[work.comment] == Visible
    ensures Perform(w, config, Escalate(work, true))
         == w.(comments := w.comments[work.comment := Shadow],
               works := w.works - {work} + {work.(phase := Finished(false, true))})
  {
  }

  /** The world once job `i` is done and its copy is gone. */
  ghost predicate JobDone(w: World, after: World, i: nat, verdict: Verdict)
    requires i < |w.jobs|
  {
    var comment := w.jobs[i].comment;
    && after.works == w.works && after.log == w.log && after.cursor == w.cursor
    && after.comments == (if verdict.ShadowVerdict? then w.comments[comment := Shadow] else w.comments)
    && |after.jobs| == |w.jobs| && after.jobs[i].status.Done? && after.jobs[i].attempts == w.jobs[i].attempts + 1
    && (forall j :: 0 <= j < |w.jobs| && j != i ==> after.jobs[j] == w.jobs[j])
  }

  /** A screened copy is completed: the job is done, and the copy that was claimed for it is gone. */
  lemma CompletionEnds(w: World, config: Config, i: nat, now: int, lease: int, screened: World, verdict: Verdict)
    requires Inv(w, config) && i < |w.jobs| && Due(w.jobs[i], now)
    requires var copy := CopyOf(w, i);
             var claimed := ClaimNext(w, i, now, lease);
             && screened == claimed.(works := screened.works, comments := screened.comments)
             && screened.works == w.works + {copy.(phase := Finished(false, true))}
             && screened.comments == if verdict.ShadowVerdict? then w.comments[copy.comment := Shadow] else w.comments
    ensures var done := CopyOf(w, i).(phase := Finished(false, true));
            JobDone(w, Perform(screened, config, Complete(done, now)), i, verdict)
  {
    var work := CopyOf(w, i).(phase := Finished(false, true));
    ClaimIsExact(w, config, i, now, lease);
    CompleteIsExact(screened, config, work, now);
    assert work !in w.works;
    assert w.works + {work} - {work} == w.works;
  }

  lemma CopyIsSwapped(works: set<Work>, a: Work, b: Work)
    requires a !in works
    ensures works + {a} - {a} + {b} == works + {b}
  {
  }

  /**
   A due job of a visible comment that is worked without interruption is done:
   with a shadow verdict the comment is shadowed, otherwise it stays visible,
   and nothing else changes.
   */
  lemma JobIsWorkedOff(w: World, config: Config, i: nat, now: int, lease: int, verdict: Verdict)
    requires Inv(w, config) && i < |w.jobs| && Due(w.jobs[i], now)
    requires w.jobs[i].comment in w.comments && w.comments[w.jobs[i].comment] == Visible
    ensures JobDone(w, Run(w, config, WorkedOff(w, i, now, lease, verdict)), i, verdict)
  {
    var copy, steps := CopyOf(w, i), WorkedOff(w, i, now, lease, verdict);
    var claimed, done := ClaimNext(w, i, now, lease), copy.(phase := Finished(false, true));
    ClaimIsExact(w, config, i, now, lease);
    ClaimThenScreen(w, config, i, now, lease, verdict);
    var phase := if verdict.ShadowVerdict? then MustEscalate(verdict) else Finished(false, true);
    CopyIsSwapped(w.works, copy, copy.(phase := phase));
    TwoSteps(w, config, steps[0], steps[1]);
    assert steps[..2] == [steps[0], steps[1]];
    var screened := Run(w, config, steps[..2]);
    assert screened == claimed.(works := w.works + {copy.(phase := phase)});
    if verdict.ShadowVerdict? {
      EscalationShadows(screened, config, copy.(phase := phase));
      CopyIsSwapped(w.works, copy.(phase := phase), done);
      RunThen(w, config, steps[..2], steps[2]);
      assert steps[..2] + [steps[2]] == steps[..3];
      CompletionEnds(w, config, i, now, lease, Run(w, config, steps[..3]), verdict);
      RunThen(w, config, steps[..3], steps[3]);
      assert steps[..3] + [steps[3]] == steps;
    } else {
      CompletionEnds(w, config, i, now, lease, screened, verdict);
      RunThen(w, config, steps[..2], steps[2]);
      assert steps[..2] + [steps[2]] == steps;
    }
  }

  lemma TwoSteps(w: World, config: Config, first: Step, second: Step)
    requires Inv(w, config) && config.maxAttempts > 0
    ensures Run(w, config, [first, second]) == Perform(Perform(w, config, first), config, second)
  {
    RunThen(w, config, [], first);
    assert [] + [first] == [first];
    RunThen(w, config, [first], second);
    assert [first] + [second] == [first, second];
  }
}
