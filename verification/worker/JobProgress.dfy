/**
 What the job queue (worker/main.py) does for a job: a claim leases the job it picks, a failed
 attempt waits out its backoff and is tried again, and a job with attempts left can always
 still be finished.
 */
module JobProgress {
  import opened Wrappers
  import opened JobQueue

  // ---------------------------------------------------------------- what one transaction does

  /** All rows but one are as they were. */
  ghost predicate OthersStay(before: map<JobId, Job>, after: map<JobId, Job>, id: JobId) {
    && after.Keys == before.Keys
    && forall i :: i in before && i != id ==> after[i] == before[i]
  }

  /**
   The job a claim picks was due and had attempts left. With its image there it is leased: one more
   attempt, a token no claim has had, an expiry one lease after the lease statement, and a claim that
   owns it; without its image it is failed. Of the others only exhausted ones change, and fail.
   */
  lemma ClaimTakesTheJob(c: Settings, s: State, locked: set<JobId>, toSelect: nat, id: JobId, toLease: nat)
    requires Sane(c) && Good(c, s)
    requires IsPick(c, FailExhausted(c, s.jobs, s.clock), locked, s.clock + toSelect, Some(id))
    ensures id in s.jobs && id !in locked && s.jobs[id].attempts < c.maxAttempts
    ensures
      var (j, t) := (s.jobs[id], ClaimStep(c, s, locked, toSelect, Some(id), toLease));
      var claim := Claimed(id, j.image, s.nextToken, j.attempts + 1);
      && t.jobs.Keys == s.jobs.Keys && t.images == s.images && t.commits == s.commits
      && (j.image in s.images ==>
           && t.clock == s.clock + toSelect + toLease
           && t.jobs[id] == Job(j.image, Processing, j.attempts + 1, Some(s.nextToken), Some(t.clock + c.lease), j.nextAttempt, j.created)
           && (forall x :: x in s.claims ==> x.token != s.nextToken)
           && t.claims == s.claims + {claim} && Owns(t, claim))
      && (j.image !in s.images ==>
           t.jobs[id] == Job(j.image, Failed, j.attempts, None, None, j.nextAttempt, j.created) && t.claims == s.claims)
      && (forall i :: i in s.jobs && i != id ==>
           var k := s.jobs[i];
           t.jobs[i] == if Exhausted(c, k, s.clock) then Job(k.image, Failed, k.attempts, None, None, k.nextAttempt, k.created) else k)
  {
    hide CommitsFit, WasClaimed;
  }

  /** A failed attempt below the limit puts the job back to wait out its backoff; the last one fails it. */
  lemma FailureIsRecorded(c: Settings, s: State, claim: Claimed)
    requires Sane(c) && Good(c, s) && claim in s.claims && Owns(s, claim)
    ensures
      var (j, t) := (s.jobs[claim.job], Step(c, s, RecordFailure(claim)));
      && OthersStay(s.jobs, t.jobs, claim.job) && t == s.(jobs := t.jobs)
      && t.jobs[claim.job] ==
           if j.attempts < c.maxAttempts
           then Job(j.image, Pending, j.attempts, None, None, s.clock + RetryBackoff(c, j.attempts), j.created)
           else Job(j.image, Failed, j.attempts, None, None, s.clock, j.created)
  {
    hide CommitsFit, RetryBackoff;
    OwnerWasClaimed(s, claim);
  }

  lemma DiscardIsRecorded(c: Settings, s: State, claim: Claimed)
    requires Owns(s, claim)
    ensures
      var (j, t) := (s.jobs[claim.job], Step(c, s, MarkDiscarded(claim)));
      && OthersStay(s.jobs, t.jobs, claim.job) && t == s.(jobs := t.jobs)
      && t.jobs[claim.job] == Job(j.image, Failed, j.attempts, None, None, s.clock, j.created)
  {
  }

  // ---------------------------------------------------------------- waiting

  /** Nobody takes a pending job before its time. */
  lemma PendingJobWaits(c: Settings, s: State, e: Event, id: JobId)
    requires Good(c, s) && id in s.jobs && s.jobs[id].status == Pending && s.jobs[id].attempts < c.maxAttempts
    requires Step(c, s, e).clock < s.jobs[id].nextAttempt
    ensures id in Step(c, s, e).jobs ==> Step(c, s, e).jobs[id] == s.jobs[id]
    ensures id !in Step(c, s, e).jobs ==> e == DeleteImage(s.jobs[id].image)
  {
    hide TokensFit, CommitsFit, RetryBackoff;
    ClockAdvances(c, s, e);
  }

  lemma {:induction false} PendingJobWaitsThrough(c: Settings, s: State, events: seq<Event>, id: JobId)
    requires Sane(c) && Good(c, s) && id in s.jobs && s.jobs[id].status == Pending && s.jobs[id].attempts < c.maxAttempts
    requires DeleteImage(s.jobs[id].image) !in events
    requires After(c, s, events).clock < s.jobs[id].nextAttempt
    ensures id in After(c, s, events).jobs && After(c, s, events).jobs[id] == s.jobs[id]
  {
    if events != [] {
      var (shorter, e) := (events[..|events| - 1], events[|events| - 1]);
      assert e in events && forall x :: x in shorter ==> x in events;
      ClockAdvances(c, After(c, s, shorter), e);
      PendingJobWaitsThrough(c, s, shorter, id);
      RunsAreGood(c, s, shorter);
      PendingJobWaits(c, After(c, s, shorter), e, id);
      hide Good, Step;
    }
  }

  /** After a recorded failure no run touches the job until its backoff is over, and then it is eligible again. */
  lemma FailedAttemptsBackOff(c: Settings, s: State, claim: Claimed, events: seq<Event>)
    requires Sane(c) && Good(c, s) && claim in s.claims && Owns(s, claim) && s.jobs[claim.job].attempts < c.maxAttempts
    requires DeleteImage(s.jobs[claim.job].image) !in events
    ensures
      var (t, wait) := (Step(c, s, RecordFailure(claim)), RetryBackoff(c, s.jobs[claim.job].attempts));
      && claim.job in t.jobs
      && (After(c, t, events).clock < s.clock + wait ==>
           claim.job in After(c, t, events).jobs && After(c, t, events).jobs[claim.job] == t.jobs[claim.job])
      && (forall now :: Eligible(c, t.jobs[claim.job], now) <==> now >= s.clock + wait)
  {
    FailureIsRecorded(c, s, claim);
    StepKeepsGood(c, s, RecordFailure(claim));
    hide Good, Owns, RetryBackoff, Step;
    var t := Step(c, s, RecordFailure(claim));
    if After(c, t, events).clock < s.clock + RetryBackoff(c, s.jobs[claim.job].attempts) {
      PendingJobWaitsThrough(c, t, events, claim.job);
    }
  }

  /** Until the cap is reached each wait is exactly twice the one before. */
  lemma BackoffDoubles(c: Settings, a: nat)
    requires Sane(c) && a >= 1
    ensures RetryBackoff(c, 1) == c.backoff
    ensures RetryBackoff(c, a + 1) == if 2 * RetryBackoff(c, a) <= c.backoffMax then 2 * RetryBackoff(c, a) else c.backoffMax
  {
    assert c.backoff * Power(a) == 2 * (c.backoff * Power(a - 1));
    BackoffIsCappedAndMonotone(c, a, a + 1);
  }

  /** Of the intervals of at least a second that fit three times in the lease, the longest that was not asked to be shorter. */
  lemma HeartbeatIsTheLongestSafe(lease: nat, requested: int, h: int)
    requires lease >= 3 && 1 <= h && 3 * h <= lease && (h <= requested || h == 1)
    ensures h <= ClampHeartbeat(lease, requested)
  {
  }

  // ---------------------------------------------------------------- finishing

  lemma {:induction false} AfterFirst(c: Settings, s: State, e: Event, rest: seq<Event>)
    ensures After(c, s, [e] + rest) == After(c, Step(c, s, e), rest)
    decreases |rest|
  {
    var events := [e] + rest;
    if rest == [] {
      assert events[..0] == [] && events == [e];
      assert After(c, s, []) == s;
    } else {
      assert events[..|events| - 1] == [e] + rest[..|rest| - 1];
      AfterFirst(c, s, e, rest[..|rest| - 1]);
    }
    hide Step;
  }

  /** The claim order has a first among any candidates. */
  lemma {:induction false} FirstInOrder(c: Settings, jobs: map<JobId, Job>, ids: set<JobId>) returns (first: JobId)
    requires ids != {} && ids <= jobs.Keys
    ensures first in ids && forall id :: id in ids && id != first ==> Before(jobs[first], first, jobs[id], id)
    decreases |ids|
  {
    first :| first in ids;
    if ids != {first} {
      var other := FirstInOrder(c, jobs, ids - {first});
      if Before(jobs[other], other, jobs[first], first) { first := other; }
    }
  }

  function Due(c: Settings, jobs: map<JobId, Job>, now: Time): set<JobId> {
    set id | id in jobs && Eligible(c, jobs[id], now)
  }

  lemma FailingSparesTheDue(c: Settings, jobs: map<JobId, Job>, now: Time)
    ensures Due(c, FailExhausted(c, jobs, now), now) == Due(c, jobs, now)
    ensures forall id :: id in Due(c, jobs, now) ==> FailExhausted(c, jobs, now)[id] == jobs[id]
  {
  }

  /** What an undisturbed claim picks. */
  lemma FirstIsPicked(c: Settings, s: State) returns (first: JobId)
    requires Due(c, s.jobs, s.clock) != {}
    ensures first in Due(c, s.jobs, s.clock)
    ensures IsPick(c, FailExhausted(c, s.jobs, s.clock), {}, s.clock + 0, Some(first))
  {
    FailingSparesTheDue(c, s.jobs, s.clock);
    var jobs := FailExhausted(c, s.jobs, s.clock);
    first := FirstInOrder(c, jobs, Due(c, jobs, s.clock));
    forall id | Candidate(c, jobs, {}, s.clock, id) ensures id in Due(c, jobs, s.clock) {}
  }

  /** The claim leaves one job fewer due. */
  lemma ClaimShortensTheQueue(c: Settings, s: State, first: JobId)
    requires Sane(c) && Good(c, s) && first in Due(c, s.jobs, s.clock)
    requires IsPick(c, FailExhausted(c, s.jobs, s.clock), {}, s.clock + 0, Some(first))
    ensures
      var t := Step(c, s, Claim({}, 0, Some(first), 0));
      && t.clock == s.clock && Due(c, t.jobs, t.clock) == Due(c, s.jobs, s.clock) - {first}
      && t.images == s.images && t.commits == s.commits
      && (forall id :: id in Due(c, s.jobs, s.clock) && id != first ==> id in t.jobs && t.jobs[id] == s.jobs[id])
  {
    ClaimTakesTheJob(c, s, {}, 0, first, 0);
    var t := Step(c, s, Claim({}, 0, Some(first), 0));
    assert t.clock == s.clock by { hide Good, IsPick; }
    hide Good, IsPick, ClaimStep, FailExhausted;
    forall id | id in s.jobs ensures id in Due(c, t.jobs, t.clock) <==> id in Due(c, s.jobs, s.clock) && id != first {
    }
  }

  /** The run finishes the job with one commit more. */
  ghost predicate Finishes(c: Settings, s: State, events: seq<Event>, id: JobId) {
    var t := After(c, s, events);
    && id in t.jobs && t.jobs[id].status == Done
    && |t.commits| == |s.commits| + 1 && t.commits[..|s.commits|] == s.commits && t.commits[|s.commits|].job == id
  }

  lemma ClaimedJobFinishes(c: Settings, s: State, id: JobId)
    requires Sane(c) && Good(c, s) && id in Due(c, s.jobs, s.clock) && s.jobs[id].image in s.images
    requires IsPick(c, FailExhausted(c, s.jobs, s.clock), {}, s.clock + 0, Some(id))
    ensures
      var claim := Claimed(id, s.jobs[id].image, s.nextToken, s.jobs[id].attempts + 1);
      Finishes(c, s, [Claim({}, 0, Some(id), 0), WriteResults(claim, 0)], id)
  {
    ClaimTakesTheJob(c, s, {}, 0, id, 0);
    var claim := Claimed(id, s.jobs[id].image, s.nextToken, s.jobs[id].attempts + 1);
    var t := Step(c, s, Claim({}, 0, Some(id), 0));
    hide Good, IsPick, ClaimStep, FailExhausted;
    AfterFirst(c, s, Claim({}, 0, Some(id), 0), [WriteResults(claim, 0)]);
    AfterFirst(c, t, WriteResults(claim, 0), []);
    assert [WriteResults(claim, 0)] + [] == [WriteResults(claim, 0)];
    assert [Claim({}, 0, Some(id), 0)] + [WriteResults(claim, 0)] == [Claim({}, 0, Some(id), 0), WriteResults(claim, 0)];
    var u := Step(c, t, WriteResults(claim, 0));
    assert After(c, u, []) == u;
    assert t.(clock := t.clock + 0) == t;
  }

  /** Workers that claim and write come to every due job, those before it in the order first. */
  lemma {:induction false} DueJobsCanFinish(c: Settings, s: State, id: JobId) returns (events: seq<Event>)
    requires Sane(c) && Good(c, s) && id in Due(c, s.jobs, s.clock) && s.jobs[id].image in s.images
    ensures Finishes(c, s, events, id)
    ensures forall e :: e in events ==> (e.Claim? && e.locked == {}) || e.WriteResults?
    decreases |Due(c, s.jobs, s.clock)|
  {
    hide Good, IsPick, FailExhausted, Step, Eligible;
    var first := FirstIsPicked(c, s);
    var claiming := Claim({}, 0, Some(first), 0);
    if first == id {
      ClaimedJobFinishes(c, s, id);
      events := [claiming, WriteResults(Claimed(id, s.jobs[id].image, s.nextToken, s.jobs[id].attempts + 1), 0)];
    } else {
      ClaimShortensTheQueue(c, s, first);
      StepKeepsGood(c, s, claiming);
      var rest := DueJobsCanFinish(c, Step(c, s, claiming), id);
      events := [claiming] + rest;
      AfterFirst(c, s, claiming, rest);
      hide Due;
    }
  }

  /** From every good state each job that is not finished, has attempts left and has its image can be brought to its one commit. */
  lemma UnfinishedJobsCanFinish(c: Settings, s: State, id: JobId)
    requires Sane(c) && Good(c, s) && id in s.jobs && !Terminal(s.jobs[id])
    requires s.jobs[id].attempts < c.maxAttempts && s.jobs[id].image in s.images
    ensures exists events :: Finishes(c, s, events, id)
  {
    var wait: nat := if ReadyAt(s.jobs[id]) > s.clock then ReadyAt(s.jobs[id]) - s.clock else 0;
    var t := Step(c, s, Tick(wait));
    assert JobFits(c, s.jobs[id]);
    UnfinishedJobsBecomeReady(c, s.jobs[id], t.clock);
    StepKeepsGood(c, s, Tick(wait));
    hide Good;
    var rest := DueJobsCanFinish(c, t, id);
    AfterFirst(c, s, Tick(wait), rest);
    assert Finishes(c, s, [Tick(wait)] + rest, id);
  }

  /** A job just enqueued can be finished, and so can one whose attempt failed below the limit. */
  lemma NewJobsCanFinish(c: Settings, s: State, id: JobId, image: ImageId)
    requires Sane(c) && Good(c, s) && id !in s.jobs && image !in s.images && forall x :: x in s.claims ==> x.job != id
    ensures exists events :: Finishes(c, Step(c, s, Enqueue(id, image)), events, id)
  {
    StepKeepsGood(c, s, Enqueue(id, image));
    hide Good;
    UnfinishedJobsCanFinish(c, Step(c, s, Enqueue(id, image)), id);
  }

  lemma FailedAttemptsCanFinish(c: Settings, s: State, claim: Claimed)
    requires Sane(c) && Good(c, s) && claim in s.claims && Owns(s, claim)
    requires s.jobs[claim.job].attempts < c.maxAttempts && s.jobs[claim.job].image in s.images
    ensures exists events :: Finishes(c, Step(c, s, RecordFailure(claim)), events, claim.job)
  {
    FailureIsRecorded(c, s, claim);
    StepKeepsGood(c, s, RecordFailure(claim));
    hide Good, RetryBackoff;
    UnfinishedJobsCanFinish(c, Step(c, s, RecordFailure(claim)), claim.job);
  }
}
