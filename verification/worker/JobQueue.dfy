/**
 The leased detection-job queue (worker/main.py): any number of workers claim, renew,
 finish, fail and discard jobs under a lease token, an expiry and an attempt counter.
 Each transaction is one step; a crashed worker simply takes no more steps. Time is
 counted in ticks, and the settings are in the same ticks.
 */
module JobQueue {
  import opened Wrappers

  type JobId = nat
  type ImageId = nat
  type Token = nat
  type Time = int

  datatype Settings = Settings(maxAttempts: nat, lease: nat, backoff: nat, backoffMax: nat)

  /** How the settings are clamped when the worker starts. */
  ghost predicate Sane(c: Settings) {
    c.maxAttempts >= 1 && c.lease >= 3 && 1 <= c.backoff <= c.backoffMax
  }

  datatype Status = Pending | Processing | Done | Failed

  datatype Job = Job(image: ImageId, status: Status, attempts: nat, token: Option<Token>, expires: Option<Time>,
                     nextAttempt: Time, created: Time)

  /** What a successful claim hands to its worker. */
  datatype Claimed = Claimed(job: JobId, image: ImageId, token: Token, attempts: nat)

  datatype Commit = Commit(job: JobId, token: Token, at: Time)

  datatype State = State(clock: Time, images: set<ImageId>, jobs: map<JobId, Job>, claims: set<Claimed>,
                         nextToken: Token, commits: seq<Commit>)

  datatype Event =
    | Tick(ticks: nat)
    | Enqueue(id: JobId, image: ImageId)
    | DeleteImage(image: ImageId)
    | Claim(locked: set<JobId>, toSelect: nat, picked: Option<JobId>, toLease: nat)
    | Renew(claim: Claimed)
    | WriteResults(claim: Claimed, duration: nat)
    | RecordFailure(claim: Claimed)
    | MarkDiscarded(claim: Claimed)

  // ---------------------------------------------------------------- the transactions

  predicate Lapsed(j: Job, now: Time) {
    j.expires.None? || j.expires.value <= now
  }

  /** Out of attempts with nobody holding it: a worker killed on its last attempt. */
  predicate Exhausted(c: Settings, j: Job, now: Time) {
    j.attempts >= c.maxAttempts && (j.status == Pending || (j.status == Processing && Lapsed(j, now)))
  }

  predicate Eligible(c: Settings, j: Job, now: Time) {
    j.attempts < c.maxAttempts
    && ((j.status == Pending && j.nextAttempt <= now) || (j.status == Processing && Lapsed(j, now)))
  }

  function Finished(j: Job, status: Status): Job {
    j.(status := status, token := None, expires := None)
  }

  function FailExhausted(c: Settings, jobs: map<JobId, Job>, now: Time): map<JobId, Job> {
    map id | id in jobs :: if Exhausted(c, jobs[id], now) then Finished(jobs[id], Failed) else jobs[id]
  }

  /** The claim order: next attempt, then creation, then id. */
  predicate Before(a: Job, ai: JobId, b: Job, bi: JobId) {
    a.nextAttempt < b.nextAttempt
    || (a.nextAttempt == b.nextAttempt && (a.created < b.created || (a.created == b.created && ai < bi)))
  }

  predicate Candidate(c: Settings, jobs: map<JobId, Job>, locked: set<JobId>, now: Time, id: JobId) {
    id in jobs && id !in locked && Eligible(c, jobs[id], now)
  }

  /** The first eligible job that no other transaction has locked, or nothing if there is none. */
  ghost predicate IsPick(c: Settings, jobs: map<JobId, Job>, locked: set<JobId>, now: Time, picked: Option<JobId>) {
    match picked
    case None => forall id :: !Candidate(c, jobs, locked, now, id)
    case Some(p) =>
      && Candidate(c, jobs, locked, now, p)
      && forall id :: Candidate(c, jobs, locked, now, id) && id != p ==> Before(jobs[p], p, jobs[id], id)
  }

  function Leased(c: Settings, j: Job, token: Token, now: Time): Job {
    j.(status := Processing, attempts := j.attempts + 1, token := Some(token), expires := Some(now + c.lease))
  }

  /** The claim's own token on a processing job whose lease is still running. */
  predicate Owns(s: State, claim: Claimed) {
    && claim.job in s.jobs
    && var j := s.jobs[claim.job];
    j.status == Processing && j.token == Some(claim.token) && !Lapsed(j, s.clock)
  }

  function Power(n: nat): nat {
    if n == 0 then 1 else 2 * Power(n - 1)
  }

  /** Capped exponential backoff after a failed attempt. */
  function RetryBackoff(c: Settings, attempts: nat): nat {
    var wait := c.backoff * Power(if attempts == 0 then 0 else attempts - 1);
    if wait <= c.backoffMax then wait else c.backoffMax
  }

  function WithJob(s: State, id: JobId, j: Job): State {
    s.(jobs := s.jobs[id := j])
  }

  function AfterFailure(c: Settings, j: Job, claim: Claimed, now: Time): Job {
    if claim.attempts < c.maxAttempts
    then Finished(j, Pending).(nextAttempt := now + RetryBackoff(c, claim.attempts))
    else Finished(j, Failed).(nextAttempt := now)
  }

  ghost function ClaimStep(c: Settings, s: State, locked: set<JobId>, toSelect: nat, picked: Option<JobId>, toLease: nat): State {
    var jobs := FailExhausted(c, s.jobs, s.clock);
    var selected := s.clock + toSelect;
    if !IsPick(c, jobs, locked, selected, picked) then s
    else match picked
      case None => s.(jobs := jobs, clock := selected)
      case Some(id) =>
        if jobs[id].image !in s.images then s.(jobs := jobs[id := Finished(jobs[id], Failed)], clock := selected)
        else
          var leased := Leased(c, jobs[id], s.nextToken, selected + toLease);
          s.(jobs := jobs[id := leased], clock := selected + toLease, nextToken := s.nextToken + 1,
             claims := s.claims + {Claimed(id, leased.image, s.nextToken, leased.attempts)})
  }

  ghost function Step(c: Settings, s: State, e: Event): State {
    match e
    case Tick(ticks) => s.(clock := s.clock + ticks)
    case Enqueue(id, image) =>
      if id in s.jobs || image in s.images || exists x :: x in s.claims && x.job == id then s
      else s.(images := s.images + {image}, jobs := s.jobs[id := Job(image, Pending, 0, None, None, s.clock, s.clock)])
    case DeleteImage(image) =>
      s.(images := s.images - {image}, jobs := map id | id in s.jobs && s.jobs[id].image != image :: s.jobs[id])
    case Claim(locked, toSelect, picked, toLease) => ClaimStep(c, s, locked, toSelect, picked, toLease)
    case Renew(claim) =>
      if Owns(s, claim) then WithJob(s, claim.job, s.jobs[claim.job].(expires := Some(s.clock + c.lease))) else s
    case WriteResults(claim, duration) =>
      var later := s.(clock := s.clock + duration);
      if Owns(s, claim) && claim.image in s.images && Owns(later, claim)
      then WithJob(later, claim.job, Finished(s.jobs[claim.job], Done).(nextAttempt := later.clock))
             .(commits := s.commits + [Commit(claim.job, claim.token, later.clock)])
      else later
    case RecordFailure(claim) =>
      if Owns(s, claim) then WithJob(s, claim.job, AfterFailure(c, s.jobs[claim.job], claim, s.clock)) else s
    case MarkDiscarded(claim) =>
      if Owns(s, claim) then WithJob(s, claim.job, Finished(s.jobs[claim.job], Failed).(nextAttempt := s.clock)) else s
  }

  // ---------------------------------------------------------------- the invariant

  /** A job carries a token and an expiry exactly while a claim is processing it; legacy processing rows have neither. */
  ghost predicate JobFits(c: Settings, j: Job) {
    && j.attempts <= c.maxAttempts
    && (j.token.Some? <==> j.status == Processing && j.attempts > 0)
    && (j.expires.Some? <==> j.token.Some?)
  }

  ghost predicate TokensFit(s: State) {
    && (forall x :: x in s.claims ==> x.token < s.nextToken)
    && (forall x, y :: x in s.claims && y in s.claims && x.token == y.token ==> x == y)
    && (forall id :: id in s.jobs && s.jobs[id].token.Some? ==>
         Claimed(id, s.jobs[id].image, s.jobs[id].token.value, s.jobs[id].attempts) in s.claims)
  }

  ghost predicate WasClaimed(claims: set<Claimed>, job: JobId, token: Token) {
    exists x :: x in claims && x.job == job && x.token == token
  }

  ghost predicate CommitsFit(s: State) {
    && (forall i, k :: 0 <= i < k < |s.commits| ==> s.commits[i].job != s.commits[k].job)
    && (forall k :: 0 <= k < |s.commits| ==> WasClaimed(s.claims, s.commits[k].job, s.commits[k].token))
    && (forall k :: 0 <= k < |s.commits| && s.commits[k].job in s.jobs ==> s.jobs[s.commits[k].job].status == Done)
  }

  ghost predicate Good(c: Settings, s: State) {
    && (forall id :: id in s.jobs ==> JobFits(c, s.jobs[id]))
    && TokensFit(s) && CommitsFit(s)
  }

  /** No claims yet; rows may be left over from before leases existed, pending or processing. */
  ghost predicate Initial(s: State) {
    && s.claims == {} && s.nextToken == 0 && s.commits == []
    && forall id :: id in s.jobs ==> s.jobs[id].attempts == 0 && s.jobs[id].token.None? && s.jobs[id].expires.None?
  }

  lemma OwnerWasClaimed(s: State, claim: Claimed)
    requires TokensFit(s) && Owns(s, claim)
    ensures WasClaimed(s.claims, claim.job, claim.token)
    ensures forall x :: x in s.claims && x.token == claim.token ==>
      x == Claimed(claim.job, s.jobs[claim.job].image, claim.token, s.jobs[claim.job].attempts)
  {
    assert Claimed(claim.job, s.jobs[claim.job].image, claim.token, s.jobs[claim.job].attempts) in s.claims;
  }

  lemma ClaimedJobIsUsed(claims: set<Claimed>, job: JobId, token: Token)
    requires WasClaimed(claims, job, token)
    ensures exists x :: x in claims && x.job == job
  {
  }

  /** Claims only accumulate. */
  lemma StillClaimed(claims: set<Claimed>, more: set<Claimed>, job: JobId, token: Token)
    requires claims <= more && WasClaimed(claims, job, token)
    ensures WasClaimed(more, job, token)
  {
    var x :| x in claims && x.job == job && x.token == token;
    assert x in more;
  }

  lemma FailExhaustedKeepsGood(c: Settings, s: State, now: Time)
    requires Good(c, s)
    ensures Good(c, s.(jobs := FailExhausted(c, s.jobs, s.clock), clock := now))
  {
    hide WasClaimed;
  }

  /** An unfinished job may be failed, or leased under a new token. */
  lemma LeaseKeepsTokens(c: Settings, s: State, id: JobId, token: Token, now: Time)
    requires TokensFit(s) && id in s.jobs && token == s.nextToken
    ensures
      var leased := Leased(c, s.jobs[id], token, now);
      TokensFit(s.(jobs := s.jobs[id := leased], nextToken := token + 1, claims := s.claims + {Claimed(id, leased.image, token, leased.attempts)}))
  {
  }

  lemma CommitsSurvive(s: State, t: State)
    requires CommitsFit(s) && t.commits == s.commits && s.claims <= t.claims
    requires forall id :: id in t.jobs && id in s.jobs && s.jobs[id].status == Done ==> t.jobs[id].status == Done
    requires forall id :: id in t.jobs && id !in s.jobs ==> forall x :: x in s.claims ==> x.job != id
    ensures CommitsFit(t)
  {
    forall k | 0 <= k < |t.commits|
      ensures WasClaimed(t.claims, t.commits[k].job, t.commits[k].token)
      ensures t.commits[k].job in t.jobs ==> t.commits[k].job in s.jobs
    {
      StillClaimed(s.claims, t.claims, s.commits[k].job, s.commits[k].token);
      ClaimedJobIsUsed(s.claims, s.commits[k].job, s.commits[k].token);
    }
    hide WasClaimed;
  }

  lemma LeasingKeepsGood(c: Settings, s: State, id: JobId, now: Time)
    requires Good(c, s) && id in s.jobs && s.jobs[id].attempts < c.maxAttempts && s.jobs[id].status != Done
    ensures
      var leased := Leased(c, s.jobs[id], s.nextToken, now);
      Good(c, s.(jobs := s.jobs[id := leased], clock := now, nextToken := s.nextToken + 1,
                 claims := s.claims + {Claimed(id, leased.image, s.nextToken, leased.attempts)}))
  {
    var leased := Leased(c, s.jobs[id], s.nextToken, now);
    var t := s.(jobs := s.jobs[id := leased], clock := now, nextToken := s.nextToken + 1,
                claims := s.claims + {Claimed(id, leased.image, s.nextToken, leased.attempts)});
    LeaseKeepsTokens(c, s, id, s.nextToken, now);
    assert TokensFit(t) by { hide CommitsFit, JobFits; }
    CommitsSurvive(s, t);
    hide CommitsFit, TokensFit;
  }

  lemma FailingKeepsGood(c: Settings, s: State, id: JobId)
    requires Good(c, s) && id in s.jobs && s.jobs[id].status != Done
    ensures Good(c, s.(jobs := s.jobs[id := Finished(s.jobs[id], Failed)]))
  {
    CommitsSurvive(s, s.(jobs := s.jobs[id := Finished(s.jobs[id], Failed)]));
    hide CommitsFit;
  }

  lemma ClaimKeepsGood(c: Settings, s: State, locked: set<JobId>, toSelect: nat, picked: Option<JobId>, toLease: nat)
    requires Sane(c) && Good(c, s)
    ensures Good(c, ClaimStep(c, s, locked, toSelect, picked, toLease))
  {
    hide Good, FailExhausted, Leased, Finished;
    var failed := s.(jobs := FailExhausted(c, s.jobs, s.clock), clock := s.clock + toSelect);
    FailExhaustedKeepsGood(c, s, s.clock + toSelect);
    if IsPick(c, failed.jobs, locked, s.clock + toSelect, picked) && picked.Some? {
      PickIsOpen(c, failed.jobs, locked, s.clock + toSelect, picked.value);
      hide IsPick;
      if failed.jobs[picked.value].image !in s.images {
        FailingKeepsGood(c, failed, picked.value);
      } else {
        LeasingKeepsGood(c, failed, picked.value, s.clock + toSelect + toLease);
      }
    }
  }

  lemma PickIsOpen(c: Settings, jobs: map<JobId, Job>, locked: set<JobId>, now: Time, p: JobId)
    requires IsPick(c, jobs, locked, now, Some(p))
    ensures p in jobs && jobs[p].attempts < c.maxAttempts && jobs[p].status != Done
  {
  }

  /** The owner replaces its row, keeping the token with its attempt count or giving it up. */
  lemma OwnerMayUpdate(c: Settings, s: State, claim: Claimed, j: Job)
    requires Good(c, s) && Owns(s, claim) && JobFits(c, j)
    requires j.token.None? || (j.token == s.jobs[claim.job].token && j.attempts == s.jobs[claim.job].attempts && j.image == s.jobs[claim.job].image)
    ensures Good(c, WithJob(s, claim.job, j))
  {
    CommitsSurvive(s, WithJob(s, claim.job, j));
    hide CommitsFit;
  }

  lemma WriteKeepsGood(c: Settings, s: State, claim: Claimed, duration: nat)
    requires Sane(c) && Good(c, s)
    ensures Good(c, Step(c, s, WriteResults(claim, duration)))
  {
    if Owns(s, claim) {
      OwnerWasClaimed(s, claim);
      OwnerMayUpdate(c, s, claim, Finished(s.jobs[claim.job], Done).(nextAttempt := s.clock + duration));
    }
    hide WasClaimed;
  }

  lemma EnqueueKeepsGood(c: Settings, s: State, id: JobId, image: ImageId)
    requires Good(c, s)
    ensures Good(c, Step(c, s, Enqueue(id, image)))
  {
    CommitsSurvive(s, Step(c, s, Enqueue(id, image)));
    hide CommitsFit;
  }

  lemma DeleteKeepsGood(c: Settings, s: State, image: ImageId)
    requires Good(c, s)
    ensures Good(c, Step(c, s, DeleteImage(image)))
  {
    CommitsSurvive(s, Step(c, s, DeleteImage(image)));
    hide CommitsFit;
  }

  lemma StepKeepsGood(c: Settings, s: State, e: Event)
    requires Sane(c) && Good(c, s)
    ensures Good(c, Step(c, s, e))
  {
    match e {
      case Tick(ticks) => hide WasClaimed;
      case Enqueue(id, image) => hide Good, Step; EnqueueKeepsGood(c, s, id, image);
      case DeleteImage(image) => hide Good, Step; DeleteKeepsGood(c, s, image);
      case Claim(locked, toSelect, picked, toLease) => hide Good, ClaimStep; ClaimKeepsGood(c, s, locked, toSelect, picked, toLease);
      case WriteResults(claim, duration) => hide Good, Step; WriteKeepsGood(c, s, claim, duration);
      case _ =>
        if Owns(s, e.claim) {
          assert JobFits(c, s.jobs[e.claim.job]);
          hide Good, RetryBackoff;
          OwnerMayUpdate(c, s, e.claim, Step(c, s, e).jobs[e.claim.job]);
        }
    }
  }

  // ---------------------------------------------------------------- runs

  ghost function After(c: Settings, s: State, events: seq<Event>): State {
    if events == [] then s else Step(c, After(c, s, events[..|events| - 1]), events[|events| - 1])
  }

  lemma {:induction false} RunsAreGood(c: Settings, s: State, events: seq<Event>)
    requires Sane(c) && Good(c, s)
    ensures Good(c, After(c, s, events))
  {
    if events != [] {
      RunsAreGood(c, s, events[..|events| - 1]);
      StepKeepsGood(c, After(c, s, events[..|events| - 1]), events[|events| - 1]);
      hide Good, Step;
    }
  }

  /** In every interleaving of every set of workers each job's results are committed at most once, by a worker that had claimed it. */
  lemma ResultsAreWrittenOnce(c: Settings, start: State, events: seq<Event>)
    requires Sane(c) && Initial(start)
    ensures
      var commits := After(c, start, events).commits;
      && (forall i, k :: 0 <= i < k < |commits| ==> commits[i].job != commits[k].job)
      && (forall k :: 0 <= k < |commits| ==> WasClaimed(After(c, start, events).claims, commits[k].job, commits[k].token))
  {
    RunsAreGood(c, start, events);
  }

  lemma AttemptsStayBounded(c: Settings, start: State, events: seq<Event>, id: JobId)
    requires Sane(c) && Initial(start) && id in After(c, start, events).jobs
    ensures After(c, start, events).jobs[id].attempts <= c.maxAttempts
    ensures After(c, start, events).jobs[id].token.Some? <==>
      After(c, start, events).jobs[id].status == Processing && After(c, start, events).jobs[id].attempts > 0
  {
    RunsAreGood(c, start, events);
  }

  // ---------------------------------------------------------------- fencing

  /** A worker that is not the current owner changes nothing but the time it takes. */
  lemma StaleWorkersChangeNothing(c: Settings, s: State, claim: Claimed, duration: nat)
    requires !Owns(s, claim)
    ensures Step(c, s, Renew(claim)) == Step(c, s, RecordFailure(claim)) == Step(c, s, MarkDiscarded(claim)) == s
    ensures Step(c, s, WriteResults(claim, duration)) == s.(clock := s.clock + duration)
  {
  }

  /** A commit happens exactly for the owner whose lease outlives the whole transaction and whose image is still there. */
  lemma OnlyTheOwnerCommits(c: Settings, s: State, claim: Claimed, duration: nat)
    ensures Step(c, s, WriteResults(claim, duration)).commits != s.commits <==>
      claim.image in s.images && Owns(s.(clock := s.clock + duration), claim)
  {
  }

  /** Ownership once lost, by expiry, failure, discard or reclaim, never comes back to the same claim. */
  lemma LostIsLost(c: Settings, s: State, e: Event, claim: Claimed)
    requires Sane(c) && Good(c, s) && claim in s.claims && !Owns(s, claim)
    ensures claim in Step(c, s, e).claims && !Owns(Step(c, s, e), claim)
  {
    hide CommitsFit, RetryBackoff;
    if e.Enqueue? {
    } else if e.Claim? {
    } else {
    }
  }

  lemma {:induction false} LostForGood(c: Settings, s: State, events: seq<Event>, claim: Claimed)
    requires Sane(c) && Good(c, s) && claim in s.claims && !Owns(s, claim)
    ensures claim in After(c, s, events).claims && !Owns(After(c, s, events), claim)
  {
    if events != [] {
      LostForGood(c, s, events[..|events| - 1], claim);
      RunsAreGood(c, s, events[..|events| - 1]);
      LostIsLost(c, After(c, s, events[..|events| - 1]), events[|events| - 1], claim);
      hide Good, Step, Owns;
    }
  }

  /** A worker whose lease was once lost never again changes a job, whatever it tries and however long the run. */
  lemma LostWorkersStayOut(c: Settings, s: State, events: seq<Event>, claim: Claimed, duration: nat)
    requires Sane(c) && Good(c, s) && claim in s.claims && !Owns(s, claim)
    ensures
      var t := After(c, s, events);
      && Step(c, t, Renew(claim)) == Step(c, t, RecordFailure(claim)) == Step(c, t, MarkDiscarded(claim)) == t
      && Step(c, t, WriteResults(claim, duration)) == t.(clock := t.clock + duration)
  {
    LostForGood(c, s, events, claim);
    hide Step, Owns, After;
    StaleWorkersChangeNothing(c, After(c, s, events), claim, duration);
  }

  /** The transaction that wrote a commit: its worker owned the job, on a lease outliving the transaction, with the image there. */
  ghost predicate CommitsAt(c: Settings, start: State, events: seq<Event>, m: nat, commit: Commit)
    requires m < |events|
  {
    && events[m].WriteResults?
    && var (s, claim) := (After(c, start, events[..m]), events[m].claim);
    && commit == Commit(claim.job, claim.token, s.clock + events[m].duration)
    && claim.image in s.images && Owns(s.(clock := s.clock + events[m].duration), claim)
  }

  lemma CommitsAreAppended(c: Settings, s: State, e: Event)
    ensures var t := Step(c, s, e);
      t.commits == s.commits ||
      (e.WriteResults? && t.commits == s.commits + [Commit(e.claim.job, e.claim.token, s.clock + e.duration)])
  {
  }

  /** In any run every commit stands for one such transaction. */
  lemma {:induction false} CommitsWereOwned(c: Settings, start: State, events: seq<Event>, k: nat)
    requires start.commits == [] && k < |After(c, start, events).commits|
    ensures exists m :: 0 <= m < |events| && CommitsAt(c, start, events, m, After(c, start, events).commits[k])
  {
    if events != [] {
      var (rest, e) := (events[..|events| - 1], events[|events| - 1]);
      var (s, t) := (After(c, start, rest), After(c, start, events));
      CommitsAreAppended(c, s, e);
      if k < |s.commits| {
        hide Step, Owns;
        CommitsWereOwned(c, start, rest, k);
        var m :| 0 <= m < |rest| && CommitsAt(c, start, rest, m, s.commits[k]);
        assert rest[..m] == events[..m];
        assert CommitsAt(c, start, events, m, t.commits[k]);
      } else {
        OnlyTheOwnerCommits(c, s, e.claim, e.duration);
        hide Step, Owns;
        assert CommitsAt(c, start, events, |rest|, t.commits[k]);
      }
    }
  }

  /** Two claims never own at the same time unless they are the same claim on the same job. */
  lemma OneOwner(s: State, a: Claimed, b: Claimed)
    requires TokensFit(s) && a in s.claims && b in s.claims && a.job == b.job && Owns(s, a) && Owns(s, b)
    ensures a == b
  {
  }

  predicate Terminal(j: Job) {
    j.status == Done || j.status == Failed
  }

  /** Done and failed jobs never change again; they can only go with their image. */
  lemma TerminalIsAbsorbing(c: Settings, s: State, e: Event, id: JobId)
    requires Good(c, s) && id in s.jobs && Terminal(s.jobs[id])
    ensures id in Step(c, s, e).jobs ==> Step(c, s, e).jobs[id] == s.jobs[id]
    ensures id !in Step(c, s, e).jobs ==> e == DeleteImage(s.jobs[id].image)
  {
    hide TokensFit, CommitsFit, RetryBackoff;
  }

  // ---------------------------------------------------------------- every job finishes

  function Rank(status: Status): nat {
    match status
    case Processing => 2
    case Pending => 1
    case _ => 0
  }

  /** Attempts left, then how far the status still has to go. */
  function Remaining(c: Settings, j: Job): int {
    3 * (c.maxAttempts - j.attempts) + Rank(j.status)
  }

  ghost predicate SameWork(a: Job, b: Job) {
    a.status == b.status && a.attempts == b.attempts && a.token == b.token
  }

  /** Each step either leaves a job's status, attempts and token alone or uses up some of what remains. */
  lemma WorkOnlyRunsOut(c: Settings, s: State, e: Event, id: JobId)
    requires Sane(c) && Good(c, s) && id in s.jobs && id in Step(c, s, e).jobs
    ensures SameWork(Step(c, s, e).jobs[id], s.jobs[id]) || 0 <= Remaining(c, Step(c, s, e).jobs[id]) < Remaining(c, s.jobs[id])
  {
    hide TokensFit, CommitsFit, RetryBackoff;
    assert Good(c, s) ==> JobFits(c, s.jobs[id]);
  }

  /** How often a run changes a job's status, attempts or token while the job exists. */
  ghost function Changes(c: Settings, s: State, events: seq<Event>, id: JobId): nat {
    if events == [] then 0
    else
      var before := After(c, s, events[..|events| - 1]);
      var t := Step(c, before, events[|events| - 1]);
      Changes(c, s, events[..|events| - 1], id)
      + (if id in before.jobs && id in t.jobs && !SameWork(t.jobs[id], before.jobs[id]) then 1 else 0)
  }

  ghost predicate PresentThroughout(c: Settings, s: State, events: seq<Event>, id: JobId) {
    forall k :: 0 <= k <= |events| ==> id in After(c, s, events[..k]).jobs
  }

  /** However many workers fight over a job, it changes at most three times an attempt before it is finished. */
  lemma {:induction false} ChangesAreBounded(c: Settings, s: State, events: seq<Event>, id: JobId)
    requires Sane(c) && Good(c, s) && PresentThroughout(c, s, events, id)
    ensures id in s.jobs && id in After(c, s, events).jobs
    ensures Changes(c, s, events, id) + Remaining(c, After(c, s, events).jobs[id]) <= Remaining(c, s.jobs[id]) <= 3 * c.maxAttempts + 2
  {
    assert events[..0] == [] && events[..|events|] == events;
    assert id in After(c, s, events[..0]).jobs && id in After(c, s, events[..|events|]).jobs;
    if events == [] {
      assert JobFits(c, s.jobs[id]);
    } else {
      var shorter := events[..|events| - 1];
      forall k | 0 <= k <= |shorter| ensures id in After(c, s, shorter[..k]).jobs { assert shorter[..k] == events[..k]; }
      ChangesAreBounded(c, s, shorter, id);
      RunsAreGood(c, s, shorter);
      WorkOnlyRunsOut(c, After(c, s, shorter), events[|events| - 1], id);
      hide Good, Step, SameWork, Remaining;
    }
  }

  /** When a job has waited out its backoff or its lease. */
  function ReadyAt(j: Job): Time {
    if j.status == Pending then j.nextAttempt else if j.expires.Some? then j.expires.value else j.created
  }

  /** A job that is not finished can be claimed, or failed if it is out of attempts, as soon as it is ready. */
  lemma UnfinishedJobsBecomeReady(c: Settings, j: Job, now: Time)
    requires JobFits(c, j) && !Terminal(j) && now >= ReadyAt(j)
    ensures if j.attempts < c.maxAttempts then Eligible(c, j, now) else Exhausted(c, j, now)
  {
  }

  /**
   A claim at any moment: exhausted jobs are failed, and if some unlocked job is ready with attempts
   left, the first of them in claim order moves on; so no ready job waits for ever behind others
   that never change.
   */
  lemma ClaimMakesProgress(c: Settings, s: State, locked: set<JobId>, toSelect: nat, picked: Option<JobId>, toLease: nat, id: JobId)
    requires Sane(c) && Good(c, s) && id in s.jobs
    requires IsPick(c, FailExhausted(c, s.jobs, s.clock), locked, s.clock + toSelect, picked)
    ensures
      var t := ClaimStep(c, s, locked, toSelect, picked, toLease);
      && (Exhausted(c, s.jobs[id], s.clock) ==> t.jobs[id].status == Failed && t.jobs[id].attempts == s.jobs[id].attempts)
      && (Eligible(c, s.jobs[id], s.clock + toSelect) && id !in locked ==>
           picked.Some? && picked.value in s.jobs && Remaining(c, t.jobs[picked.value]) < Remaining(c, s.jobs[picked.value])
           && (picked.value == id || Before(s.jobs[picked.value], picked.value, s.jobs[id], id)))
  {
    hide TokensFit, CommitsFit;
    var jobs := FailExhausted(c, s.jobs, s.clock);
    if Eligible(c, s.jobs[id], s.clock + toSelect) && id !in locked {
      assert jobs[id] == s.jobs[id] && Candidate(c, jobs, locked, s.clock + toSelect, id);
    }
  }

  /** The claim order leaves no ties, so the job a claim picks is determined. */
  lemma PickIsUnique(c: Settings, jobs: map<JobId, Job>, locked: set<JobId>, now: Time, a: Option<JobId>, b: Option<JobId>)
    requires IsPick(c, jobs, locked, now, a) && IsPick(c, jobs, locked, now, b)
    ensures a == b
  {
  }

  // ---------------------------------------------------------------- backoff and heartbeat

  lemma {:induction false} PowerGrows(a: nat, b: nat)
    requires a <= b
    ensures 1 <= Power(a) <= Power(b)
    decreases b
  {
    if a < b { PowerGrows(a, b - 1); } else if a > 0 { PowerGrows(a - 1, b - 1); }
  }

  lemma ScaleGrows(k: nat, a: nat, b: nat)
    requires a <= b
    ensures k * a <= k * b
  {
  }

  /** The wait starts at the base, never shrinks from one failure to the next, at most doubles, and stays within the cap. */
  lemma BackoffIsCappedAndMonotone(c: Settings, a: nat, b: nat)
    requires Sane(c) && a <= b
    ensures c.backoff <= RetryBackoff(c, a) <= RetryBackoff(c, b) <= c.backoffMax
    ensures a <= 1 ==> RetryBackoff(c, a) == c.backoff
    ensures RetryBackoff(c, a + 1) <= 2 * RetryBackoff(c, a)
  {
    var (i, j) := (if a == 0 then 0 else a - 1, if b == 0 then 0 else b - 1);
    PowerGrows(0, i);
    PowerGrows(i, j);
    ScaleGrows(c.backoff, 1, Power(i));
    ScaleGrows(c.backoff, Power(i), Power(j));
    if a > 0 {
      assert c.backoff * Power(a) == 2 * (c.backoff * Power(a - 1));
    }
  }

  /** The heartbeat interval the worker uses for a lease length and a requested interval. */
  function ClampHeartbeat(lease: int, requested: int): (h: int)
    ensures h >= 1
  {
    var safe := if lease >= 3 then lease else 3;
    var wanted := if requested >= 1 then requested else 1;
    var third := if safe / 3 >= 1 then safe / 3 else 1;
    if wanted <= third then wanted else third
  }

  /** Three heartbeats fit in a lease, and a safe request is left as it is. */
  lemma HeartbeatFitsTheLease(lease: nat, requested: int)
    requires lease >= 3
    ensures 3 * ClampHeartbeat(lease, requested) <= lease
    ensures 1 <= requested && 3 * requested <= lease ==> ClampHeartbeat(lease, requested) == requested
  {
  }

  /** No event of the claim's own worker, and its image stays. */
  predicate Undisturbed(claim: Claimed, image: ImageId, e: Event) {
    match e
    case WriteResults(x, _) => x.token != claim.token
    case RecordFailure(x) => x.token != claim.token
    case MarkDiscarded(x) => x.token != claim.token
    case DeleteImage(i) => i != image
    case _ => true
  }

  /** Time never runs backwards. */
  lemma ClockAdvances(c: Settings, s: State, e: Event)
    ensures s.clock <= Step(c, s, e).clock
  {
    hide RetryBackoff, FailExhausted, IsPick, Owns;
  }

  /** No lease runs past a full lease from now. */
  ghost predicate LeasesFit(c: Settings, s: State) {
    forall id :: id in s.jobs && s.jobs[id].expires.Some? ==> s.jobs[id].expires.value <= s.clock + c.lease
  }

  lemma StepKeepsLeases(c: Settings, s: State, e: Event)
    requires LeasesFit(c, s)
    ensures LeasesFit(c, Step(c, s, e))
  {
    hide RetryBackoff;
  }

  /** While a lease runs nobody else can take the job, and its expiry only moves on. */
  lemma LeaseHolds(c: Settings, s: State, e: Event, claim: Claimed)
    requires Sane(c) && Good(c, s) && LeasesFit(c, s) && Owns(s, claim)
    requires Undisturbed(claim, s.jobs[claim.job].image, e) && Step(c, s, e).clock < s.jobs[claim.job].expires.value
    ensures Owns(Step(c, s, e), claim)
    ensures Step(c, s, e).jobs[claim.job].expires.value >= s.jobs[claim.job].expires.value
    ensures Step(c, s, e).jobs[claim.job].image == s.jobs[claim.job].image
  {
    hide CommitsFit, RetryBackoff;
    assert JobFits(c, s.jobs[claim.job]);
    assert Claimed(claim.job, s.jobs[claim.job].image, claim.token, s.jobs[claim.job].attempts) in s.claims;
  }

  lemma {:induction false} LeaseHoldsThrough(c: Settings, s: State, events: seq<Event>, claim: Claimed)
    requires Sane(c) && Good(c, s) && LeasesFit(c, s) && Owns(s, claim)
    requires forall e :: e in events ==> Undisturbed(claim, s.jobs[claim.job].image, e)
    requires After(c, s, events).clock < s.jobs[claim.job].expires.value
    ensures Owns(After(c, s, events), claim) && LeasesFit(c, After(c, s, events))
    ensures After(c, s, events).jobs[claim.job].expires.value >= s.jobs[claim.job].expires.value
    ensures After(c, s, events).jobs[claim.job].image == s.jobs[claim.job].image
  {
    if events != [] {
      var (shorter, e) := (events[..|events| - 1], events[|events| - 1]);
      assert e in events && forall x :: x in shorter ==> x in events;
      ClockAdvances(c, After(c, s, shorter), e);
      LeaseHoldsThrough(c, s, shorter, claim);
      RunsAreGood(c, s, shorter);
      StepKeepsLeases(c, After(c, s, shorter), e);
      LeaseHolds(c, After(c, s, shorter), e, claim);
      hide Good, LeasesFit, Step, Undisturbed;
    }
  }

  /**
   From a fresh lease, whatever other workers do, a renewal that comes one heartbeat later plus
   less than two thirds of a lease still finds the lease and makes it fresh again.
   */
  lemma HeartbeatKeepsTheLease(c: Settings, s: State, events: seq<Event>, claim: Claimed, requested: int, late: nat)
    requires Sane(c) && Good(c, s) && LeasesFit(c, s)
    requires Owns(s, claim) && s.jobs[claim.job].expires == Some(s.clock + c.lease)
    requires forall e :: e in events ==> Undisturbed(claim, s.jobs[claim.job].image, e)
    requires After(c, s, events).clock <= s.clock + ClampHeartbeat(c.lease, requested) + late && 3 * late < 2 * c.lease
    ensures
      var t := After(c, s, events);
      && Owns(t, claim)
      && Owns(Step(c, t, Renew(claim)), claim)
      && Step(c, t, Renew(claim)).jobs[claim.job].expires == Some(t.clock + c.lease)
  {
    HeartbeatFitsTheLease(c.lease, requested);
    LeaseHoldsThrough(c, s, events, claim);
    hide Good, LeasesFit, Undisturbed, ClampHeartbeat;
  }

  /** Left alone, a fresh lease is still there one heartbeat and some lateness later exactly if together they are under a lease. */
  lemma LatenessMargin(c: Settings, s: State, claim: Claimed, requested: int, late: nat)
    requires c.lease >= 3 && Owns(s, claim) && s.jobs[claim.job].expires == Some(s.clock + c.lease)
    ensures Owns(Step(c, s, Tick(ClampHeartbeat(c.lease, requested) + late)), claim)
       <==> late < c.lease - ClampHeartbeat(c.lease, requested)
  {
    HeartbeatFitsTheLease(c.lease, requested);
  }

  // ---------------------------------------------------------------- the worker's statements

  /** The job table with the database clock; claims and commits are recorded for the proof. */
  class JobTable {
    var clock: Time
    var images: set<ImageId>
    var jobs: map<JobId, Job>
    var nextToken: Token
    ghost var claims: set<Claimed>
    ghost var commits: seq<Commit>

    ghost function Table(): State
      reads this
    {
      State(clock, images, jobs, claims, nextToken, commits)
    }

    constructor (now: Time)
      ensures Initial(Table()) && jobs == map[] && clock == now
    {
      clock, images, jobs, nextToken, claims, commits := now, {}, map[], 0, {}, [];
    }

    /** The first of the eligible unlocked rows in claim order. */
    method SelectJob(c: Settings, locked: set<JobId>) returns (picked: Option<JobId>)
      ensures IsPick(c, jobs, locked, clock, picked)
    {
      picked := None;
      var rest := jobs.Keys;
      while rest != {}
        invariant rest <= jobs.Keys
        invariant picked.None? ==> forall id :: Candidate(c, jobs, locked, clock, id) ==> id in rest
        invariant picked.Some? ==> Candidate(c, jobs, locked, clock, picked.value)
        invariant picked.Some? ==> forall id :: Candidate(c, jobs, locked, clock, id) && id !in rest && id != picked.value ==>
          Before(jobs[picked.value], picked.value, jobs[id], id)
      {
        var id :| id in rest;
        rest := rest - {id};
        if id !in locked && Eligible(c, jobs[id], clock) {
          if picked.None? || Before(jobs[id], id, jobs[picked.value], picked.value) {
            picked := Some(id);
          }
        }
      }
    }

    /** Fails exhausted jobs, then leases the first eligible one; an orphan job is failed instead. */
    method ClaimJob(c: Settings, locked: set<JobId>, toSelect: nat, toLease: nat)
      returns (claim: Option<Claimed>, ghost picked: Option<JobId>)
      modifies this
      ensures IsPick(c, FailExhausted(c, old(jobs), old(clock)), locked, old(clock) + toSelect, picked)
      ensures Table() == ClaimStep(c, old(Table()), locked, toSelect, picked, toLease)
      ensures claims == old(claims) + if claim.Some? then {claim.value} else {}
      ensures claim.Some? <==> picked.Some? && picked.value in old(jobs) && old(jobs)[picked.value].image in old(images)
      ensures claim.Some? ==> claim.value.job == picked.value && (Owns(Table(), claim.value) || c.lease == 0)
    {
      jobs := FailExhausted(c, jobs, clock);
      clock := clock + toSelect;
      var row := SelectJob(c, locked);
      picked := row;
      if row.None? {
        return None, picked;
      }
      var id := row.value;
      if jobs[id].image !in images {
        jobs := jobs[id := Finished(jobs[id], Failed)];
        return None, picked;
      }
      var token := nextToken;
      nextToken := nextToken + 1;
      clock := clock + toLease;
      jobs := jobs[id := Leased(c, jobs[id], token, clock)];
      claim := Some(Claimed(id, jobs[id].image, token, jobs[id].attempts));
      claims := claims + {claim.value};
    }

    /** The condition every fenced UPDATE carries. */
    predicate Live(claim: Claimed)
      reads this
    {
      claim.job in jobs && jobs[claim.job].status == Processing && jobs[claim.job].token == Some(claim.token) && !Lapsed(jobs[claim.job], clock)
    }

    method RenewLease(c: Settings, claim: Claimed) returns (renewed: bool)
      modifies `jobs
      ensures renewed == Owns(old(Table()), claim) && Table() == Step(c, old(Table()), Renew(claim))
    {
      renewed := Live(claim);
      if renewed {
        jobs := jobs[claim.job := jobs[claim.job].(expires := Some(clock + c.lease))];
      }
    }

    /** Fenced on the lease before the result rows are written and again when the job is marked done. */
    method FinishJob(c: Settings, claim: Claimed, duration: nat) returns (committed: bool)
      modifies `jobs, `clock, `commits
      ensures Table() == Step(c, old(Table()), WriteResults(claim, duration))
      ensures committed <==> commits != old(commits)
    {
      var owned := Live(claim) && claim.image in images;
      clock := clock + duration;
      committed := owned && Live(claim);
      if committed {
        jobs := jobs[claim.job := Finished(jobs[claim.job], Done).(nextAttempt := clock)];
        commits := commits + [Commit(claim.job, claim.token, clock)];
      }
    }

    method FailAttempt(c: Settings, claim: Claimed) returns (recorded: bool)
      modifies `jobs
      ensures recorded == Owns(old(Table()), claim) && Table() == Step(c, old(Table()), RecordFailure(claim))
    {
      recorded := Live(claim);
      if recorded {
        if claim.attempts < c.maxAttempts {
          jobs := jobs[claim.job := Finished(jobs[claim.job], Pending).(nextAttempt := clock + RetryBackoff(c, claim.attempts))];
        } else {
          jobs := jobs[claim.job := Finished(jobs[claim.job], Failed).(nextAttempt := clock)];
        }
      }
    }

    method DiscardJob(c: Settings, claim: Claimed)
      modifies `jobs
      ensures Table() == Step(c, old(Table()), MarkDiscarded(claim))
    {
      if Live(claim) {
        jobs := jobs[claim.job := Finished(jobs[claim.job], Failed).(nextAttempt := clock)];
      }
    }
  }
}
