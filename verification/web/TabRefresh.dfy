/**
 Refreshing one stored session from many browser tabs (web/src/lib/api/refreshPolicy.ts,
 web/src/lib/api/refreshLock.ts): a leased lock record shared by the tabs, and under it
 re-reading the stored session before spending its single-use refresh token.

 Tabs share one clock and one store; reading the store and acting on it is one turn. A
 response that was given arrives. A frozen or closed tab takes no more steps.
 */
module TabRefresh {
  import opened Wrappers

  type Token = nat

  const LEASE_MS := 60000
  const RENEW_MS := 15000
  const MAX_RETRY_DELAY_MS := 30000

  // ---------------------------------------------------------------- retries

  function Doubling(n: nat): nat {
    if n == 0 then 1 else 2 * Doubling(n - 1)
  }

  /** The server's wish, kept between 0 and the cap, or else capped doubling from one second. */
  function QueryRetryDelay(attempt: nat, retryAfter: Option<int>): int {
    match retryAfter
    case Some(ms) => var wanted := if ms < 0 then 0 else ms; if wanted <= MAX_RETRY_DELAY_MS then wanted else MAX_RETRY_DELAY_MS
    case None => var wait := 1000 * Doubling(attempt); if wait <= MAX_RETRY_DELAY_MS then wait else MAX_RETRY_DELAY_MS
  }

  lemma {:induction false} DoublingGrows(a: nat, b: nat)
    requires a <= b
    ensures 1 <= Doubling(a) <= Doubling(b)
    decreases b
  {
    if a < b { DoublingGrows(a, b - 1); } else if a > 0 { DoublingGrows(a - 1, b - 1); }
  }

  /** Every wait is bounded, and without a wish from the server it never shrinks from one attempt to the next. */
  lemma RetryDelaysAreBoundedAndGrow(a: nat, b: nat, retryAfter: Option<int>)
    requires a <= b
    ensures 0 <= QueryRetryDelay(a, retryAfter) <= MAX_RETRY_DELAY_MS
    ensures 1000 <= QueryRetryDelay(a, None) <= QueryRetryDelay(b, None)
  {
    DoublingGrows(a, b);
    DoublingGrows(0, a);
  }

  /** A wish is honoured within its bounds; without one the wait starts at a second and doubles until the cap. */
  lemma RetryDelaysDouble(attempt: nat, wish: int)
    ensures QueryRetryDelay(0, None) == 1000
    ensures QueryRetryDelay(attempt + 1, None) ==
      if 2 * QueryRetryDelay(attempt, None) <= MAX_RETRY_DELAY_MS then 2 * QueryRetryDelay(attempt, None) else MAX_RETRY_DELAY_MS
    ensures 0 <= wish <= MAX_RETRY_DELAY_MS ==> QueryRetryDelay(attempt, Some(wish)) == wish
    ensures wish < 0 ==> QueryRetryDelay(attempt, Some(wish)) == 0
    ensures wish > MAX_RETRY_DELAY_MS ==> QueryRetryDelay(attempt, Some(wish)) == MAX_RETRY_DELAY_MS
  {
    DoublingGrows(0, attempt);
  }

  // ---------------------------------------------------------------- the tabs

  datatype Session = SignedOut | Session(access: Token, refresh: Token)

  datatype Reply = Granted(access: Token, refresh: Token) | Rejected | Unavailable

  datatype Outcome = Refreshed | GaveUp | TryAgain

  datatype Phase =
    | Waiting
    | Entered
    | Sending(refresh: Token)
    | Sent(refresh: Token)
    | Answered(refresh: Token, reply: Reply)
    | Leaving(outcome: Outcome)
    | Finished(outcome: Outcome)

  /** `rejected` is the access token the server refused, if the request carried one. */
  datatype Tab = Tab(rejected: Option<Token>, phase: Phase)

  datatype LockEntry = LockEntry(owner: nat, expiresAt: int)

  /**
   `valid` are the refresh tokens the server still takes. `requests` counts refresh requests, `lapsed`
   the tabs that lost the lock to a later one while inside; no guard reads either.
   */
  datatype System = System(clock: int, lock: Option<LockEntry>, stored: Session, tabs: seq<Tab>, valid: set<Token>, next: Token,
                           requests: nat, lapsed: set<nat>)

  datatype Event =
    | Tick(ms: nat)
    | Acquire(tab: nat)
    | Renew(tab: nat)
    | Check(tab: nat)
    | Send(tab: nat)
    | Serve(tab: nat, up: bool)
    | Receive(tab: nat)
    | Release(tab: nat)
    | SignIn
    | SignOut

  predicate Inside(t: Tab) {
    !t.phase.Waiting? && !t.phase.Finished?
  }

  predicate Free(s: System) {
    s.lock.None? || s.lock.value.expiresAt <= s.clock
  }

  function Now(s: System, i: nat, phase: Phase): System
    requires i < |s.tabs|
  {
    s.(tabs := s.tabs[i := s.tabs[i].(phase := phase)])
  }

  function AcquireStep(s: System, i: nat): System
    requires i < |s.tabs|
  {
    if !s.tabs[i].phase.Waiting? || !Free(s) then s
    else Now(s, i, Entered).(lock := Some(LockEntry(i, s.clock + LEASE_MS)),
                             lapsed := if s.lock.Some? then s.lapsed + {s.lock.value.owner} else s.lapsed)
  }

  function RenewStep(s: System, i: nat): System
    requires i < |s.tabs|
  {
    if Inside(s.tabs[i]) && s.lock.Some? && s.lock.value.owner == i
    then s.(lock := Some(LockEntry(i, s.clock + LEASE_MS)))
    else s
  }

  /** Inside the lock: another tab's newer session is enough; a missing one is beyond help. */
  function CheckStep(s: System, i: nat): System
    requires i < |s.tabs|
  {
    if !s.tabs[i].phase.Entered? then s
    else match s.stored
      case SignedOut => Now(s, i, Leaving(GaveUp))
      case Session(access, refresh) =>
        if s.tabs[i].rejected != Some(access) then Now(s, i, Leaving(Refreshed)) else Now(s, i, Sending(refresh))
  }

  function SendStep(s: System, i: nat): System
    requires i < |s.tabs|
  {
    if s.tabs[i].phase.Sending? then Now(s, i, Sent(s.tabs[i].phase.refresh)).(requests := s.requests + 1) else s
  }

  /** The server spends a valid token for a new pair, or turns the request down. */
  function ServeStep(s: System, i: nat, up: bool): System
    requires i < |s.tabs|
  {
    if !s.tabs[i].phase.Sent? then s
    else
      var refresh := s.tabs[i].phase.refresh;
      if !up then Now(s, i, Answered(refresh, Unavailable))
      else if refresh !in s.valid then Now(s, i, Answered(refresh, Rejected))
      else Now(s, i, Answered(refresh, Granted(s.next, s.next + 1))).(valid := s.valid - {refresh} + {s.next + 1}, next := s.next + 2)
  }

  function ReceiveStep(s: System, i: nat): System
    requires i < |s.tabs|
  {
    if !s.tabs[i].phase.Answered? then s
    else match s.tabs[i].phase.reply
      case Granted(access, refresh) => Now(s, i, Leaving(Refreshed)).(stored := Session(access, refresh))
      case Unavailable => Now(s, i, Leaving(TryAgain))
      case Rejected =>
        var after := Now(s, i, Leaving(GaveUp));
        if s.stored.Session? && s.stored.refresh == s.tabs[i].phase.refresh then after.(stored := SignedOut) else after
  }

  function ReleaseStep(s: System, i: nat): System
    requires i < |s.tabs|
  {
    if !s.tabs[i].phase.Leaving? then s
    else
      var after := Now(s, i, Finished(s.tabs[i].phase.outcome));
      if s.lock.Some? && s.lock.value.owner == i then after.(lock := None) else after
  }

  function TabOf(e: Event): Option<nat> {
    match e
    case Tick(_) => None
    case SignIn => None
    case SignOut => None
    case _ => Some(e.tab)
  }

  function Step(s: System, e: Event): System {
    if TabOf(e).Some? && TabOf(e).value >= |s.tabs| then s
    else match e
      case Tick(ms) => s.(clock := s.clock + ms)
      case Acquire(i) => AcquireStep(s, i)
      case Renew(i) => RenewStep(s, i)
      case Check(i) => CheckStep(s, i)
      case Send(i) => SendStep(s, i)
      case Serve(i, up) => ServeStep(s, i, up)
      case Receive(i) => ReceiveStep(s, i)
      case Release(i) => ReleaseStep(s, i)
      case SignIn => s.(stored := Session(s.next, s.next + 1), valid := s.valid + {s.next + 1}, next := s.next + 2)
      case SignOut => s.(stored := SignedOut)
  }

  function After(s: System, events: seq<Event>): System {
    if events == [] then s else Step(After(s, events[..|events| - 1]), events[|events| - 1])
  }

  // ---------------------------------------------------------------- mutual exclusion

  /** Only the owner of the record and tabs that lost it are inside. */
  ghost predicate Excludes(s: System) {
    forall i :: 0 <= i < |s.tabs| && Inside(s.tabs[i]) ==> i in s.lapsed || (s.lock.Some? && s.lock.value.owner == i)
  }

  ghost predicate NobodyInside(s: System) {
    forall i :: 0 <= i < |s.tabs| ==> s.tabs[i].phase.Waiting?
  }

  lemma StepExcludes(s: System, e: Event)
    requires Excludes(s)
    ensures Excludes(Step(s, e))
  {
  }

  lemma {:induction false} RunsExclude(s: System, events: seq<Event>)
    requires NobodyInside(s)
    ensures Excludes(After(s, events))
  {
    if events != [] {
      RunsExclude(s, events[..|events| - 1]);
      StepExcludes(After(s, events[..|events| - 1]), events[|events| - 1]);
    }
  }

  /** Two tabs are inside together only if one of them let its lease lapse. */
  lemma TwoInsideMeansALapse(s: System, events: seq<Event>, a: nat, b: nat)
    requires NobodyInside(s) && a < |After(s, events).tabs| && b < |After(s, events).tabs| && a != b
    requires Inside(After(s, events).tabs[a]) && Inside(After(s, events).tabs[b])
    ensures a in After(s, events).lapsed || b in After(s, events).lapsed
  {
    RunsExclude(s, events);
  }

  /** A tab joins the lapsed only when another finds its record expired, so never while its lease runs. */
  lemma LapsesNeedExpiry(s: System, e: Event, i: nat)
    requires i !in s.lapsed && i in Step(s, e).lapsed
    ensures s.lock.Some? && s.lock.value.owner == i && s.lock.value.expiresAt <= s.clock && e.Acquire?
  {
  }

  /** A renewal at any moment before the record is taken gives a full lease again: four renewal intervals. */
  lemma RenewalGivesAFullLease(s: System, i: nat)
    requires i < |s.tabs| && Inside(s.tabs[i]) && s.lock.Some? && s.lock.value.owner == i
    ensures Step(s, Renew(i)).lock == Some(LockEntry(i, s.clock + 4 * RENEW_MS))
  {
  }

  // ---------------------------------------------------------------- never clearing a live session

  /** Tokens are fresh, and a token the server turned down is not valid any more. */
  ghost predicate Truthful(s: System) {
    && (forall t :: t in s.valid ==> t < s.next)
    && (s.stored.Session? ==> s.stored.access < s.next && s.stored.refresh < s.next)
    && (forall i :: 0 <= i < |s.tabs| ==> match s.tabs[i].phase
          case Sending(r) => r < s.next
          case Sent(r) => r < s.next
          case Answered(r, Rejected) => r < s.next && r !in s.valid
          case Answered(r, Granted(a, fit)) => r < s.next && r !in s.valid && a < s.next && fit < s.next
          case Answered(r, Unavailable) => r < s.next
          case _ => true)
  }

  lemma StepIsTruthful(s: System, e: Event)
    requires Truthful(s)
    ensures Truthful(Step(s, e))
  {
  }

  lemma {:induction false} RunsAreTruthful(s: System, events: seq<Event>)
    requires Truthful(s)
    ensures Truthful(After(s, events))
  {
    if events != [] {
      RunsAreTruthful(s, events[..|events| - 1]);
      StepIsTruthful(After(s, events[..|events| - 1]), events[|events| - 1]);
    }
  }

  /**
   With or without the lock, with sign-ins and sign-outs anywhere: a refresh clears the stored session
   exactly if it was for that very session that the server turned it down, and the server then no longer
   takes its token; a newer session is never cleared.
   */
  lemma OnlyDeadSessionsAreCleared(s: System, events: seq<Event>, i: nat)
    requires Truthful(s) && i < |After(s, events).tabs|
    ensures
      var t := After(s, events);
      t.stored.Session? ==>
        && (Step(t, Receive(i)).stored == SignedOut <==> t.tabs[i].phase == Answered(t.stored.refresh, Rejected))
        && (Step(t, Receive(i)).stored == SignedOut ==> t.stored.refresh !in t.valid)
  {
    RunsAreTruthful(s, events);
  }

  /**
   What a tab does once inside: without a stored session it gives up, with one that its refused token is not of it
   is done without a request, and only for that very session does it get ready to send its refresh token.
   */
  lemma TurnInside(s: System, i: nat)
    requires i < |s.tabs| && s.tabs[i].phase == Entered
    ensures
      var t := Step(s, Check(i));
      && t == s.(tabs := s.tabs[i := t.tabs[i]])
      && (t.tabs[i].phase == Leaving(GaveUp) <==> s.stored == SignedOut)
      && (t.tabs[i].phase == Leaving(Refreshed) <==> s.stored.Session? && s.tabs[i].rejected != Some(s.stored.access))
      && (forall r :: t.tabs[i].phase == Sending(r) <==> s.stored.Session? && s.stored.refresh == r && s.tabs[i].rejected == Some(s.stored.access))
  {
  }

  /** A request with a token the server takes ends in a stored session it takes, and the spent token is no longer taken. */
  lemma SpentForALiveOne(s: System, i: nat, refresh: Token)
    requires Truthful(s) && i < |s.tabs| && s.tabs[i].phase == Sent(refresh) && refresh in s.valid
    ensures
      var t := Step(Step(s, Serve(i, true)), Receive(i));
      && t.tabs[i].phase == Leaving(Refreshed) && t.stored.Session?
      && t.stored.refresh in t.valid && t.stored.refresh !in s.valid && t.valid == s.valid - {refresh} + {t.stored.refresh}
  {
  }

  // ---------------------------------------------------------------- one request for all tabs

  /** The server answers and nobody signs in or out meanwhile. */
  predicate Ordinary(e: Event) {
    !e.SignIn? && !e.SignOut? && (e.Serve? ==> e.up)
  }

  /** Every tab waits with the same refused access token, whose session is the stored one and can still be refreshed. */
  ghost predicate AllRejected(s: System, access: Token, refresh: Token) {
    && s.stored == Session(access, refresh) && refresh in s.valid
    && s.lock.None? && s.lapsed == {} && s.requests == 0 && Truthful(s)
    && forall i :: 0 <= i < |s.tabs| ==> s.tabs[i] == Tab(Some(access), Waiting)
  }

  ghost predicate NoRequestYet(s: System, access: Token, refresh: Token) {
    && s.requests == 0 && s.stored == Session(access, refresh) && refresh in s.valid
    && forall i :: 0 <= i < |s.tabs| ==> s.tabs[i].phase in {Waiting, Entered, Sending(refresh)}
  }

  ghost predicate UnderWay(s: System, access: Token, refresh: Token, i: nat) {
    && s.requests == 1 && s.stored == Session(access, refresh) && i < |s.tabs|
    && ((s.tabs[i].phase == Sent(refresh) && refresh in s.valid)
        || (s.tabs[i].phase.Answered? && s.tabs[i].phase.reply.Granted? && s.tabs[i].phase.reply.access != access))
    && forall k :: 0 <= k < |s.tabs| && k != i ==> s.tabs[k].phase.Waiting?
  }

  ghost predicate Renewed(s: System, access: Token) {
    && s.requests == 1 && s.stored.Session? && s.stored.access != access
    && forall i :: 0 <= i < |s.tabs| ==> s.tabs[i].phase in {Waiting, Entered, Leaving(Refreshed), Finished(Refreshed)}
  }

  ghost predicate Stages(s: System, access: Token, refresh: Token) {
    NoRequestYet(s, access, refresh) || (exists i :: UnderWay(s, access, refresh, i)) || Renewed(s, access)
  }

  ghost predicate OnCourse(s: System, access: Token, refresh: Token) {
    && Stages(s, access, refresh) && access < s.next
    && Truthful(s) && Excludes(s) && s.lapsed == {}
    && (s.lock.Some? ==> s.lock.value.owner < |s.tabs| && Inside(s.tabs[s.lock.value.owner]))
    && forall i :: 0 <= i < |s.tabs| ==> s.tabs[i].rejected == Some(access)
  }

  lemma LapsedGrows(s: System, e: Event)
    ensures s.lapsed <= Step(s, e).lapsed
  {
  }

  lemma FirstStage(s: System, e: Event, access: Token, refresh: Token)
    requires OnCourse(s, access, refresh) && NoRequestYet(s, access, refresh) && Ordinary(e) && Step(s, e).lapsed == {}
    ensures Stages(Step(s, e), access, refresh)
  {
    var t := Step(s, e);
    if e.Send? && e.tab < |s.tabs| && s.tabs[e.tab].phase.Sending? {
      assert UnderWay(t, access, refresh, e.tab);
    } else {
      assert NoRequestYet(t, access, refresh);
    }
  }

  lemma SecondStage(s: System, e: Event, access: Token, refresh: Token, i: nat)
    requires OnCourse(s, access, refresh) && UnderWay(s, access, refresh, i) && Ordinary(e) && Step(s, e).lapsed == {}
    ensures Stages(Step(s, e), access, refresh)
  {
    var t := Step(s, e);
    assert Inside(s.tabs[i]);
    if e.Receive? && e.tab == i && s.tabs[i].phase.Answered? {
      assert Renewed(t, access);
    } else {
      assert UnderWay(t, access, refresh, i);
    }
  }

  lemma LastStage(s: System, e: Event, access: Token, refresh: Token)
    requires OnCourse(s, access, refresh) && Renewed(s, access) && Ordinary(e)
    ensures Renewed(Step(s, e), access)
  {
  }

  lemma StagesMoveOn(s: System, e: Event, access: Token, refresh: Token)
    requires OnCourse(s, access, refresh) && Ordinary(e) && Step(s, e).lapsed == {}
    ensures Stages(Step(s, e), access, refresh)
  {
    hide NoRequestYet, UnderWay, Renewed, Truthful, Excludes, Step, Ordinary;
    if NoRequestYet(s, access, refresh) {
      FirstStage(s, e, access, refresh);
    } else if Renewed(s, access) {
      LastStage(s, e, access, refresh);
    } else {
      var i :| UnderWay(s, access, refresh, i);
      SecondStage(s, e, access, refresh, i);
    }
  }

  /** The owner of the record stays inside, and tabs keep the access token they were refused with. */
  lemma OwnerStaysInside(s: System, e: Event, access: Token, refresh: Token)
    requires OnCourse(s, access, refresh)
    ensures var t := Step(s, e);
      && access < t.next
      && (t.lock.Some? ==> t.lock.value.owner < |t.tabs| && Inside(t.tabs[t.lock.value.owner]))
      && forall i :: 0 <= i < |t.tabs| ==> t.tabs[i].rejected == Some(access)
  {
    hide Truthful, Stages;
  }

  lemma StepStaysOnCourse(s: System, e: Event, access: Token, refresh: Token)
    requires OnCourse(s, access, refresh) && Ordinary(e) && Step(s, e).lapsed == {}
    ensures OnCourse(Step(s, e), access, refresh)
  {
    hide Truthful, Excludes, Stages, Step, Ordinary;
    StepExcludes(s, e);
    StepIsTruthful(s, e);
    StagesMoveOn(s, e, access, refresh);
    OwnerStaysInside(s, e, access, refresh);
  }

  lemma {:induction false} RunsStayOnCourse(s: System, events: seq<Event>, access: Token, refresh: Token)
    requires AllRejected(s, access, refresh) && (forall e :: e in events ==> Ordinary(e)) && After(s, events).lapsed == {}
    ensures OnCourse(After(s, events), access, refresh)
  {
    if events == [] {
      assert NoRequestYet(s, access, refresh);
    } else {
      var (shorter, e) := (events[..|events| - 1], events[|events| - 1]);
      assert e in events && forall x :: x in shorter ==> x in events;
      LapsedGrows(After(s, shorter), e);
      RunsStayOnCourse(s, shorter, access, refresh);
      hide OnCourse, Step, AllRejected;
      StepStaysOnCourse(After(s, shorter), e, access, refresh);
    }
  }

  /**
   While no lease lapses and responses arrive, any number of tabs refused with one access token make
   at most one refresh request between them; a tab that finishes has succeeded, after exactly one.
   */
  lemma OneRequestWithoutLapses(s: System, events: seq<Event>, access: Token, refresh: Token)
    requires AllRejected(s, access, refresh) && (forall e :: e in events ==> Ordinary(e)) && After(s, events).lapsed == {}
    ensures
      var t := After(s, events);
      && t.requests <= 1 && t.stored.Session?
      && forall i :: 0 <= i < |t.tabs| && t.tabs[i].phase.Finished? ==>
        t.tabs[i].phase == Finished(Refreshed) && t.requests == 1 && t.stored.access != access
  {
    RunsStayOnCourse(s, events, access, refresh);
    hide After, Truthful, Excludes;
  }

  // ---------------------------------------------------------------- and all of them finish

  function Left(p: Phase): nat {
    match p
    case Waiting => 6
    case Entered => 5
    case Sending(_) => 4
    case Sent(_) => 3
    case Answered(_, _) => 2
    case Leaving(_) => 1
    case Finished(_) => 0
  }

  function Total(tabs: seq<Tab>): nat {
    if tabs == [] then 0 else Total(tabs[..|tabs| - 1]) + Left(tabs[|tabs| - 1].phase)
  }

  lemma {:induction false} TotalUpdate(tabs: seq<Tab>, i: nat, t: Tab)
    requires i < |tabs|
    ensures Total(tabs[i := t]) + Left(tabs[i].phase) == Total(tabs) + Left(t.phase)
  {
    var n := |tabs| - 1;
    if i < n {
      assert tabs[i := t][..n] == tabs[..n][i := t];
      TotalUpdate(tabs[..n], i, t);
    } else {
      assert tabs[i := t][..n] == tabs[..n];
    }
  }

  lemma {:induction false} TotalBounds(tabs: seq<Tab>)
    ensures Total(tabs) <= 6 * |tabs|
    ensures Total(tabs) == 0 <==> forall i :: 0 <= i < |tabs| ==> tabs[i].phase.Finished?
  {
    if tabs != [] { TotalBounds(tabs[..|tabs| - 1]); }
  }

  /** Each step uses up some of what is left, or moves no tab. */
  lemma StepsUseUpWhatIsLeft(s: System, e: Event)
    ensures Step(s, e).tabs == s.tabs || Total(Step(s, e).tabs) < Total(s.tabs)
  {
    if TabOf(e).Some? && TabOf(e).value < |s.tabs| {
      var i := TabOf(e).value;
      TotalUpdate(s.tabs, i, Step(s, e).tabs[i]);
    }
  }

  /** The next thing a tab inside does. */
  function NextEvent(i: nat, p: Phase): Event {
    match p
    case Entered => Check(i)
    case Sending(_) => Send(i)
    case Sent(_) => Serve(i, true)
    case Answered(_, _) => Receive(i)
    case Leaving(_) => Release(i)
    case _ => Acquire(i)
  }

  lemma NextEventMoves(s: System, i: nat)
    requires i < |s.tabs| && (Inside(s.tabs[i]) || (s.tabs[i].phase.Waiting? && s.lock.None?))
    ensures
      var t := Step(s, NextEvent(i, s.tabs[i].phase));
      && t.lapsed == s.lapsed && Ordinary(NextEvent(i, s.tabs[i].phase))
      && |t.tabs| == |s.tabs| && Left(t.tabs[i].phase) < Left(s.tabs[i].phase) && t.tabs == s.tabs[i := t.tabs[i]]
  {
  }

  lemma WhoCanMove(s: System, access: Token, refresh: Token, i: nat)
    requires OnCourse(s, access, refresh) && i < |s.tabs| && !s.tabs[i].phase.Finished?
    ensures s.lock.Some? ==> s.lock.value.owner < |s.tabs| && Inside(s.tabs[s.lock.value.owner])
    ensures s.lock.None? ==> s.tabs[i].phase.Waiting?
    ensures s.lapsed == {}
  {
    hide Stages, Truthful;
  }

  /** As long as a tab is not done some tab can move on. */
  lemma SomeTabCanMove(s: System, access: Token, refresh: Token) returns (e: Event)
    requires OnCourse(s, access, refresh) && exists i :: 0 <= i < |s.tabs| && !s.tabs[i].phase.Finished?
    ensures Ordinary(e) && Step(s, e).lapsed == {} && Total(Step(s, e).tabs) < Total(s.tabs) <= 6 * |s.tabs|
  {
    hide OnCourse, Step, Total;
    TotalBounds(s.tabs);
    var i: nat :| i < |s.tabs| && !s.tabs[i].phase.Finished?;
    WhoCanMove(s, access, refresh, i);
    var k := if s.lock.Some? then s.lock.value.owner else i;
    e := NextEvent(k, s.tabs[k].phase);
    NextEventMoves(s, k);
    TotalUpdate(s.tabs, k, Step(s, e).tabs[k]);
  }

  // ---------------------------------------------------------------- the lock record

  /** The record as its read-modify-write transactions change it. */
  class LockRecord {
    var entry: Option<LockEntry>

    constructor ()
      ensures entry.None?
    {
      entry := None;
    }

    method Acquire(owner: nat, now: int) returns (acquired: bool)
      modifies this
      ensures acquired <==> old(entry).None? || old(entry).value.expiresAt <= now
      ensures entry == if acquired then Some(LockEntry(owner, now + LEASE_MS)) else old(entry)
    {
      acquired := entry.None? || entry.value.expiresAt <= now;
      if acquired {
        entry := Some(LockEntry(owner, now + LEASE_MS));
      }
    }

    method Renew(owner: nat, now: int)
      modifies this
      ensures entry == if old(entry).Some? && old(entry).value.owner == owner then Some(LockEntry(owner, now + LEASE_MS)) else old(entry)
    {
      if entry.Some? && entry.value.owner == owner {
        entry := Some(LockEntry(owner, now + LEASE_MS));
      }
    }

    method Release(owner: nat)
      modifies this
      ensures entry == if old(entry).Some? && old(entry).value.owner == owner then None else old(entry)
    {
      if entry.Some? && entry.value.owner == owner {
        entry := None;
      }
    }
  }

  // ---------------------------------------------------------------- one flight in a tab

  /** Calls made while a refresh is pending share it; the next one after it settles starts anew. */
  class SingleFlight {
    var pending: Option<nat>
    var started: nat

    ghost predicate Valid()
      reads this
    {
      pending.Some? ==> pending.value < started
    }

    constructor ()
      ensures Valid() && pending.None? && started == 0
    {
      pending, started := None, 0;
    }

    method Call() returns (flight: nat)
      requires Valid()
      modifies this
      ensures Valid() && pending == Some(flight)
      ensures if old(pending).Some? then flight == old(pending).value && started == old(started)
              else flight == old(started) && started == old(started) + 1
    {
      if pending.None? {
        pending := Some(started);
        started := started + 1;
      }
      return pending.value;
    }

    method Settle()
      requires Valid()
      modifies `pending
      ensures Valid() && pending.None?
    {
      pending := None;
    }
  }
}
