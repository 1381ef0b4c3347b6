/**
 Whole runs of tabs refreshing one session (web/src/lib/api/refreshPolicy.ts,
 web/src/lib/api/refreshLock.ts): when no lease lapses, what that is worth, what happens
 otherwise, and that the tabs can always finish.
 */
module TabRuns {
  import opened Wrappers
  import opened TabRefresh

  lemma AfterOneMore(s: System, events: seq<Event>, e: Event)
    ensures After(s, events + [e]) == Step(After(s, events), e)
  {
    assert (events + [e])[..|events|] == events;
  }

  lemma {:induction false} AfterBoth(s: System, events: seq<Event>, more: seq<Event>)
    ensures After(s, events + more) == After(After(s, events), more)
  {
    if more == [] {
      assert events + more == events;
    } else {
      var n := |more| - 1;
      assert (events + more)[..|events| + n] == events + more[..n];
      AfterBoth(s, events, more[..n]);
    }
  }

  // ---------------------------------------------------------------- timely runs

  ghost predicate InsideAt(s: System, events: seq<Event>, i: nat, n: nat)
    requires n <= |events|
  {
    i < |After(s, events[..n]).tabs| && Inside(After(s, events[..n]).tabs[i])
  }

  /** For a lease's length, from one moment of the run to another, a tab is inside and does not renew. */
  ghost predicate Neglects(s: System, events: seq<Event>, i: nat, j: nat, k: nat)
    requires j <= k <= |events|
  {
    && After(s, events[..k]).clock - After(s, events[..j]).clock >= LEASE_MS
    && (forall n :: j <= n <= k ==> InsideAt(s, events, i, n))
    && (forall n :: j <= n < k ==> events[n] != Renew(i))
  }

  /**
   From entering to its first renewal, from one renewal to the next and from the last to leaving, a
   tab inside never takes as long as a lease.
   */
  ghost predicate Timely(s: System, events: seq<Event>) {
    forall i, j, k :: 0 <= j <= k <= |events| ==> !Neglects(s, events, i, j, k)
  }

  /** The record was last written at moment `j`, by a tab that has been inside since and has not renewed since. */
  ghost predicate WrittenAt(s: System, events: seq<Event>, l: LockEntry, j: nat)
    requires j <= |events|
  {
    && l.expiresAt == After(s, events[..j]).clock + LEASE_MS
    && (forall n :: j <= n <= |events| ==> InsideAt(s, events, l.owner, n))
    && (forall n :: j <= n < |events| ==> events[n] != Renew(l.owner))
  }

  ghost predicate Leased(s: System, events: seq<Event>) {
    After(s, events).lock.Some? ==> exists j :: 0 <= j <= |events| && WrittenAt(s, events, After(s, events).lock.value, j)
  }

  lemma EarlierMoments(s: System, events: seq<Event>, e: Event, n: nat)
    requires n <= |events|
    ensures (events + [e])[..n] == events[..n]
    ensures forall i :: InsideAt(s, events + [e], i, n) <==> InsideAt(s, events, i, n)
  {
    assert (events + [e])[..n] == events[..n];
  }

  lemma TimelyPrefix(s: System, events: seq<Event>, e: Event)
    requires Timely(s, events + [e])
    ensures Timely(s, events)
  {
    hide InsideAt;
    forall i, j, k | 0 <= j <= k <= |events| ensures !Neglects(s, events, i, j, k) {
      forall n: nat | n <= |events|
        ensures (events + [e])[..n] == events[..n] && (InsideAt(s, events + [e], i, n) <==> InsideAt(s, events, i, n))
      {
        EarlierMoments(s, events, e, n);
      }
      assert !Neglects(s, events + [e], i, j, k);
    }
  }

  /** A record that is left alone stays written when it was. */
  lemma StaysWritten(s: System, events: seq<Event>, e: Event, l: LockEntry, j: nat)
    requires j <= |events| && WrittenAt(s, events, l, j) && e != Renew(l.owner)
    requires InsideAt(s, events + [e], l.owner, |events| + 1)
    ensures WrittenAt(s, events + [e], l, j)
  {
    hide InsideAt;
    EarlierMoments(s, events, e, j);
    forall n | j <= n <= |events| + 1 ensures InsideAt(s, events + [e], l.owner, n) {
      if n <= |events| { EarlierMoments(s, events, e, n); }
    }
  }

  lemma JustWritten(s: System, events: seq<Event>, l: LockEntry)
    requires l.expiresAt == After(s, events).clock + LEASE_MS
    requires l.owner < |After(s, events).tabs| && Inside(After(s, events).tabs[l.owner])
    ensures WrittenAt(s, events, l, |events|)
  {
    assert events[..|events|] == events;
  }

  /** What one event does to the record: it is left, written anew by a tab inside, or given up. */
  lemma RecordChanges(u: System, e: Event)
    requires u.lock.Some? ==> u.lock.value.owner < |u.tabs| && Inside(u.tabs[u.lock.value.owner])
    ensures var t := Step(u, e);
      || t.lock.None?
      || (t.lock == u.lock && e != Renew(t.lock.value.owner) && t.lock.value.owner < |t.tabs| && Inside(t.tabs[t.lock.value.owner]))
      || (t.lock.value.expiresAt == t.clock + LEASE_MS && t.lock.value.owner < |t.tabs| && Inside(t.tabs[t.lock.value.owner]))
  {
    if e.Renew? && u.lock.Some? && u.lock.value.owner == e.tab { RenewalGivesAFullLease(u, e.tab); }
  }

  /** An expired record whose owner is still inside has been neglected. */
  lemma ExpiredMeansNeglected(s: System, events: seq<Event>, l: LockEntry, j: nat)
    requires j <= |events| && WrittenAt(s, events, l, j) && l.expiresAt <= After(s, events).clock
    ensures Neglects(s, events, l.owner, j, |events|)
  {
    assert events[..|events|] == events;
  }

  /** In a timely run no lease lapses. */
  lemma {:induction false} TimelyRunsNeverLapse(s: System, events: seq<Event>)
    requires s.lock.None? && s.lapsed == {} && Timely(s, events)
    ensures After(s, events).lapsed == {} && Leased(s, events)
  {
    if events != [] {
      var (shorter, e) := (events[..|events| - 1], events[|events| - 1]);
      assert events == shorter + [e];
      hide InsideAt, Step, Timely, WrittenAt, Neglects;
      TimelyPrefix(s, shorter, e);
      TimelyRunsNeverLapse(s, shorter);
      TimelyStep(s, shorter, e);
    }
  }

  lemma TimelyStep(s: System, events: seq<Event>, e: Event)
    requires Timely(s, events) && After(s, events).lapsed == {} && Leased(s, events)
    ensures After(s, events + [e]).lapsed == {} && Leased(s, events + [e])
  {
    hide Step, Timely, WrittenAt, Neglects;
    var (u, t) := (After(s, events), After(s, events + [e]));
    AfterOneMore(s, events, e);
    assert events[..|events|] == events && (events + [e])[..|events| + 1] == events + [e];
    if u.lock.Some? {
      var j: nat :| j <= |events| && WrittenAt(s, events, u.lock.value, j);
      OwnerIsInside(s, events, u.lock.value, j);
      if i :| i in t.lapsed {
        LapsesNeedExpiry(u, e, i);
        ExpiredMeansNeglected(s, events, u.lock.value, j);
        NeverNeglected(s, events, u.lock.value.owner, j, |events|);
      }
      RecordChanges(u, e);
      if t.lock == u.lock && e != Renew(u.lock.value.owner) {
        StaysWritten(s, events, e, u.lock.value, j);
      } else if t.lock.Some? {
        JustWritten(s, events + [e], t.lock.value);
      }
    } else {
      if i :| i in t.lapsed { LapsesNeedExpiry(u, e, i); }
      RecordChanges(u, e);
      if t.lock.Some? { JustWritten(s, events + [e], t.lock.value); }
    }
  }

  lemma OwnerIsInside(s: System, events: seq<Event>, l: LockEntry, j: nat)
    requires j <= |events| && WrittenAt(s, events, l, j)
    ensures l.owner < |After(s, events).tabs| && Inside(After(s, events).tabs[l.owner])
  {
    assert events[..|events|] == events && InsideAt(s, events, l.owner, |events|);
  }

  lemma NeverNeglected(s: System, events: seq<Event>, i: nat, j: nat, k: nat)
    requires Timely(s, events) && j <= k <= |events|
    ensures !Neglects(s, events, i, j, k)
  {
    hide Neglects;
  }

  /**
   In a timely run in which responses arrive, any number of tabs refused with one access token make
   at most one refresh request between them; a tab that finishes has succeeded, after exactly one.
   */
  lemma OneRequestForAllTabs(s: System, events: seq<Event>, access: Token, refresh: Token)
    requires AllRejected(s, access, refresh) && (forall e :: e in events ==> Ordinary(e)) && Timely(s, events)
    ensures
      var t := After(s, events);
      && t.requests <= 1 && t.stored.Session?
      && forall i :: 0 <= i < |t.tabs| && t.tabs[i].phase.Finished? ==>
        t.tabs[i].phase == Finished(Refreshed) && t.requests == 1 && t.stored.access != access
  {
    TimelyRunsNeverLapse(s, events);
    OneRequestWithoutLapses(s, events, access, refresh);
  }

  // ---------------------------------------------------------------- a tab frozen inside

  /** A tab sends its request and freezes; after `ms` another tab tries. */
  function Frozen(ms: nat): seq<Event> {
    [Acquire(0), Check(0), Send(0), Tick(ms), Acquire(1), Check(1), Send(1)]
  }

  lemma FrozenPrefixes(s: System, ms: nat)
    ensures After(s, Frozen(ms)[..3]) == Step(Step(Step(s, Acquire(0)), Check(0)), Send(0))
    ensures After(s, Frozen(ms)[..4]) == Step(After(s, Frozen(ms)[..3]), Tick(ms))
    ensures After(s, Frozen(ms)[..5]) == Step(After(s, Frozen(ms)[..4]), Acquire(1))
    ensures After(s, Frozen(ms)) == Step(Step(After(s, Frozen(ms)[..5]), Check(1)), Send(1))
  {
    hide Step;
    var f := Frozen(ms);
    assert f[..1] == [] + [f[0]] && f[..2] == f[..1] + [f[1]] && f[..3] == f[..2] + [f[2]] && f[..4] == f[..3] + [f[3]];
    assert f[..5] == f[..4] + [f[4]] && f[..6] == f[..5] + [f[5]] && f == f[..6] + [f[6]];
    AfterOneMore(s, [], f[0]);
    AfterOneMore(s, f[..1], f[1]);
    AfterOneMore(s, f[..2], f[2]);
    AfterOneMore(s, f[..3], f[3]);
    AfterOneMore(s, f[..4], f[4]);
    AfterOneMore(s, f[..5], f[5]);
    AfterOneMore(s, f[..6], f[6]);
  }

  /** The first tab has sent its request and holds the record. */
  ghost predicate OneSent(u: System, refresh: Token, stored: Session, start: int)
    requires stored.Session?
  {
    && |u.tabs| >= 2 && u.tabs[1] == Tab(Some(stored.access), Waiting) && u.tabs[0].phase == Sent(refresh)
    && u.lock == Some(LockEntry(0, start + LEASE_MS)) && u.clock == start && u.requests == 1 && u.stored == stored
  }

  lemma FirstTabSends(s: System, access: Token, refresh: Token)
    requires AllRejected(s, access, refresh) && |s.tabs| >= 2
    ensures s.stored.Session? && OneSent(Step(Step(Step(s, Acquire(0)), Check(0)), Send(0)), refresh, s.stored, s.clock)
  {
    hide Truthful;
  }

  lemma SecondTabTries(u: System, refresh: Token, stored: Session, ms: nat)
    requires stored.Session? && OneSent(u, refresh, stored, u.clock)
    ensures var t := Step(Step(Step(Step(u, Tick(ms)), Acquire(1)), Check(1)), Send(1));
      t.requests == (if ms >= LEASE_MS then 2 else 1) && t.clock == u.clock + ms
  {
  }

  lemma {:induction false} ClockGrows(s: System, events: seq<Event>, j: nat, k: nat)
    requires j <= k <= |events|
    ensures After(s, events[..j]).clock <= After(s, events[..k]).clock
    decreases k
  {
    if j < k {
      ClockGrows(s, events, j, k - 1);
      assert events[..k][..k - 1] == events[..k - 1];
    }
  }

  lemma ShortRunsAreTimely(s: System, events: seq<Event>)
    requires After(s, events).clock - s.clock < LEASE_MS
    ensures Timely(s, events)
  {
    forall i, j, k | 0 <= j <= k <= |events| ensures !Neglects(s, events, i, j, k) {
      ClockGrows(s, events, 0, j);
      ClockGrows(s, events, k, |events|);
      assert events[..|events|] == events && events[..0] == [];
      hide InsideAt;
    }
  }

  /** The lease is the sharp bound: the second tab sends a second request if and only if the first froze for a lease or more. */
  lemma FrozenTabCausesASecondRequest(s: System, access: Token, refresh: Token, ms: nat)
    requires AllRejected(s, access, refresh) && |s.tabs| >= 2
    ensures forall e :: e in Frozen(ms) ==> Ordinary(e)
    ensures After(s, Frozen(ms)).requests == if ms >= LEASE_MS then 2 else 1
    ensures Timely(s, Frozen(ms)) <==> ms < LEASE_MS
  {
    hide Timely, Step, OneSent, After;
    FrozenPrefixes(s, ms);
    FirstTabSends(s, access, refresh);
    var u := After(s, Frozen(ms)[..3]);
    assert u.clock == s.clock by { assert OneSent(u, refresh, s.stored, s.clock); SentNow(u, refresh, s.stored, s.clock); }
    SecondTabTries(u, refresh, s.stored, ms);
    if ms >= LEASE_MS {
      if Timely(s, Frozen(ms)) { OneRequestForAllTabs(s, Frozen(ms), access, refresh); }
    } else {
      ShortRunsAreTimely(s, Frozen(ms));
    }
  }

  lemma SentNow(u: System, refresh: Token, stored: Session, start: int)
    requires stored.Session? && OneSent(u, refresh, stored, start)
    ensures u.clock == start
  {
  }

  // ---------------------------------------------------------------- the tabs finish

  /** How often a run moves a tab. */
  function Moves(s: System, events: seq<Event>): nat {
    if events == [] then 0
    else
      var u := After(s, events[..|events| - 1]);
      Moves(s, events[..|events| - 1]) + if Step(u, events[|events| - 1]).tabs != u.tabs then 1 else 0
  }

  /** Whatever happens, at most six moves a tab are made. */
  lemma {:induction false} MovesAreBounded(s: System, events: seq<Event>)
    ensures Moves(s, events) + Total(After(s, events).tabs) <= Total(s.tabs) <= 6 * |s.tabs|
  {
    TotalBounds(s.tabs);
    if events != [] {
      MovesAreBounded(s, events[..|events| - 1]);
      StepsUseUpWhatIsLeft(After(s, events[..|events| - 1]), events[|events| - 1]);
    }
  }

  lemma AllFinishedMeansRenewed(s: System, access: Token, refresh: Token)
    requires OnCourse(s, access, refresh) && s.tabs != [] && forall i :: 0 <= i < |s.tabs| ==> s.tabs[i].phase.Finished?
    ensures s.requests == 1 && forall i :: 0 <= i < |s.tabs| ==> s.tabs[i].phase == Finished(Refreshed)
  {
    assert s.tabs[0].phase.Finished?;
    hide Truthful, Excludes;
  }

  lemma StepKeepsTabs(s: System, e: Event)
    ensures |Step(s, e).tabs| == |s.tabs|
  {
  }

  /** From any state on course some events finish every tab. */
  lemma {:induction false} TabsCanFinish(s: System, access: Token, refresh: Token) returns (more: seq<Event>)
    requires OnCourse(s, access, refresh) && s.tabs != []
    ensures forall e :: e in more ==> Ordinary(e)
    ensures var t := After(s, more);
      |t.tabs| == |s.tabs| && t.requests == 1 && forall i :: 0 <= i < |t.tabs| ==> t.tabs[i].phase == Finished(Refreshed)
    decreases Total(s.tabs)
  {
    hide OnCourse, Step, Total;
    if forall i :: 0 <= i < |s.tabs| ==> s.tabs[i].phase.Finished? {
      more := [];
      AllFinishedMeansRenewed(s, access, refresh);
    } else {
      var e := SomeTabCanMove(s, access, refresh);
      StepStaysOnCourse(s, e, access, refresh);
      StepKeepsTabs(s, e);
      var rest := TabsCanFinish(Step(s, e), access, refresh);
      more := [e] + rest;
      AfterOneMore(s, [], e);
      AfterBoth(s, [e], rest);
      assert [] + [e] == [e];
    }
  }

  lemma {:induction false} RunsKeepTabs(s: System, events: seq<Event>)
    ensures |After(s, events).tabs| == |s.tabs|
  {
    if events != [] {
      RunsKeepTabs(s, events[..|events| - 1]);
      StepKeepsTabs(After(s, events[..|events| - 1]), events[|events| - 1]);
    }
  }

  /** However far a timely run has come, it extends to one in which every tab has succeeded, on one request in all. */
  lemma EveryRunCanFinish(s: System, events: seq<Event>, access: Token, refresh: Token) returns (more: seq<Event>)
    requires AllRejected(s, access, refresh) && (forall e :: e in events ==> Ordinary(e)) && Timely(s, events) && s.tabs != []
    ensures forall e :: e in more ==> Ordinary(e)
    ensures var t := After(s, events + more);
      |t.tabs| == |s.tabs| && t.requests == 1 && forall i :: 0 <= i < |t.tabs| ==> t.tabs[i].phase == Finished(Refreshed)
  {
    TimelyRunsNeverLapse(s, events);
    RunsStayOnCourse(s, events, access, refresh);
    RunsKeepTabs(s, events);
    more := TabsCanFinish(After(s, events), access, refresh);
    AfterBoth(s, events, more);
  }
}
