/**
 The fixed-window rate limiter and its eviction (server/internal/middleware/ratelimit.go).
 The clock never runs backwards and is read together with the update it decides.
 */
module RateLimit {
  import opened Wrappers

  type Time = int

  datatype Visitor = Visitor(count: nat, windowStart: Time, lastSeen: Time)

  datatype Settings = Settings(limit: nat, window: nat)

  /** The first request of a key is let through, and so is the first after its window has passed. */
  function Seen(c: Settings, v: Option<Visitor>, now: Time): Visitor {
    if v.None? || now - v.value.windowStart >= c.window then Visitor(1, now, now)
    else v.value.(count := v.value.count + 1, lastSeen := now)
  }

  predicate LetThrough(c: Settings, v: Option<Visitor>, now: Time) {
    v.None? || now - v.value.windowStart >= c.window || v.value.count + 1 <= c.limit
  }

  type Visitors = map<string, Visitor>

  function Get(vs: Visitors, key: string): Option<Visitor> {
    if key in vs then Some(vs[key]) else None
  }

  function Evicted(c: Settings, vs: Visitors, now: Time): Visitors {
    map key | key in vs && now - vs[key].lastSeen <= c.window :: vs[key]
  }

  class RateLimiter {
    const c: Settings
    var visitors: Visitors

    constructor (c: Settings)
      ensures this.c == c && visitors == map[]
    {
      this.c := c;
      visitors := map[];
    }

    method Handle(key: string, now: Time) returns (allowed: bool)
      modifies `visitors
      ensures allowed == LetThrough(c, Get(old(visitors), key), now)
      ensures visitors == old(visitors)[key := Seen(c, Get(old(visitors), key), now)]
    {
      if key !in visitors {
        visitors := visitors[key := Visitor(1, now, now)];
        return true;
      }
      var v := visitors[key];
      if now - v.windowStart >= c.window {
        visitors := visitors[key := Visitor(1, now, now)];
        return true;
      }
      v := v.(count := v.count + 1, lastSeen := now);
      visitors := visitors[key := v];
      if v.count > c.limit {
        return false;
      }
      return true;
    }

    /** Deletes, key by key, whoever was last seen more than a window ago. */
    method Cleanup(now: Time)
      modifies `visitors
      ensures visitors == Evicted(c, old(visitors), now)
    {
      var before := visitors;
      var rest := visitors.Keys;
      while rest != {}
        invariant rest <= before.Keys
        invariant forall key :: key in visitors <==> key in before && (key in rest || now - before[key].lastSeen <= c.window)
        invariant forall key :: key in visitors ==> visitors[key] == before[key]
      {
        var key :| key in rest;
        rest := rest - {key};
        if now - before[key].lastSeen > c.window {
          visitors := map k | k in visitors && k != key :: visitors[k];
        }
      }
    }
  }

  // ---------------------------------------------------------------- eviction is invisible

  datatype Event = Request(key: string, at: Time) | Cleanup(at: Time)

  function Step(c: Settings, vs: Visitors, e: Event): Visitors {
    match e
    case Request(key, at) => vs[key := Seen(c, Get(vs, key), at)]
    case Cleanup(at) => Evicted(c, vs, at)
  }

  function After(c: Settings, events: seq<Event>): Visitors {
    if events == [] then map[] else Step(c, After(c, events[..|events| - 1]), events[|events| - 1])
  }

  function RequestsOnly(events: seq<Event>): seq<Event> {
    if events == [] then []
    else RequestsOnly(events[..|events| - 1]) + if events[|events| - 1].Request? then [events[|events| - 1]] else []
  }

  ghost predicate InOrder(events: seq<Event>) {
    forall i, j :: 0 <= i < j < |events| ==> events[i].at <= events[j].at
  }

  /** Kept entries are the same; a dropped one had its window pass before `now`. */
  ghost predicate Alike(c: Settings, kept: Visitors, all: Visitors, now: Time) {
    && (forall key :: key in kept ==> key in all && kept[key] == all[key])
    && (forall key :: key in all ==> all[key].windowStart <= all[key].lastSeen <= now)
    && (forall key :: key in all && key !in kept ==> now - all[key].windowStart >= c.window)
  }

  lemma AlikeDecides(c: Settings, kept: Visitors, all: Visitors, now: Time, key: string, at: Time)
    requires Alike(c, kept, all, now) && now <= at
    ensures LetThrough(c, Get(kept, key), at) == LetThrough(c, Get(all, key), at)
    ensures Alike(c, kept[key := Seen(c, Get(kept, key), at)], all[key := Seen(c, Get(all, key), at)], at)
  {
  }

  lemma EvictionStaysAlike(c: Settings, kept: Visitors, all: Visitors, now: Time, at: Time)
    requires Alike(c, kept, all, now) && now <= at
    ensures Alike(c, Evicted(c, kept, at), all, at)
  {
  }

  /** Leaving the clean-ups out of a run leaves the limiter in an indistinguishable state. */
  lemma {:induction false} CleanupIsInvisible(c: Settings, events: seq<Event>, now: Time)
    requires InOrder(events) && forall e :: e in events ==> e.at <= now
    ensures Alike(c, After(c, events), After(c, RequestsOnly(events)), now)
  {
    if events != [] {
      var (rest, e) := (events[..|events| - 1], events[|events| - 1]);
      forall x | x in rest ensures x.at <= e.at { var i :| 0 <= i < |rest| && rest[i] == x; assert events[i] == x; }
      assert e in events;
      CleanupIsInvisible(c, rest, e.at);
      match e {
        case Request(key, at) =>
          AlikeDecides(c, After(c, rest), After(c, RequestsOnly(rest)), at, key, at);
          AfterOneMore(c, RequestsOnly(rest), e);
        case Cleanup(at) =>
          EvictionStaysAlike(c, After(c, rest), After(c, RequestsOnly(rest)), at, at);
          assert RequestsOnly(events) == RequestsOnly(rest);
      }
      StillAlike(c, After(c, events), After(c, RequestsOnly(events)), e.at, now);
    }
  }

  lemma AfterOneMore(c: Settings, events: seq<Event>, e: Event)
    ensures After(c, events + [e]) == Step(c, After(c, events), e)
  {
    assert (events + [e])[..|events|] == events;
  }

  lemma StillAlike(c: Settings, kept: Visitors, all: Visitors, now: Time, later: Time)
    requires Alike(c, kept, all, now) && now <= later
    ensures Alike(c, kept, all, later)
  {
  }

  /** So every later request is decided as if nothing had ever been evicted. */
  lemma DecisionsIgnoreCleanup(c: Settings, events: seq<Event>, key: string, at: Time)
    requires InOrder(events) && forall e :: e in events ==> e.at <= at
    ensures LetThrough(c, Get(After(c, events), key), at) == LetThrough(c, Get(After(c, RequestsOnly(events)), key), at)
  {
    CleanupIsInvisible(c, events, at);
    AlikeDecides(c, After(c, events), After(c, RequestsOnly(events)), at, key, at);
  }

  // ---------------------------------------------------------------- the bound

  /** One accepted request and the start of the window it was counted in. */
  datatype Accepted = Accepted(at: Time, start: Time)

  /** The visitor of one key after requests at the given times, and what was accepted. */
  function Visit(c: Settings, times: seq<Time>): (Option<Visitor>, seq<Accepted>) {
    if times == [] then (None, [])
    else
      var (v, log) := Visit(c, times[..|times| - 1]);
      var now := times[|times| - 1];
      (Some(Seen(c, v, now)),
       if LetThrough(c, v, now) then log + [Accepted(now, Seen(c, v, now).windowStart)] else log)
  }

  ghost predicate Chronological(times: seq<Time>) {
    forall i, j :: 0 <= i < j < |times| ==> times[i] <= times[j]
  }

  /** Accepted requests counted in the window start at `w`. */
  function InWindow(log: seq<Accepted>, w: Time): nat {
    if log == [] then 0 else InWindow(log[..|log| - 1], w) + if log[|log| - 1].start == w then 1 else 0
  }

  /** Those of them that came after its first moment. */
  function Late(log: seq<Accepted>, w: Time): nat {
    if log == [] then 0
    else Late(log[..|log| - 1], w) + if log[|log| - 1].start == w && log[|log| - 1].at > w then 1 else 0
  }

  /** Accepted requests from `t` on, for one window length. */
  function Between(c: Settings, log: seq<Accepted>, t: Time): nat {
    if log == [] then 0 else Between(c, log[..|log| - 1], t) + if t <= log[|log| - 1].at < t + c.window then 1 else 0
  }

  ghost predicate Windows(c: Settings, log: seq<Accepted>) {
    && (forall a :: a in log ==> a.start <= a.at < a.start + c.window)
    && (forall a, b :: a in log && b in log && a.start < b.start ==> a.start + c.window <= b.start)
  }

  ghost predicate Counted(c: Settings, log: seq<Accepted>, v: Option<Visitor>) {
    && (forall w :: InWindow(log, w) <= c.limit && Late(log, w) + 1 <= c.limit)
    && match v
       case None => log == []
       case Some(x) =>
         && x.windowStart <= x.lastSeen && x.count >= 1
         && (forall a :: a in log ==> a.start <= x.windowStart)
         && InWindow(log, x.windowStart) <= x.count && Late(log, x.windowStart) + 1 <= x.count
         && Accepted(x.windowStart, x.windowStart) in log
  }

  lemma {:induction false} NothingInNewWindow(log: seq<Accepted>, w: Time)
    requires forall a :: a in log ==> a.start != w
    ensures InWindow(log, w) == 0 && Late(log, w) == 0
  {
    if log != [] { NothingInNewWindow(log[..|log| - 1], w); }
  }

  lemma OneMore(c: Settings, log: seq<Accepted>, a: Accepted, w: Time)
    ensures InWindow(log + [a], w) == InWindow(log, w) + if a.start == w then 1 else 0
    ensures Late(log + [a], w) == Late(log, w) + if a.start == w && a.at > w then 1 else 0
  {
    assert (log + [a])[..|log|] == log;
  }

  /** One more accepted request keeps the windows apart and the counts right. */
  lemma AcceptanceIsCounted(c: Settings, log: seq<Accepted>, v: Option<Visitor>, now: Time)
    requires c.limit >= 1 && c.window >= 1 && Windows(c, log) && Counted(c, log, v)
    requires v.Some? ==> v.value.lastSeen <= now
    requires LetThrough(c, v, now)
    ensures var fit := Accepted(now, Seen(c, v, now).windowStart);
      Windows(c, log + [fit]) && Counted(c, log + [fit], Some(Seen(c, v, now)))
  {
    var fit := Accepted(now, Seen(c, v, now).windowStart);
    forall w ensures InWindow(log + [fit], w) == InWindow(log, w) + (if fit.start == w then 1 else 0)
                     && Late(log + [fit], w) == Late(log, w) + (if fit.start == w && fit.at > w then 1 else 0)
    {
      OneMore(c, log, fit, w);
    }
    if v.None? || now - v.value.windowStart >= c.window {
      NothingInNewWindow(log, now);
    }
  }

  lemma {:induction false} VisitsAreCounted(c: Settings, times: seq<Time>)
    requires c.limit >= 1 && c.window >= 1 && Chronological(times)
    ensures Windows(c, Visit(c, times).1) && Counted(c, Visit(c, times).1, Visit(c, times).0)
    ensures times != [] ==> Visit(c, times).0.Some? && Visit(c, times).0.value.lastSeen == times[|times| - 1]
  {
    if times != [] {
      var (rest, now) := (times[..|times| - 1], times[|times| - 1]);
      VisitsAreCounted(c, rest);
      var (v, log) := Visit(c, rest);
      assert v.Some? ==> v.value.lastSeen <= now;
      if LetThrough(c, v, now) {
        AcceptanceIsCounted(c, log, v, now);
      }
    }
  }

  /** Every request of the interval is in one window, or in the one before it but after its opening request. */
  lemma {:induction false} SumOfTwoWindows(c: Settings, log: seq<Accepted>, t: Time, last: Time, previous: Time)
    requires forall a :: a in log && t <= a.at < t + c.window ==> a.start == last || (a.start == previous && a.at > previous)
    requires last != previous
    ensures Between(c, log, t) <= InWindow(log, last) + Late(log, previous)
  {
    if log != [] {
      assert log[|log| - 1] in log;
      SumOfTwoWindows(c, log[..|log| - 1], t, last, previous);
    }
  }

  /** The window of the latest request of the interval, and the one it may still reach back into. */
  lemma ReachOfAnInterval(c: Settings, log: seq<Accepted>, t: Time, latest: Accepted) returns (previous: Time)
    requires Windows(c, log) && c.window >= 1 && latest in log && t <= latest.at < t + c.window
    requires forall a :: a in log && t <= a.at < t + c.window ==> a.start <= latest.start
    ensures previous != latest.start
    ensures forall a :: a in log && t <= a.at < t + c.window ==> a.start == latest.start || (a.start == previous && a.at > previous)
  {
    if a :| a in log && t <= a.at < t + c.window && a.start < latest.start {
      previous := a.start;
      forall b | b in log && t <= b.at < t + c.window && b.start < latest.start ensures b.start == previous && b.at > previous {
        assert b.start + c.window <= latest.start && a.start + c.window <= latest.start;
      }
    } else {
      previous := latest.start - 1;
    }
  }

  lemma {:induction false} LatestWindow(c: Settings, log: seq<Accepted>, t: Time) returns (latest: Accepted)
    requires exists a :: a in log && t <= a.at < t + c.window
    ensures latest in log && t <= latest.at < t + c.window
    ensures forall a :: a in log && t <= a.at < t + c.window ==> a.start <= latest.start
  {
    var (rest, e) := (log[..|log| - 1], log[|log| - 1]);
    assert forall a :: a in log <==> a in rest || a == e;
    if exists a :: a in rest && t <= a.at < t + c.window {
      latest := LatestWindow(c, rest, t);
      if t <= e.at < t + c.window && e.start > latest.start { latest := e; }
    } else {
      latest := e;
    }
  }

  lemma {:induction false} NothingBetween(c: Settings, log: seq<Accepted>, t: Time)
    requires !exists a :: a in log && t <= a.at < t + c.window
    ensures Between(c, log, t) == 0
  {
    if log != [] {
      assert log[|log| - 1] in log;
      NothingBetween(c, log[..|log| - 1], t);
    }
  }

  /** A key alone: a window counts at most `limit` accepted requests, and any interval of its length holds fewer than twice as many. */
  lemma OneKeyIsBounded(c: Settings, times: seq<Time>, t: Time, w: Time)
    requires c.limit >= 1 && c.window >= 1 && Chronological(times)
    ensures InWindow(Visit(c, times).1, w) <= c.limit
    ensures Between(c, Visit(c, times).1, t) <= 2 * c.limit - 1
  {
    VisitsAreCounted(c, times);
    var log := Visit(c, times).1;
    if exists a :: a in log && t <= a.at < t + c.window {
      var latest := LatestWindow(c, log, t);
      var previous := ReachOfAnInterval(c, log, t, latest);
      SumOfTwoWindows(c, log, t, latest.start, previous);
    } else {
      NothingBetween(c, log, t);
    }
  }

  /** The window the visitor is in has as many accepted requests as it counts, up to the limit. */
  ghost predicate CountedExactly(c: Settings, log: seq<Accepted>, v: Option<Visitor>) {
    v.Some? ==> InWindow(log, v.value.windowStart) == if v.value.count <= c.limit then v.value.count else c.limit
  }

  lemma {:induction false} VisitsAreCountedExactly(c: Settings, times: seq<Time>)
    requires c.limit >= 1 && c.window >= 1 && Chronological(times)
    ensures CountedExactly(c, Visit(c, times).1, Visit(c, times).0)
  {
    if times != [] {
      var (rest, now) := (times[..|times| - 1], times[|times| - 1]);
      VisitsAreCountedExactly(c, rest);
      VisitsAreCounted(c, rest);
      var (v, log) := Visit(c, rest);
      var start := Seen(c, v, now).windowStart;
      OneMore(c, log, Accepted(now, start), start);
      if v.None? || now - v.value.windowStart >= c.window { NothingInNewWindow(log, now); }
    }
  }

  /** A request is turned away exactly if the window it falls in has already let `limit` requests through. */
  lemma TurnedAwayExactlyWhenFull(c: Settings, times: seq<Time>, now: Time)
    requires c.limit >= 1 && c.window >= 1 && Chronological(times + [now])
    ensures
      var (v, log) := Visit(c, times);
      !LetThrough(c, v, now) <==> v.Some? && now < v.value.windowStart + c.window && InWindow(log, v.value.windowStart) == c.limit
  {
    assert times == (times + [now])[..|times|];
    VisitsAreCountedExactly(c, times);
    VisitsAreCounted(c, times);
  }

  // ---------------------------------------------------------------- the bound is reached

  /** One request at 0, then `n` at the last moment of its window, then `m` at the first moment after it. */
  function Burst(c: Settings, n: nat, m: nat): seq<Time> {
    if m > 0 then Burst(c, n, m - 1) + [c.window]
    else if n > 0 then Burst(c, n - 1, 0) + [c.window - 1]
    else [0]
  }

  ghost predicate BurstLeaves(c: Settings, times: seq<Time>, n: nat, m: nat) {
    var (v, log) := Visit(c, times);
    && Chronological(times) && (forall x :: x in times ==> x <= if m > 0 then c.window else c.window - 1)
    && v == Some(Visitor(if m > 0 then m else n + 1, if m > 0 then c.window else 0, if m > 0 then c.window else if n > 0 then c.window - 1 else 0))
    && Between(c, log, c.window - 1) == n + m
  }

  lemma BurstStarts(c: Settings)
    requires c.window >= 2
    ensures BurstLeaves(c, [0], 0, 0)
  {
    assert [0][..0] == [];
    assert [Accepted(0, 0)][..0] == [];
  }

  lemma BurstGrows(c: Settings, times: seq<Time>, n: nat, m: nat)
    requires c.window >= 2 && n + 1 <= c.limit
    ensures BurstLeaves(c, times, n, m) && m < c.limit ==> BurstLeaves(c, times + [c.window], n, m + 1)
    ensures BurstLeaves(c, times, n, 0) && n + 1 < c.limit ==> BurstLeaves(c, times + [c.window - 1], n + 1, 0)
  {
    LastVisit(c, times, c.window, c.window - 1);
    LastVisit(c, times, c.window - 1, c.window - 1);
    hide Visit, Between;
    assert forall i :: 0 <= i < |times| ==> times[i] in times;
    assert forall x, now: Time :: x in times + [now] ==> x in times || x == now;
  }

  lemma {:induction false} BurstVisits(c: Settings, n: nat, m: nat)
    requires c.window >= 2 && n + 1 <= c.limit && m <= c.limit
    ensures BurstLeaves(c, Burst(c, n, m), n, m)
    decreases m, n
  {
    hide BurstLeaves;
    if m > 0 {
      BurstVisits(c, n, m - 1);
      BurstGrows(c, Burst(c, n, m - 1), n, m - 1);
    } else if n > 0 {
      BurstVisits(c, n - 1, 0);
      BurstGrows(c, Burst(c, n - 1, 0), n - 1, 0);
    } else {
      BurstStarts(c);
    }
  }

  lemma LastVisit(c: Settings, times: seq<Time>, now: Time, t: Time)
    ensures
      var (v, log) := Visit(c, times);
      var (after, more) := Visit(c, times + [now]);
      && after == Some(Seen(c, v, now))
      && Between(c, more, t) == Between(c, log, t) + if LetThrough(c, v, now) && t <= now < t + c.window then 1 else 0
  {
    assert (times + [now])[..|times|] == times;
    var (v, log) := Visit(c, times);
    if LetThrough(c, v, now) {
      var fit := Accepted(now, Seen(c, v, now).windowStart);
      assert (log + [fit])[..|log|] == log;
    }
  }

  /** One request opens a window, the rest of its limit comes at its end and the next limit right after: the bound is met. */
  lemma BoundIsReached(c: Settings)
    requires c.limit >= 1 && c.window >= 2
    ensures Chronological(Burst(c, c.limit - 1, c.limit))
    ensures Between(c, Visit(c, Burst(c, c.limit - 1, c.limit)).1, c.window - 1) == 2 * c.limit - 1
  {
    hide Burst, Visit, Between;
    BurstVisits(c, c.limit - 1, c.limit);
  }

  // ---------------------------------------------------------------- many keys

  /** When a key sent its requests. */
  function TimesOf(events: seq<Event>, key: string): seq<Time> {
    if events == [] then []
    else
      var e := events[|events| - 1];
      TimesOf(events[..|events| - 1], key) + if e.Request? && e.key == key then [e.at] else []
  }

  /** Keys do not disturb one another: each is counted as if it were alone. */
  lemma {:induction false} KeysAreIndependent(c: Settings, events: seq<Event>, key: string)
    requires forall e :: e in events ==> e.Request?
    ensures Get(After(c, events), key) == Visit(c, TimesOf(events, key)).0
  {
    if events != [] {
      var (rest, e) := (events[..|events| - 1], events[|events| - 1]);
      assert e in events && forall x :: x in rest ==> x in events;
      KeysAreIndependent(c, rest, key);
      if e.key == key {
        LastVisit(c, TimesOf(rest, key), e.at, 0);
        assert TimesOf(events, key) == TimesOf(rest, key) + [e.at];
      } else {
        assert TimesOf(events, key) == TimesOf(rest, key);
      }
    }
  }

  /** What the limiter let through for a key in a run, each with the start of the window it was counted in. */
  function AcceptedOf(c: Settings, events: seq<Event>, key: string): seq<Accepted> {
    if events == [] then []
    else
      var (rest, e) := (events[..|events| - 1], events[|events| - 1]);
      var v := Get(After(c, rest), key);
      AcceptedOf(c, rest, key)
      + if e.Request? && e.key == key && LetThrough(c, v, e.at) then [Accepted(e.at, Seen(c, v, e.at).windowStart)] else []
  }

  lemma {:induction false} CleanupsAreNoVisits(events: seq<Event>, key: string)
    ensures TimesOf(RequestsOnly(events), key) == TimesOf(events, key)
    ensures forall e :: e in RequestsOnly(events) ==> e.Request?
  {
    if events != [] {
      var (rest, e) := (events[..|events| - 1], events[|events| - 1]);
      CleanupsAreNoVisits(rest, key);
      if e.Request? {
        assert (RequestsOnly(rest) + [e])[..|RequestsOnly(rest)|] == RequestsOnly(rest);
      } else {
        assert RequestsOnly(events) == RequestsOnly(rest) && TimesOf(events, key) == TimesOf(rest, key);
      }
    }
  }

  lemma EarlierThanLast(events: seq<Event>)
    requires InOrder(events) && events != []
    ensures InOrder(events[..|events| - 1]) && forall x :: x in events[..|events| - 1] ==> x.at <= events[|events| - 1].at
  {
  }

  /** What a run lets through for a key is what it would have let through alone, without any clean-up. */
  lemma {:induction false} AcceptedAsIfAlone(c: Settings, events: seq<Event>, key: string)
    requires InOrder(events)
    ensures AcceptedOf(c, events, key) == Visit(c, TimesOf(events, key)).1
  {
    if events != [] {
      var (rest, e) := (events[..|events| - 1], events[|events| - 1]);
      EarlierThanLast(events);
      AcceptedAsIfAlone(c, rest, key);
      if e.Request? && e.key == key {
        CleanupsAreNoVisits(rest, key);
        KeysAreIndependent(c, RequestsOnly(rest), key);
        CleanupIsInvisible(c, rest, e.at);
        AlikeDecides(c, After(c, rest), After(c, RequestsOnly(rest)), e.at, key, e.at);
        var times := TimesOf(rest, key);
        assert TimesOf(events, key) == times + [e.at] && (times + [e.at])[..|times|] == times;
        assert AcceptedOf(c, rest, key) + [] == AcceptedOf(c, rest, key);
      } else {
        assert TimesOf(events, key) == TimesOf(rest, key) && AcceptedOf(c, events, key) == AcceptedOf(c, rest, key);
      }
    }
  }

  lemma {:induction false} VisitsAreChronological(events: seq<Event>, key: string)
    requires InOrder(events)
    ensures Chronological(TimesOf(events, key))
    ensures forall x :: x in TimesOf(events, key) ==> x <= events[|events| - 1].at
  {
    if events != [] {
      var (rest, e) := (events[..|events| - 1], events[|events| - 1]);
      EarlierThanLast(events);
      VisitsAreChronological(rest, key);
      if rest != [] { assert rest[|rest| - 1] in rest; }
      if e.Request? && e.key == key {
        assert TimesOf(events, key) == TimesOf(rest, key) + [e.at];
        forall i | 0 <= i < |TimesOf(rest, key)| ensures TimesOf(rest, key)[i] <= e.at { assert TimesOf(rest, key)[i] in TimesOf(rest, key); }
      } else {
        assert TimesOf(events, key) == TimesOf(rest, key);
      }
    }
  }

  /**
   In any run, whatever the other keys send and however often entries are evicted, a window counts at
   most `limit` accepted requests of a key, and any interval of one window length holds fewer than twice as many.
   */
  lemma AcceptanceIsBounded(c: Settings, events: seq<Event>, key: string, t: Time, w: Time)
    requires c.limit >= 1 && c.window >= 1 && InOrder(events)
    ensures InWindow(AcceptedOf(c, events, key), w) <= c.limit
    ensures Between(c, AcceptedOf(c, events, key), t) <= 2 * c.limit - 1
  {
    AcceptedAsIfAlone(c, events, key);
    VisitsAreChronological(events, key);
    OneKeyIsBounded(c, TimesOf(events, key), t, w);
  }
}
