/**
 Climb logs and the Flash rule (server/internal/route/logs.go): a Flash is the first entry
 of its owner's history on a route, there is one at most, and it took one attempt.
 */
module FlashLog {
  import opened Wrappers
  import opened Activity
  import Sorting

  datatype Outcome = Attempt | Send | Flash

  datatype Log = Log(route: nat, user: nat, outcome: Outcome, date: int, logged: int, notes: Option<string>, attempts: Option<int>)

  type Table = map<nat, Log>

  /** The route as it was read before the transaction began. */
  datatype Route = Route(id: nat, isDraft: bool, isLegacy: bool)

  datatype Input = Input(outcome: Outcome, date: int, notes: Option<string>, attempts: Option<int>)

  datatype Reply = Saved | Refused | NotFound | Forbidden | Conflict

  // ---------------------------------------------------------------- the rule

  predicate Owns(log: Log, user: nat, route: nat) {
    log.user == user && log.route == route
  }

  /** Histories run in the order of the activity feed, oldest first. */
  function KeyOf(t: Table, id: nat): Key
    requires id in t
  {
    Key(t[id].date, t[id].logged, id)
  }

  predicate OneAttempt(log: Log) {
    log.attempts.Some? ==> log.attempts.value <= 1
  }

  ghost predicate FlashRule(t: Table, user: nat, route: nat) {
    forall i :: i in t && Owns(t[i], user, route) && t[i].outcome == Flash ==>
      OneAttempt(t[i]) && ComesFirst(t, i, user, route)
  }

  ghost predicate ComesFirst(t: Table, i: nat, user: nat, route: nat)
    requires i in t
  {
    forall j :: j in t && j != i && Owns(t[j], user, route) ==> Below(KeyOf(t, i), KeyOf(t, j))
  }

  ghost predicate EveryHistoryObeys(t: Table) {
    forall user, route :: FlashRule(t, user, route)
  }

  /** The unique index on (route, user) over Flash rows. */
  predicate IndexHolds(t: Table) {
    forall i, j :: i in t && j in t && t[i].outcome == Flash && t[j].outcome == Flash && Owns(t[i], t[j].user, t[j].route) ==> i == j
  }

  lemma RuleImpliesIndex(t: Table)
    requires EveryHistoryObeys(t)
    ensures IndexHolds(t)
  {
    forall i, j | i in t && j in t && t[i].outcome == Flash && t[j].outcome == Flash && Owns(t[i], t[j].user, t[j].route)
      ensures i == j
    {
      assert FlashRule(t, t[j].user, t[j].route);
      assert ComesFirst(t, i, t[j].user, t[j].route) && ComesFirst(t, j, t[j].user, t[j].route);
    }
  }

  // ---------------------------------------------------------------- the scan over one history

  predicate Le(a: Key, b: Key) {
    a == b || Below(a, b)
  }

  lemma LeIsTotal()
    ensures Sorting.TotalOrder(Le)
  {
  }

  /** The keys of one user's entries on one route, oldest first. */
  ghost predicate IsHistory(history: seq<Key>, t: Table, user: nat, route: nat) {
    && (forall i, j :: 0 <= i < j < |history| ==> Below(history[i], history[j]))
    && (forall k :: k in history ==> k.id in t && Owns(t[k.id], user, route) && k == KeyOf(t, k.id))
    && (forall i :: i in t && Owns(t[i], user, route) ==> KeyOf(t, i) in history)
  }

  /** The only Flash is the oldest entry and took one attempt. */
  ghost predicate FlashAtHeadOnly(history: seq<Key>, t: Table)
    requires forall k :: k in history ==> k.id in t
  {
    forall n :: 0 <= n < |history| && t[history[n].id].outcome == Flash ==> n == 0 && OneAttempt(t[history[n].id])
  }

  lemma LaterIsNotFirst(history: seq<Key>, t: Table, user: nat, route: nat, n: nat)
    requires IsHistory(history, t, user, route) && n < |history|
    ensures history[n] in history && (n > 0 ==> !ComesFirst(t, history[n].id, user, route))
  {
    if n > 0 {
      assert history[0] in history && Below(history[0], history[n]);
    }
  }

  lemma HeadOnlyIsTheRule(history: seq<Key>, t: Table, user: nat, route: nat)
    requires IsHistory(history, t, user, route)
    ensures FlashAtHeadOnly(history, t) <==> FlashRule(t, user, route)
  {
    if FlashAtHeadOnly(history, t) {
      forall i | i in t && Owns(t[i], user, route) && t[i].outcome == Flash
        ensures OneAttempt(t[i]) && ComesFirst(t, i, user, route)
      {
        var n :| 0 <= n < |history| && history[n] == KeyOf(t, i);
        forall j | j in t && j != i && Owns(t[j], user, route) ensures Below(KeyOf(t, i), KeyOf(t, j)) {
          var m :| 0 <= m < |history| && history[m] == KeyOf(t, j);
        }
      }
    }
    if FlashRule(t, user, route) {
      forall n | 0 <= n < |history| && t[history[n].id].outcome == Flash
        ensures n == 0 && OneAttempt(t[history[n].id])
      {
        assert history[n] in history;
        LaterIsNotFirst(history, t, user, route, n);
      }
    }
  }

  // ---------------------------------------------------------------- requests

  datatype Request =
    | Create(user: nat, route: Route, id: nat, now: int, input: Input)
    | Update(user: nat, route: Route, id: nat, input: Input)
    | Delete(user: nat, route: Route, id: nat)

  /** Ids are drawn fresh. */
  predicate Possible(t: Table, r: Request) {
    r.Create? ==> r.id !in t
  }

  /** What the request writes; `Saved` stands for no refusal so far. */
  function Verdict(t: Table, r: Request): Reply {
    if r.Create? then if r.route.isDraft || r.route.isLegacy then Refused else Saved
    else if r.id !in t || t[r.id].route != r.route.id then NotFound
    else if t[r.id].user != r.user then Forbidden
    else if r.Update? && r.input.outcome == Flash && !OneAttempt(t[r.id]) then Refused
    else Saved
  }

  function Written(t: Table, r: Request): Table
    requires Verdict(t, r) == Saved
  {
    match r
    case Create(user, route, id, now, input) =>
      t[id := Log(route.id, user, input.outcome, input.date, now, input.notes, input.attempts)]
    case Update(user, route, id, input) =>
      t[id := t[id].(outcome := input.outcome, date := input.date, notes := input.notes)]
    case Delete(_, _, id) => t - {id}
  }

  ghost predicate Commits(t: Table, r: Request) {
    Verdict(t, r) == Saved && (r.Delete? || (IndexHolds(Written(t, r)) && FlashRule(Written(t, r), r.user, r.route.id)))
  }

  ghost function After(t: Table, r: Request): Table {
    if Commits(t, r) then Written(t, r) else t
  }

  ghost predicate Legal(t: Table, requests: seq<Request>)
    decreases |requests|
  {
    requests != [] ==> Possible(t, requests[0]) && Legal(After(t, requests[0]), requests[1..])
  }

  ghost function Run(t: Table, requests: seq<Request>): Table
    decreases |requests|
  {
    if requests == [] then t else Run(After(t, requests[0]), requests[1..])
  }

  lemma RequestsKeepTheRule(t: Table, r: Request)
    requires EveryHistoryObeys(t) && Possible(t, r)
    ensures EveryHistoryObeys(After(t, r))
  {
    if Commits(t, r) {
      var next := Written(t, r);
      forall user, route ensures FlashRule(next, user, route) {
        assert FlashRule(t, user, route);
        if r.Delete? || user != r.user || route != r.route.id {
          forall i | i in next && Owns(next[i], user, route) && next[i].outcome == Flash
            ensures OneAttempt(next[i]) && ComesFirst(next, i, user, route)
          {
            assert next[i] == t[i] && ComesFirst(t, i, user, route);
          }
        }
      }
    }
  }

  lemma {:induction false} RunsKeepTheRule(t: Table, requests: seq<Request>)
    requires EveryHistoryObeys(t) && Legal(t, requests)
    ensures EveryHistoryObeys(Run(t, requests)) && IndexHolds(Run(t, requests))
    decreases |requests|
  {
    if requests == [] {
      RuleImpliesIndex(t);
    } else {
      RequestsKeepTheRule(t, requests[0]);
      RunsKeepTheRule(After(t, requests[0]), requests[1..]);
    }
  }

  lemma EmptyHistoriesObey()
    ensures EveryHistoryObeys(map[])
  {
  }

  /**
   From empty histories, whatever is created, edited and deleted, and however the clock runs: a Flash
   comes before all else its owner logged on the route, no other entry there is one, and it took one attempt.
   */
  lemma FlashesComeFirst(requests: seq<Request>, i: nat)
    requires Legal(map[], requests) && i in Run(map[], requests) && Run(map[], requests)[i].outcome == Flash
    ensures
      var t := Run(map[], requests);
      && OneAttempt(t[i])
      && forall j :: j in t && j != i && Owns(t[j], t[i].user, t[i].route) ==> t[j].outcome != Flash && Below(KeyOf(t, i), KeyOf(t, j))
  {
    var t := Run(map[], requests);
    EmptyHistoriesObey();
    RunsKeepTheRule(map[], requests);
    hide Run, Legal;
    assert FlashRule(t, t[i].user, t[i].route) && ComesFirst(t, i, t[i].user, t[i].route);
  }

  // ---------------------------------------------------------------- what is accepted

  /** The entries of this history other than `id`. */
  ghost predicate Other(t: Table, j: nat, id: nat, user: nat, route: nat) {
    j in t && j != id && Owns(t[j], user, route)
  }

  /**
   Where an entry may go, read off the history before the request: a Flash with at most one
   attempt before all others, of which none is a Flash; anything else after any Flash.
   */
  ghost predicate Fits(t: Table, id: nat, user: nat, route: nat, key: Key, outcome: Outcome, attempts: Option<int>) {
    if outcome == Flash then
      && (attempts.Some? ==> attempts.value <= 1)
      && forall j :: Other(t, j, id, user, route) ==> t[j].outcome != Flash && Below(key, KeyOf(t, j))
    else
      forall j :: Other(t, j, id, user, route) && t[j].outcome == Flash ==> Below(KeyOf(t, j), key)
  }

  /** Both writing requests put one entry in one history. */
  ghost predicate Puts(t: Table, next: Table, id: nat, user: nat, route: nat) {
    && id in next && next == t[id := next[id]]
    && Owns(next[id], user, route) && (id in t ==> Owns(t[id], user, route))
  }

  lemma PutFits(t: Table, next: Table, id: nat, user: nat, route: nat)
    requires EveryHistoryObeys(t) && Puts(t, next, id, user, route)
    ensures FlashRule(next, user, route) && IndexHolds(next)
      <==> Fits(t, id, user, route, KeyOf(next, id), next[id].outcome, next[id].attempts)
  {
    assert FlashRule(t, user, route);
    if Fits(t, id, user, route, KeyOf(next, id), next[id].outcome, next[id].attempts) {
      FittingObeys(t, next, id, user, route);
      RuleImpliesIndex(next);
    }
    if FlashRule(next, user, route) && IndexHolds(next) {
      ObeyingFits(t, next, id, user, route);
    }
  }

  lemma FittingObeys(t: Table, next: Table, id: nat, user: nat, route: nat)
    requires EveryHistoryObeys(t) && Puts(t, next, id, user, route)
    requires Fits(t, id, user, route, KeyOf(next, id), next[id].outcome, next[id].attempts)
    ensures EveryHistoryObeys(next)
  {
    forall u, r ensures FlashRule(next, u, r) {
      assert FlashRule(t, u, r);
      forall i | i in next && Owns(next[i], u, r) && next[i].outcome == Flash
        ensures OneAttempt(next[i]) && ComesFirst(next, i, u, r)
      {
        if i != id {
          assert next[i] == t[i] && ComesFirst(t, i, u, r);
          assert u == user && r == route ==> Other(t, i, id, user, route);
        }
        forall j | j in next && j != i && Owns(next[j], u, r) ensures Below(KeyOf(next, i), KeyOf(next, j)) {
          if j != id {
            assert next[j] == t[j];
            assert u == user && r == route ==> Other(t, j, id, user, route);
          }
        }
      }
    }
  }

  lemma ObeyingFits(t: Table, next: Table, id: nat, user: nat, route: nat)
    requires Puts(t, next, id, user, route) && FlashRule(next, user, route)
    ensures Fits(t, id, user, route, KeyOf(next, id), next[id].outcome, next[id].attempts)
  {
    forall j | Other(t, j, id, user, route)
      ensures next[id].outcome == Flash ==> t[j].outcome != Flash && Below(KeyOf(next, id), KeyOf(t, j))
      ensures next[id].outcome != Flash && t[j].outcome == Flash ==> Below(KeyOf(t, j), KeyOf(next, id))
    {
      assert next[j] == t[j] && KeyOf(next, j) == KeyOf(t, j);
    }
  }

  /** Exactly when a new entry is saved. */
  lemma CreatedExactlyWhen(t: Table, r: Request)
    requires EveryHistoryObeys(t) && r.Create? && Possible(t, r)
    ensures Commits(t, r) <==>
      !r.route.isDraft && !r.route.isLegacy
      && Fits(t, r.id, r.user, r.route.id, Key(r.input.date, r.now, r.id), r.input.outcome, r.input.attempts)
  {
    if Verdict(t, r) == Saved {
      PutFits(t, Written(t, r), r.id, r.user, r.route.id);
    }
  }

  /** Exactly when an edit is saved: the entry keeps its log time and its attempts. */
  lemma UpdatedExactlyWhen(t: Table, r: Request)
    requires EveryHistoryObeys(t) && r.Update?
    ensures Commits(t, r) <==>
      r.id in t && Owns(t[r.id], r.user, r.route.id)
      && Fits(t, r.id, r.user, r.route.id, Key(r.input.date, t[r.id].logged, r.id), r.input.outcome, t[r.id].attempts)
  {
    if Verdict(t, r) == Saved {
      PutFits(t, Written(t, r), r.id, r.user, r.route.id);
    }
  }

  /** Own entries of the route can be deleted, and no others. */
  lemma DeletedExactlyWhen(t: Table, r: Request)
    requires r.Delete?
    ensures Commits(t, r) <==> r.id in t && Owns(t[r.id], r.user, r.route.id)
  {
  }

  /**
   What a saved request leaves: its own entry with the outcome, date and notes sent, the attempts sent and the log time
   when it was created, or gone if it was deleted; every other entry as it was. A request not saved leaves all.
   */
  lemma SavedIsWhatWasSent(t: Table, r: Request)
    ensures
      var next := After(t, r);
      && (!Commits(t, r) ==> next == t)
      && (forall j :: j != r.id ==> (j in next <==> j in t) && (j in t ==> next[j] == t[j]))
      && (Commits(t, r) ==> match r
            case Create(user, route, id, now, input) =>
              id in next && next[id] == Log(route.id, user, input.outcome, input.date, now, input.notes, input.attempts)
            case Update(user, route, id, input) =>
              id in next && id in t && next[id] == Log(route.id, user, input.outcome, input.date, t[id].logged, input.notes, t[id].attempts)
            case Delete(_, _, id) => id in t && id !in next)
  {
  }

  /** A Flash that was reported stands until its own owner edits or deletes that very entry. */
  lemma OthersCannotTouchAFlash(t: Table, r: Request, i: nat)
    requires EveryHistoryObeys(t) && Possible(t, r) && i in t && t[i].outcome == Flash
    requires r.user != t[i].user || r.id != i
    ensures i in After(t, r) && After(t, r)[i] == t[i]
    ensures OneAttempt(t[i]) && ComesFirst(After(t, r), i, t[i].user, t[i].route)
  {
    RequestsKeepTheRule(t, r);
    assert FlashRule(After(t, r), t[i].user, t[i].route);
    assert FlashRule(t, t[i].user, t[i].route);
  }

  // ---------------------------------------------------------------- the transactions

  class ClimbLogs {
    var rows: Table

    constructor ()
      ensures rows == map[]
    {
      rows := map[];
    }

    /** Inserting or updating a row; a unique violation leaves the table as it was. */
    method WriteRow(id: nat, log: Log) returns (ok: bool)
      modifies this
      ensures ok == IndexHolds(old(rows)[id := log])
      ensures rows == if ok then old(rows)[id := log] else old(rows)
    {
      ok := IndexHolds(rows[id := log]);
      if ok {
        rows := rows[id := log];
      }
    }

    method ListHistory(user: nat, route: nat) returns (history: seq<Key>)
      ensures IsHistory(history, rows, user, route)
    {
      var listed: seq<Key> := [];
      ghost var done: set<nat> := {};
      var ids := set i | i in rows && Owns(rows[i], user, route);
      var rest := ids;
      while rest != {}
        invariant rest <= ids && done == ids - rest
        invariant forall i, j :: 0 <= i < j < |listed| ==> listed[i].id != listed[j].id
        invariant forall k :: k in listed ==> k.id in done && k == KeyOf(rows, k.id)
        invariant forall i :: i in done ==> KeyOf(rows, i) in listed
        decreases rest
      {
        var id :| id in rest;
        rest := rest - {id};
        done := done + {id};
        listed := listed + [KeyOf(rows, id)];
      }
      history := Sorting.Sort(Le, listed);
      SortedHistory(history, listed);
    }

    /** The scan over the sorted history. */
    method CheckFlash(history: seq<Key>) returns (ok: bool)
      requires forall k :: k in history ==> k.id in rows
      ensures ok == FlashAtHeadOnly(history, rows)
    {
      var flashAt := -1;
      for i := 0 to |history|
        invariant -1 <= flashAt < i
        invariant forall n :: 0 <= n < i && rows[history[n].id].outcome == Flash ==> n == flashAt && OneAttempt(rows[history[n].id])
        invariant flashAt >= 0 ==> rows[history[flashAt].id].outcome == Flash
      {
        assert history[i] in history;
        var row := rows[history[i].id];
        if row.outcome == Flash {
          if flashAt >= 0 || !OneAttempt(row) {
            return false;
          }
          flashAt := i;
        }
      }
      return flashAt <= 0;
    }

    /** Writes one row and commits if the history still obeys the rule, rolling back otherwise. */
    method WriteAndCheck(id: nat, log: Log) returns (reply: Reply)
      modifies this
      ensures reply == if IndexHolds(old(rows)[id := log]) && FlashRule(old(rows)[id := log], log.user, log.route) then Saved else Conflict
      ensures rows == if reply == Saved then old(rows)[id := log] else old(rows)
    {
      var before := rows;
      var ok := WriteRow(id, log);
      if !ok {
        return Conflict;
      }
      var history := ListHistory(log.user, log.route);
      ok := CheckFlash(history);
      HeadOnlyIsTheRule(history, rows, log.user, log.route);
      if !ok {
        rows := before;
        return Conflict;
      }
      return Saved;
    }

    method CreateLog(user: nat, route: Route, id: nat, now: int, input: Input) returns (reply: Reply)
      requires Possible(rows, Create(user, route, id, now, input))
      modifies this
      ensures var r := Create(user, route, id, now, input);
        rows == After(old(rows), r) && (reply == Saved <==> Commits(old(rows), r))
        && (Verdict(old(rows), r) != Saved ==> reply == Verdict(old(rows), r))
    {
      if route.isDraft || route.isLegacy {
        return Refused;
      }
      reply := WriteAndCheck(id, Log(route.id, user, input.outcome, input.date, now, input.notes, input.attempts));
    }

    method UpdateLog(user: nat, route: Route, id: nat, input: Input) returns (reply: Reply)
      modifies this
      ensures var r := Update(user, route, id, input);
        rows == After(old(rows), r) && (reply == Saved <==> Commits(old(rows), r))
        && (Verdict(old(rows), r) != Saved ==> reply == Verdict(old(rows), r))
    {
      if id !in rows || rows[id].route != route.id {
        return NotFound;
      }
      var owned := rows[id];
      if owned.user != user {
        return Forbidden;
      }
      if input.outcome == Flash && owned.attempts.Some? && owned.attempts.value > 1 {
        return Refused;
      }
      reply := WriteAndCheck(id, owned.(outcome := input.outcome, date := input.date, notes := input.notes));
    }

    method DeleteLog(user: nat, route: Route, id: nat) returns (reply: Reply)
      modifies this
      ensures rows == After(old(rows), Delete(user, route, id)) && reply == Verdict(old(rows), Delete(user, route, id))
    {
      if id !in rows || rows[id].route != route.id {
        return NotFound;
      }
      if rows[id].user != user {
        return Forbidden;
      }
      rows := rows - {id};
      return Saved;
    }
  }

  /** Sorting keys with distinct ids puts them in strictly rising order and keeps them all. */
  lemma SortedHistory(history: seq<Key>, listed: seq<Key>)
    requires history == Sorting.Sort(Le, listed)
    requires forall i, j :: 0 <= i < j < |listed| ==> listed[i].id != listed[j].id
    ensures forall i, j :: 0 <= i < j < |history| ==> Below(history[i], history[j])
    ensures forall k :: k in history <==> k in listed
  {
    LeIsTotal();
    Sorting.SortIsSortedPermutation(Le, listed);
    assert forall k :: k in history <==> k in multiset(history);
    assert forall k :: k in listed <==> k in multiset(listed);
    forall i, j | 0 <= i < j < |history| ensures Below(history[i], history[j]) {
      if history[i] == history[j] {
        TwiceInBoth(history, listed, i, j);
      }
    }
  }

  lemma TwiceInBoth(history: seq<Key>, listed: seq<Key>, i: nat, j: nat)
    requires multiset(history) == multiset(listed) && i < j < |history|
    requires forall a, b :: 0 <= a < b < |listed| ==> listed[a].id != listed[b].id
    ensures history[i] != history[j]
  {
    var k := history[i];
    if history[j] == k {
      assert history == history[..i] + [k] + history[i + 1..j] + [k] + history[j + 1..];
      assert multiset(history)[k] >= 2;
      OnceEach(listed, k);
    }
  }

  lemma {:induction false} OnceEach(listed: seq<Key>, k: Key)
    requires forall a, b :: 0 <= a < b < |listed| ==> listed[a].id != listed[b].id
    ensures multiset(listed)[k] <= 1
  {
    if listed != [] {
      assert listed == [listed[0]] + listed[1..];
      OnceEach(listed[1..], k);
      if listed[0] == k {
        assert k !in listed[1..];
      }
    }
  }
}
