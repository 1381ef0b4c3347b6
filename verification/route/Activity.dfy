/**
 The activity feed (server/internal/route/activity.go): newest entries first, in pages,
 where each page continues below the last entry of the one before.
 */
module Activity {
  import opened Wrappers

  /** The order of the feed: climb date, log time, id. */
  datatype Key = Key(date: int, logged: int, id: nat)

  predicate Below(a: Key, b: Key) {
    a.date < b.date || (a.date == b.date && (a.logged < b.logged || (a.logged == b.logged && a.id < b.id)))
  }

  ghost predicate Falling(keys: seq<Key>) {
    forall i, j :: 0 <= i < j < |keys| ==> Below(keys[j], keys[i])
  }

  predicate Past(cursor: Option<Key>, k: Key) {
    cursor.None? || Below(k, cursor.value)
  }

  /** The first `n` visible entries past the cursor, as the query returns them. */
  ghost predicate AreRows(rows: seq<Key>, table: set<Key>, cursor: Option<Key>, n: nat) {
    && Falling(rows) && |rows| <= n
    && (forall k :: k in rows ==> k in table && Past(cursor, k))
    && (forall k :: k in table && Past(cursor, k) && k !in rows ==> |rows| == n && (rows != [] ==> Below(k, rows[|rows| - 1])))
  }

  datatype Page = Page(items: seq<Key>, next: Option<Key>)

  /** One row more than the page is read, to know whether another page follows. */
  ghost predicate IsPage(page: Page, table: set<Key>, cursor: Option<Key>, limit: nat) {
    exists rows :: AreRows(rows, table, cursor, limit + 1) && page == PageOf(rows, limit)
  }

  function PageOf(rows: seq<Key>, limit: nat): Page {
    if |rows| > limit && limit > 0 then Page(rows[..limit], Some(rows[limit - 1])) else Page(rows, None)
  }

  method QueryActivity(rows: seq<Key>, ghost table: set<Key>, cursor: Option<Key>, limit: nat) returns (page: Page)
    requires limit >= 1 && AreRows(rows, table, cursor, limit + 1)
    ensures IsPage(page, table, cursor, limit)
  {
    page := Page(rows, None);
    if |rows| > limit {
      page := Page(rows[..limit], Some(rows[limit - 1]));
    }
    assert page == PageOf(rows, limit);
  }

  /** What a page is, in terms of its table: a falling stretch past the cursor, complete down to where the next begins. */
  lemma PageCovers(page: Page, table: set<Key>, cursor: Option<Key>, limit: nat)
    requires limit >= 1 && IsPage(page, table, cursor, limit)
    ensures Falling(page.items) && forall k :: k in page.items ==> k in table && Past(cursor, k)
    ensures page.next.Some? ==> |page.items| == limit && page.next.value == page.items[limit - 1]
    ensures forall k :: k in table && Past(cursor, k) && k !in page.items ==> page.next.Some? && Below(k, page.next.value)
  {
    var rows :| AreRows(rows, table, cursor, limit + 1) && page == PageOf(rows, limit);
    forall k | k in table && Past(cursor, k) && k !in page.items ensures page.next.Some? && Below(k, page.next.value) {
      if k in rows {
        var i :| 0 <= i < |rows| && rows[i] == k;
        assert i >= limit;
      } else {
        assert Below(rows[|rows| - 1], rows[limit - 1]);
      }
    }
  }

  // ---------------------------------------------------------------- following the cursors

  /** One request: the entries visible when it ran, its page size and what it got. */
  datatype Visit = Visit(table: set<Key>, limit: nat, page: Page)

  function CursorBefore(visits: seq<Visit>, i: nat): Option<Key>
    requires i <= |visits|
  {
    if i == 0 then None else visits[i - 1].page.next
  }

  /** Each request follows the cursor of the one before; only the last may lack one. */
  ghost predicate Follows(visits: seq<Visit>) {
    && (forall i :: 0 <= i < |visits| ==>
         visits[i].limit >= 1 && IsPage(visits[i].page, visits[i].table, CursorBefore(visits, i), visits[i].limit))
    && (forall i :: 0 <= i < |visits| - 1 ==> visits[i].page.next.Some?)
  }

  ghost predicate Complete(visits: seq<Visit>) {
    visits != [] && Follows(visits) && visits[|visits| - 1].page.next.None?
  }

  function Shown(visits: seq<Visit>): seq<Key> {
    if visits == [] then [] else Shown(visits[..|visits| - 1]) + visits[|visits| - 1].page.items
  }

  lemma FollowsPrefix(visits: seq<Visit>)
    requires Follows(visits) && visits != []
    ensures Follows(visits[..|visits| - 1])
    ensures |visits| >= 2 ==> visits[|visits| - 2].page.next.Some?
    ensures IsPage(visits[|visits| - 1].page, visits[|visits| - 1].table, CursorBefore(visits, |visits| - 1), visits[|visits| - 1].limit)
  {
    var shorter := visits[..|visits| - 1];
    forall i | 0 <= i < |shorter|
      ensures shorter[i].limit >= 1 && IsPage(shorter[i].page, shorter[i].table, CursorBefore(shorter, i), shorter[i].limit)
    {
      assert shorter[i] == visits[i] && CursorBefore(shorter, i) == CursorBefore(visits, i);
    }
  }

  lemma ShownGrows(visits: seq<Visit>)
    requires visits != []
    ensures Shown(visits) == Shown(visits[..|visits| - 1]) + visits[|visits| - 1].page.items
  {
  }

  /** The cursor after these visits is the last key shown. */
  ghost predicate EndsAt(keys: seq<Key>, next: Option<Key>) {
    next.Some? ==> keys != [] && keys[|keys| - 1] == next.value
  }

  lemma FallingOn(before: seq<Key>, items: seq<Key>, cursor: Option<Key>)
    requires Falling(before) && Falling(items) && EndsAt(before, cursor) && (before != [] ==> cursor.Some?)
    requires forall k :: k in items ==> Past(cursor, k)
    ensures Falling(before + items)
  {
    forall i, j | 0 <= i < |before| && 0 <= j < |items| ensures Below(items[j], before[i]) {
      assert items[j] in items;
      assert i < |before| - 1 ==> Below(before[|before| - 1], before[i]);
    }
  }

  /** What the last page adds to what the pages before it showed. */
  lemma LastPage(visits: seq<Visit>)
    requires Follows(visits) && visits != []
    ensures var (v, cursor) := (visits[|visits| - 1], CursorBefore(visits, |visits| - 1));
      && Falling(v.page.items) && (forall k :: k in v.page.items ==> k in v.table && Past(cursor, k))
      && EndsAt(v.page.items, v.page.next)
      && (v.page.next.Some? ==> v.page.items != [])
      && (forall k :: k in v.table && Past(cursor, k) && k !in v.page.items ==> v.page.next.Some? && Below(k, v.page.next.value))
  {
    var v := visits[|visits| - 1];
    FollowsPrefix(visits);
    hide IsPage, Falling, Below;
    PageCovers(v.page, v.table, CursorBefore(visits, |visits| - 1), v.limit);
  }

  /** Whatever happens to the entries between requests, what is shown only ever goes down, so nothing is shown twice. */
  lemma {:induction false} PagesNeverRepeat(visits: seq<Visit>)
    requires Follows(visits)
    ensures Falling(Shown(visits))
    ensures visits != [] ==> EndsAt(Shown(visits), visits[|visits| - 1].page.next)
  {
    hide IsPage, Falling, Below, Past, Shown, Follows;
    if visits == [] {
      NothingYet(visits);
    } else {
      var (shorter, v) := (visits[..|visits| - 1], visits[|visits| - 1]);
      FollowsPrefix(visits);
      PagesNeverRepeat(shorter);
      LastPage(visits);
      ShownGrows(visits);
      if shorter == [] {
        NothingYet(shorter);
        assert Shown(visits) == v.page.items;
      } else {
        FallingOn(Shown(shorter), v.page.items, CursorBefore(visits, |visits| - 1));
      }
    }
  }

  lemma NothingYet(visits: seq<Visit>)
    requires visits == []
    ensures Shown(visits) == [] && Falling(Shown(visits))
  {
  }

  /** Nothing past the cursors so far was skipped if it was there all along. */
  lemma {:induction false} NothingSkipped(visits: seq<Visit>, k: Key)
    requires Follows(visits) && forall v :: v in visits ==> k in v.table
    ensures k in Shown(visits) || visits == [] || (visits[|visits| - 1].page.next.Some? && Below(k, visits[|visits| - 1].page.next.value))
  {
    hide IsPage, Falling, Below, Shown, Follows;
    if visits != [] {
      var (shorter, v) := (visits[..|visits| - 1], visits[|visits| - 1]);
      assert v in visits && forall x :: x in shorter ==> x in visits;
      FollowsPrefix(visits);
      NothingSkipped(shorter, k);
      LastPage(visits);
      ShownGrows(visits);
      if k !in Shown(shorter) {
        assert Past(CursorBefore(visits, |visits| - 1), k);
      }
    }
  }

  ghost predicate ExactlyOnce(keys: seq<Key>, k: Key) {
    exists i :: 0 <= i < |keys| && keys[i] == k && forall j :: 0 <= j < |keys| && keys[j] == k ==> j == i
  }

  lemma FallingShowsOnce(keys: seq<Key>, k: Key)
    requires Falling(keys) && k in keys
    ensures ExactlyOnce(keys, k)
  {
    var i :| 0 <= i < |keys| && keys[i] == k;
    forall j | 0 <= j < |keys| && keys[j] == k ensures j == i {
      assert !Below(k, k);
    }
  }

  /** An entry that was there from the first request to the last is shown exactly once. */
  lemma SteadyEntriesAreShownOnce(visits: seq<Visit>, k: Key)
    requires Complete(visits) && forall v :: v in visits ==> k in v.table
    ensures ExactlyOnce(Shown(visits), k)
  {
    hide Follows, Shown, Falling, ExactlyOnce;
    NothingSkipped(visits, k);
    PagesNeverRepeat(visits);
    FallingShowsOnce(Shown(visits), k);
  }

  lemma {:induction false} ShownWasThere(visits: seq<Visit>, table: set<Key>)
    requires Follows(visits) && forall v :: v in visits ==> v.table == table
    ensures forall k :: k in Shown(visits) ==> k in table
  {
    if visits != [] {
      var (shorter, v) := (visits[..|visits| - 1], visits[|visits| - 1]);
      assert v in visits && forall x :: x in shorter ==> x in visits;
      FollowsPrefix(visits);
      ShownWasThere(shorter, table);
      PageCovers(v.page, v.table, CursorBefore(visits, |visits| - 1), v.limit);
    }
  }

  /** On fixed data the pages together are the visible entries in falling order, each once. */
  lemma FixedDataIsShownWhole(visits: seq<Visit>, table: set<Key>)
    requires Complete(visits) && forall v :: v in visits ==> v.table == table
    ensures Falling(Shown(visits)) && forall k :: k in Shown(visits) <==> k in table
  {
    PagesNeverRepeat(visits);
    ShownWasThere(visits, table);
    forall k | k in table ensures k in Shown(visits) { NothingSkipped(visits, k); }
  }

  lemma {:induction false} FullPages(visits: seq<Visit>)
    requires Follows(visits)
    ensures |Shown(visits)| >= |visits| - 1
    ensures visits != [] && visits[|visits| - 1].page.next.Some? ==> |Shown(visits)| >= |visits|
  {
    if visits != [] {
      var v := visits[|visits| - 1];
      FollowsPrefix(visits);
      FullPages(visits[..|visits| - 1]);
      PageCovers(v.page, v.table, CursorBefore(visits, |visits| - 1), v.limit);
    }
  }

  lemma {:induction false} DistinctFit(keys: seq<Key>, table: set<Key>)
    requires Falling(keys) && forall k :: k in keys ==> k in table
    ensures |keys| <= |table|
  {
    if keys != [] {
      var (rest, k) := (keys[..|keys| - 1], keys[|keys| - 1]);
      assert k in keys;
      forall x | x in rest ensures x in table - {k} {
        var i :| 0 <= i < |rest| && rest[i] == x;
        assert Below(k, keys[i]) && keys[i] in keys;
      }
      DistinctFit(rest, table - {k});
    }
  }

  /** So on fixed data the cursors run out: there is at most one page more than entries. */
  lemma FixedDataEnds(visits: seq<Visit>, table: set<Key>)
    requires Follows(visits) && forall v :: v in visits ==> v.table == table
    ensures |visits| <= |table| + 1
  {
    PagesNeverRepeat(visits);
    ShownWasThere(visits, table);
    FullPages(visits);
    DistinctFit(Shown(visits), table);
  }
}
