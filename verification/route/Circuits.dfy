/**
 Rewriting a circuit (server/internal/route/circuits.go, server/db/generated/circuits.sql.go):
 the owner sends an order of the routes they can see, and the routes hidden from them keep
 their places among it. Positions are unique within a circuit, and that is checked row by
 row while a statement runs.
 */
module Circuits {
  import opened Wrappers

  type RouteId = nat

  /** One circuit's rows: positions by route. */
  type Rows = map<RouteId, nat>

  const MAX_ROUTES := 100

  datatype HiddenRoute = HiddenRoute(id: RouteId, visibleBefore: nat)

  datatype Entry = Entry(id: RouteId, hidden: bool)

  // ---------------------------------------------------------------- orders

  function VisibleIds(order: seq<Entry>): seq<RouteId> {
    if order == [] then []
    else VisibleIds(order[..|order| - 1]) + if order[|order| - 1].hidden then [] else [order[|order| - 1].id]
  }

  /** The hidden routes, each with how many visible ones come before it. */
  function HiddenOf(order: seq<Entry>): seq<HiddenRoute> {
    if order == [] then []
    else
      var rest := order[..|order| - 1];
      HiddenOf(rest) + if order[|order| - 1].hidden then [HiddenRoute(order[|order| - 1].id, |VisibleIds(rest)|)] else []
  }

  function Marked(ids: seq<RouteId>, visible: RouteId -> bool): seq<Entry> {
    seq(|ids|, i requires 0 <= i < |ids| => Entry(ids[i], !visible(ids[i])))
  }

  function Capped(hidden: seq<HiddenRoute>, n: nat): seq<HiddenRoute> {
    seq(|hidden|, i requires 0 <= i < |hidden| => HiddenRoute(hidden[i].id, if hidden[i].visibleBefore <= n then hidden[i].visibleBefore else n))
  }

  ghost predicate Rising(hidden: seq<HiddenRoute>) {
    forall i, j :: 0 <= i < j < |hidden| ==> hidden[i].visibleBefore <= hidden[j].visibleBefore
  }

  /** `order` shows `ids` in their order, and each hidden route behind as many of them as before, or behind all. */
  ghost predicate IsMerge(order: seq<Entry>, ids: seq<RouteId>, hidden: seq<HiddenRoute>) {
    VisibleIds(order) == ids && HiddenOf(order) == Capped(hidden, |ids|)
  }

  lemma {:induction false} HiddenCountsRise(order: seq<Entry>)
    ensures Rising(HiddenOf(order))
    ensures forall i :: 0 <= i < |HiddenOf(order)| ==> HiddenOf(order)[i].visibleBefore <= |VisibleIds(order)|
    ensures |order| == |VisibleIds(order)| + |HiddenOf(order)|
  {
    if order != [] { HiddenCountsRise(order[..|order| - 1]); }
  }

  lemma OneEntry(rest: seq<Entry>, e: Entry)
    ensures VisibleIds(rest + [e]) == if e.hidden then VisibleIds(rest) else VisibleIds(rest) + [e.id]
    ensures HiddenOf(rest + [e]) == if e.hidden then HiddenOf(rest) + [HiddenRoute(e.id, |VisibleIds(rest)|)] else HiddenOf(rest)
  {
    assert (rest + [e])[..|rest|] == rest;
  }

  /** If the last entry is hidden everything visible is before it; if it is visible no hidden count reaches the end. */
  lemma LastEntryShows(rest: seq<Entry>, e: Entry)
    ensures e.hidden <==> (exists h :: h in HiddenOf(rest + [e]) && h.visibleBefore == |VisibleIds(rest + [e])|)
  {
    OneEntry(rest, e);
    HiddenCountsRise(rest);
    var all := HiddenOf(rest + [e]);
    hide HiddenOf, VisibleIds;
    if e.hidden { assert all[|all| - 1] in all; }
  }

  /** Visible ids and hidden counts together determine the order. */
  lemma {:induction false} OrderIsDetermined(a: seq<Entry>, b: seq<Entry>)
    requires VisibleIds(a) == VisibleIds(b) && HiddenOf(a) == HiddenOf(b)
    ensures a == b
  {
    HiddenCountsRise(a);
    HiddenCountsRise(b);
    hide HiddenOf, VisibleIds;
    if a != [] && b != [] {
      var (ra, rb) := (a[..|a| - 1], b[..|b| - 1]);
      var (x, y) := (a[|a| - 1], b[|b| - 1]);
      assert a == ra + [x] && b == rb + [y];
      OneEntry(ra, x);
      OneEntry(rb, y);
      LastEntryShows(ra, x);
      LastEntryShows(rb, y);
      if x.hidden {
        DropLast(HiddenOf(ra), HiddenRoute(x.id, |VisibleIds(ra)|), HiddenOf(rb), HiddenRoute(y.id, |VisibleIds(rb)|));
      } else {
        DropLast(VisibleIds(ra), x.id, VisibleIds(rb), y.id);
      }
      OrderIsDetermined(ra, rb);
    }
  }

  lemma DropLast<T>(a: seq<T>, x: T, b: seq<T>, y: T)
    requires a + [x] == b + [y]
    ensures a == b && x == y
  {
    assert (a + [x])[|a|] == x && (b + [y])[|b|] == y;
    assert a == (a + [x])[..|a|] && b == (b + [y])[..|b|];
  }

  lemma MergeIsUnique(a: seq<Entry>, b: seq<Entry>, ids: seq<RouteId>, hidden: seq<HiddenRoute>)
    requires IsMerge(a, ids, hidden) && IsMerge(b, ids, hidden)
    ensures a == b
  {
    OrderIsDetermined(a, b);
  }

  // ---------------------------------------------------------------- laws of replacing

  /** Replacing with the list currently visible changes nothing. */
  lemma ReplacingWithTheSameKeepsTheOrder(before: seq<Entry>, order: seq<Entry>)
    requires IsMerge(order, VisibleIds(before), HiddenOf(before))
    ensures order == before
  {
    HiddenCountsRise(before);
    assert Capped(HiddenOf(before), |VisibleIds(before)|) == HiddenOf(before);
    OrderIsDetermined(order, before);
  }

  /**
   Two replacements one after the other come to the second alone exactly if the first list was not
   the shorter, or no hidden route stood behind more visible ones than it had.
   */
  lemma ReplacingTwice(hidden: seq<HiddenRoute>, first: seq<RouteId>, second: seq<RouteId>, between: seq<Entry>, twice: seq<Entry>, once: seq<Entry>)
    requires IsMerge(between, first, hidden)
    requires IsMerge(twice, second, HiddenOf(between)) && IsMerge(once, second, hidden)
    ensures twice == once <==>
      |second| <= |first| || forall i :: 0 <= i < |hidden| ==> hidden[i].visibleBefore <= |first|
  {
    if |second| <= |first| || forall i :: 0 <= i < |hidden| ==> hidden[i].visibleBefore <= |first| {
      assert Capped(Capped(hidden, |first|), |second|) == Capped(hidden, |second|);
      OrderIsDetermined(twice, once);
    } else {
      var i :| 0 <= i < |hidden| && hidden[i].visibleBefore > |first|;
      assert HiddenOf(twice)[i].visibleBefore == |first|;
      assert HiddenOf(once)[i].visibleBefore > |first|;
    }
  }

  // ---------------------------------------------------------------- building the order

  datatype CircuitError = InvalidIds | TooManyRoutes | RouteUnavailable | PositionTaken | RouteTwice

  ghost predicate Distinct(ids: seq<RouteId>) {
    forall i, j :: 0 <= i < j < |ids| ==> ids[i] != ids[j]
  }

  /** At most a hundred well-formed ids, none twice; `None` is a value that is no id. */
  method ParseRouteIds(values: seq<Option<RouteId>>) returns (ids: Option<seq<RouteId>>)
    ensures ids.Some? <==>
      && |values| <= MAX_ROUTES && (forall v :: v in values ==> v.Some?)
      && forall i, j :: 0 <= i < j < |values| ==> values[i] != values[j]
    ensures ids.Some? ==> |ids.value| == |values| && forall i :: 0 <= i < |values| ==> values[i] == Some(ids.value[i])
  {
    if |values| > MAX_ROUTES {
      return None;
    }
    var seen: set<RouteId> := {};
    var parsed: seq<RouteId> := [];
    for i := 0 to |values|
      invariant |parsed| == i && forall k :: 0 <= k < i ==> values[k] == Some(parsed[k])
      invariant Distinct(parsed) && seen == set x | x in parsed
    {
      if values[i].None? {
        assert values[i] in values;
        return None;
      }
      var id := values[i].value;
      if id in seen {
        var k :| 0 <= k < i && parsed[k] == id;
        assert values[k] == values[i];
        return None;
      }
      seen := seen + {id};
      parsed := parsed + [id];
    }
    assert forall v :: v in values ==> v.Some?;
    return Some(parsed);
  }

  function Unrequested(hidden: seq<HiddenRoute>, requested: set<RouteId>): seq<HiddenRoute> {
    if hidden == [] then []
    else Unrequested(hidden[..|hidden| - 1], requested)
         + if hidden[|hidden| - 1].id in requested then [] else [hidden[|hidden| - 1]]
  }

  lemma {:induction false} NothingHiddenRequested(hidden: seq<HiddenRoute>, requested: set<RouteId>)
    requires forall h :: h in hidden ==> h.id !in requested
    ensures Unrequested(hidden, requested) == hidden
  {
    if hidden != [] { NothingHiddenRequested(hidden[..|hidden| - 1], requested); }
  }

  lemma {:induction false} HiddenAreHidden(ids: seq<RouteId>, visible: RouteId -> bool)
    ensures forall h :: h in HiddenOf(Marked(ids, visible)) ==> !visible(h.id) && h.id in ids
  {
    if ids != [] {
      var rest := ids[..|ids| - 1];
      assert Marked(ids, visible) == Marked(rest, visible) + [Entry(ids[|ids| - 1], !visible(ids[|ids| - 1]))];
      OneEntry(Marked(rest, visible), Entry(ids[|ids| - 1], !visible(ids[|ids| - 1])));
      HiddenAreHidden(rest, visible);
    }
  }

  /** The hidden routes that were not asked for, with how many visible rows came before each. */
  method CollectHidden(existing: seq<RouteId>, visible: RouteId -> bool, requested: set<RouteId>) returns (hidden: seq<HiddenRoute>)
    ensures hidden == Unrequested(HiddenOf(Marked(existing, visible)), requested)
    ensures (forall id :: id in requested ==> visible(id)) ==> hidden == HiddenOf(Marked(existing, visible))
  {
    hidden := [];
    var visibleBefore := 0;
    for i := 0 to |existing|
      invariant hidden == Unrequested(HiddenOf(Marked(existing[..i], visible)), requested)
      invariant visibleBefore == |VisibleIds(Marked(existing[..i], visible))|
    {
      var id := existing[i];
      ghost var before := Marked(existing[..i], visible);
      assert Marked(existing[..i + 1], visible) == before + [Entry(id, !visible(id))];
      OneEntry(before, Entry(id, !visible(id)));
      if visible(id) {
        visibleBefore := visibleBefore + 1;
      } else {
        assert (HiddenOf(before) + [HiddenRoute(id, visibleBefore)])[..|HiddenOf(before)|] == HiddenOf(before);
        if id !in requested {
          hidden := hidden + [HiddenRoute(id, visibleBefore)];
        }
      }
    }
    assert existing[..|existing|] == existing;
    if forall id :: id in requested ==> visible(id) {
      HiddenAreHidden(existing, visible);
      NothingHiddenRequested(HiddenOf(Marked(existing, visible)), requested);
    }
  }

  /** The first `v` ids and the first `k` hidden routes are placed, and the other hidden ones come no earlier. */
  ghost predicate Merging(ordered: seq<Entry>, ids: seq<RouteId>, hidden: seq<HiddenRoute>, v: nat, k: nat) {
    && v <= |ids| && k <= |hidden|
    && VisibleIds(ordered) == ids[..v]
    && HiddenOf(ordered) == Capped(hidden, |ids|)[..k]
    && forall j :: k <= j < |hidden| ==> hidden[j].visibleBefore >= v
  }

  lemma TakeHidden(ordered: seq<Entry>, ids: seq<RouteId>, hidden: seq<HiddenRoute>, v: nat, k: nat)
    requires Merging(ordered, ids, hidden, v, k) && k < |hidden| && (hidden[k].visibleBefore <= v || v == |ids|)
    ensures Merging(ordered + [Entry(hidden[k].id, true)], ids, hidden, v, k + 1)
  {
    OneEntry(ordered, Entry(hidden[k].id, true));
  }

  lemma TakeVisible(ordered: seq<Entry>, ids: seq<RouteId>, hidden: seq<HiddenRoute>, v: nat, k: nat)
    requires Merging(ordered, ids, hidden, v, k) && Rising(hidden) && v < |ids| && (k == |hidden| || hidden[k].visibleBefore > v)
    ensures Merging(ordered + [Entry(ids[v], false)], ids, hidden, v + 1, k)
  {
    OneEntry(ordered, Entry(ids[v], false));
  }

  lemma Merged(ordered: seq<Entry>, ids: seq<RouteId>, hidden: seq<HiddenRoute>)
    requires Merging(ordered, ids, hidden, |ids|, |hidden|)
    ensures IsMerge(ordered, ids, hidden) && |ordered| == |ids| + |hidden|
  {
    assert Capped(hidden, |ids|)[..|hidden|] == Capped(hidden, |ids|) && ids[..|ids|] == ids;
    HiddenCountsRise(ordered);
  }

  /** Before each requested route, the hidden ones whose turn has come; after the last, the rest. */
  method MergeOrder(ids: seq<RouteId>, hidden: seq<HiddenRoute>) returns (ordered: seq<Entry>)
    requires Rising(hidden)
    ensures IsMerge(ordered, ids, hidden)
    ensures |ordered| == |ids| + |hidden|
  {
    ordered := [];
    var hiddenIndex := 0;
    assert Merging(ordered, ids, hidden, 0, 0);
    hide Merging, IsMerge, Rising;
    for visibleIndex := 0 to |ids| + 1
      invariant hiddenIndex <= |hidden|
      invariant Merging(ordered, ids, hidden, if visibleIndex <= |ids| then visibleIndex else |ids|, hiddenIndex)
      invariant visibleIndex > |ids| ==> hiddenIndex == |hidden|
    {
      while hiddenIndex < |hidden| && (hidden[hiddenIndex].visibleBefore <= visibleIndex || visibleIndex == |ids|)
        invariant hiddenIndex <= |hidden|
        invariant Merging(ordered, ids, hidden, visibleIndex, hiddenIndex)
        decreases |hidden| - hiddenIndex
      {
        TakeHidden(ordered, ids, hidden, visibleIndex, hiddenIndex);
        ordered := ordered + [Entry(hidden[hiddenIndex].id, true)];
        hiddenIndex := hiddenIndex + 1;
      }
      if visibleIndex < |ids| {
        TakeVisible(ordered, ids, hidden, visibleIndex, hiddenIndex);
        ordered := ordered + [Entry(ids[visibleIndex], false)];
      }
    }
    Merged(ordered, ids, hidden);
  }

  // ---------------------------------------------------------------- the table

  ghost predicate UniquePositions(rows: Rows) {
    forall a, b :: a in rows && b in rows && a != b ==> rows[a] != rows[b]
  }

  /** The rows of a circuit by position, as a query lists them. */
  ghost predicate IsListing(ids: seq<RouteId>, rows: Rows) {
    && (forall id :: id in rows <==> id in ids)
    && forall i, j :: 0 <= i < j < |ids| ==> rows[ids[i]] < rows[ids[j]]
  }

  ghost predicate Lists(order: seq<RouteId>, rows: Rows) {
    Distinct(order) && forall id :: id in rows <==> id in order
  }

  /** Some row moves onto a position whose row is still to move. */
  ghost predicate Collides(order: seq<RouteId>, rows: Rows, offset: nat)
    requires Lists(order, rows)
  {
    exists i, j :: 0 <= i < j < |order| && rows[order[j]] == rows[order[i]] + offset
  }

  function Shifted(rows: Rows, offset: nat): Rows {
    map id | id in rows :: rows[id] + offset
  }

  function Numbered(ordered: seq<Entry>): Rows {
    if ordered == [] then map[] else Numbered(ordered[..|ordered| - 1])[ordered[|ordered| - 1].id := |ordered| - 1]
  }

  lemma {:induction false} NumberedAt(ordered: seq<Entry>)
    requires forall i, j :: 0 <= i < j < |ordered| ==> ordered[i].id != ordered[j].id
    ensures forall k :: 0 <= k < |ordered| ==> ordered[k].id in Numbered(ordered) && Numbered(ordered)[ordered[k].id] == k
    ensures forall id :: id in Numbered(ordered) ==> Numbered(ordered)[id] < |ordered| && ordered[Numbered(ordered)[id]].id == id
  {
    if ordered != [] { NumberedAt(ordered[..|ordered| - 1]); }
  }

  /** A row found on the target position is one that has not moved yet. */
  lemma BlockerIsStillToMove(order: seq<RouteId>, before: Rows, rows: Rows, i: nat, offset: nat, other: RouteId) returns (j: nat)
    requires Lists(order, before) && UniquePositions(before) && offset > 0 && i < |order| && rows.Keys == before.Keys
    requires forall k :: 0 <= k < i ==> rows[order[k]] == before[order[k]] + offset
    requires forall k :: i <= k < |order| ==> rows[order[k]] == before[order[k]]
    requires other in rows && rows[other] == rows[order[i]] + offset
    ensures i < j < |order| && before[order[j]] == before[order[i]] + offset
  {
    assert order[i] in before;
    j :| 0 <= j < |order| && order[j] == other;
    assert order[i] in before && order[j] in before;
    assert order[j] != order[i];
  }

  /** The rows moved so far, none of them onto a row still to move. */
  ghost predicate ShiftedUpTo(order: seq<RouteId>, before: Rows, rows: Rows, i: nat, offset: nat)
    requires i <= |order| && Lists(order, before)
  {
    && rows.Keys == before.Keys
    && (forall k :: 0 <= k < i ==> rows[order[k]] == before[order[k]] + offset)
    && (forall k :: i <= k < |order| ==> rows[order[k]] == before[order[k]])
    && (forall k, j :: 0 <= k < i && k < j < |order| ==> before[order[j]] != before[order[k]] + offset)
  }

  lemma ShiftOne(order: seq<RouteId>, before: Rows, rows: Rows, i: nat, offset: nat)
    requires i < |order| && Lists(order, before) && ShiftedUpTo(order, before, rows, i, offset)
    requires forall other :: other in rows ==> rows[other] != rows[order[i]] + offset
    ensures ShiftedUpTo(order, before, rows[order[i] := rows[order[i]] + offset], i + 1, offset)
  {
    forall j | i < j < |order| ensures before[order[j]] != before[order[i]] + offset { assert order[j] in before; }
  }

  lemma BlockedShiftCollides(order: seq<RouteId>, before: Rows, rows: Rows, i: nat, offset: nat, other: RouteId)
    requires Lists(order, before) && UniquePositions(before) && offset > 0 && i < |order|
    requires ShiftedUpTo(order, before, rows, i, offset) && other in rows && order[i] in rows && rows[other] == rows[order[i]] + offset
    ensures Collides(order, before, offset)
  {
    var j := BlockerIsStillToMove(order, before, rows, i, offset, other);
  }

  lemma NextIsListed(order: seq<RouteId>, before: Rows, rows: Rows, i: nat, offset: nat)
    requires i < |order| && Lists(order, before) && ShiftedUpTo(order, before, rows, i, offset)
    ensures order[i] in rows
  {
  }

  lemma AllShifted(order: seq<RouteId>, before: Rows, rows: Rows, offset: nat)
    requires Lists(order, before) && ShiftedUpTo(order, before, rows, |order|, offset)
    ensures rows == Shifted(before, offset) && !Collides(order, before, offset)
  {
    forall id | id in before ensures rows[id] == before[id] + offset {
      var k :| 0 <= k < |order| && order[k] == id;
    }
  }

  class CircuitTable {
    var rows: Rows

    constructor ()
      ensures rows == map[]
    {
      rows := map[];
    }

    /** One UPDATE over all rows, in whatever order the rows come; uniqueness is checked at each row. */
    method ShiftPositions(offset: nat, order: seq<RouteId>) returns (ok: bool)
      requires Lists(order, rows) && UniquePositions(rows) && offset > 0
      modifies this
      ensures ok <==> !Collides(order, old(rows), offset)
      ensures rows == if ok then Shifted(old(rows), offset) else old(rows)
    {
      var before := rows;
      assert ShiftedUpTo(order, before, rows, 0, offset);
      hide ShiftedUpTo, Collides, Lists, UniquePositions, Shifted;
      for i := 0 to |order|
        invariant ShiftedUpTo(order, before, rows, i, offset)
      {
        var id := order[i];
        NextIsListed(order, before, rows, i, offset);
        if exists other :: other in rows && rows[other] == rows[id] + offset {
          ghost var other :| other in rows && rows[other] == rows[id] + offset;
          BlockedShiftCollides(order, before, rows, i, offset, other);
          rows := before;
          return false;
        }
        ShiftOne(order, before, rows, i, offset);
        rows := rows[id := rows[id] + offset];
      }
      AllShifted(order, before, rows, offset);
      return true;
    }

    method DeleteVisible(visible: RouteId -> bool)
      modifies this
      ensures rows == map id | id in old(rows) && !visible(id) :: old(rows)[id]
    {
      rows := map id | id in rows && !visible(id) :: rows[id];
    }

    /**
     Gives each entry its position: hidden rows are moved there, visible ones inserted. With every
     remaining row parked above the new positions, no statement can be refused.
     */
    method WritePositions(ordered: seq<Entry>) returns (error: Option<CircuitError>)
      requires forall i, j :: 0 <= i < j < |ordered| ==> ordered[i].id != ordered[j].id
      requires forall id :: id in rows <==> Entry(id, true) in ordered
      requires forall id :: id in rows ==> rows[id] > |ordered|
      modifies this
      ensures error.None? && rows == Numbered(ordered)
    {
      ghost var left := rows;
      assert rows == left + Numbered(ordered[..0]);
      hide Numbered;
      for i := 0 to |ordered|
        invariant rows == left + Numbered(ordered[..i])
      {
        var entry := ordered[i];
        PlaceOne(left, ordered, i);
        if !entry.hidden && entry.id in rows {
          return Some(RouteTwice);
        }
        if exists other :: other in rows && other != entry.id && rows[other] == i {
          return Some(PositionTaken);
        }
        if !entry.hidden || entry.id in rows {
          rows := rows[entry.id := i];
        }
      }
      AllPlaced(left, ordered);
      return None;
    }

    /**
     The whole replacement. `existing` is the listing the transaction reads, `order` the order in which
     the shift meets the rows; a route that may be used is one its owner sees.
     */
    method ReplaceRoutes(existing: seq<RouteId>, visible: RouteId -> bool, available: RouteId -> bool, ids: seq<RouteId>, order: seq<RouteId>)
      returns (error: Option<CircuitError>, ordered: seq<Entry>)
      requires UniquePositions(rows) && IsListing(existing, rows) && Lists(order, rows) && Distinct(ids)
      requires forall id :: available(id) ==> visible(id)
      modifies this
      ensures error.Some? ==> rows == old(rows)
      ensures error.None? <==>
        && (forall id :: id in ids ==> available(id))
        && |ids| + |HiddenOf(Marked(existing, visible))| <= MAX_ROUTES
        && !Collides(order, old(rows), |ids| + |HiddenOf(Marked(existing, visible))| + 1)
      ensures error.None? ==> IsMerge(ordered, ids, HiddenOf(Marked(existing, visible))) && NoRouteTwice(ordered)
      ensures error.None? ==> rows == Numbered(ordered) && |ordered| <= MAX_ROUTES
    {
      hide VisibleIds, HiddenOf, Capped, Marked, Collides, IsListing, Lists, Distinct, UniquePositions, Numbered, IsMerge, Shifted, Rising, Unrequested;
      ordered := [];
      ghost var before := rows;
      var hidden := CollectHidden(existing, visible, set id | id in ids);
      if |ids| + |hidden| > MAX_ROUTES {
        FewerHiddenThanAll(HiddenOf(Marked(existing, visible)), set id | id in ids);
        return Some(TooManyRoutes), [];
      }
      if exists id :: id in ids && !available(id) {
        return Some(RouteUnavailable), [];
      }
      var offset := |ids| + |hidden| + 1;
      var shifted := ShiftPositions(offset, order);
      if !shifted {
        return Some(PositionTaken), [];
      }
      DeleteVisible(visible);
      HiddenCountsRise(Marked(existing, visible));
      ordered := MergeOrder(ids, hidden);
      ReadyToWrite(existing, before, visible, ids, ordered, offset);
      error := WritePositions(ordered);
    }

    /** A route already there stays where it is; a new one goes last unless the circuit is full. */
    method AppendRoute(route: RouteId) returns (error: Option<CircuitError>)
      requires UniquePositions(rows)
      modifies this
      ensures error.None? <==> route in old(rows) || |old(rows)| < MAX_ROUTES
      ensures route in old(rows) || error.Some? ==> rows == old(rows)
      ensures error.None? && route !in old(rows) ==>
        && route in rows && rows == old(rows)[route := rows[route]]
        && (forall id :: id in old(rows) ==> rows[id] < rows[route])
        && (old(rows) == map[] ==> rows[route] == 0)
        && (old(rows) != map[] ==> exists id :: id in old(rows) && rows[route] == rows[id] + 1)
      ensures UniquePositions(rows)
    {
      if route in rows {
        return None;
      }
      if |rows| >= MAX_ROUTES {
        return Some(TooManyRoutes);
      }
      var last: Option<RouteId> := None;
      var rest := rows.Keys;
      while rest != {}
        invariant rest <= rows.Keys
        invariant last.None? ==> rest == rows.Keys
        invariant last.Some? ==> last.value in rows && forall id :: id in rows && id !in rest ==> rows[id] <= rows[last.value]
      {
        var id :| id in rest;
        rest := rest - {id};
        if last.None? || rows[id] > rows[last.value] {
          last := Some(id);
        }
      }
      rows := rows[route := if last.None? then 0 else rows[last.value] + 1];
      return None;
    }
  }

  ghost predicate HasHidden(hidden: seq<HiddenRoute>, id: RouteId) {
    exists h :: h in hidden && h.id == id
  }

  ghost predicate NoRouteTwice(ordered: seq<Entry>) {
    forall i, j :: 0 <= i < j < |ordered| ==> ordered[i].id != ordered[j].id
  }

  lemma {:induction false} FewerHiddenThanAll(hidden: seq<HiddenRoute>, requested: set<RouteId>)
    ensures |Unrequested(hidden, requested)| <= |hidden|
  {
    if hidden != [] { FewerHiddenThanAll(hidden[..|hidden| - 1], requested); }
  }

  /** Entries are the visible ids and the hidden routes, nothing else. */
  lemma {:induction false} EntriesAre(order: seq<Entry>, id: RouteId)
    ensures Entry(id, false) in order <==> id in VisibleIds(order)
    ensures Entry(id, true) in order <==> HasHidden(HiddenOf(order), id)
  {
    if order != [] {
      var (rest, e) := (order[..|order| - 1], order[|order| - 1]);
      assert order == rest + [e];
      OneEntry(rest, e);
      EntriesAre(rest, id);
      assert forall h :: h in HiddenOf(order) <==> h in HiddenOf(rest) || (e.hidden && h == HiddenRoute(e.id, |VisibleIds(rest)|));
    }
  }

  lemma {:induction false} EntriesAreDistinct(order: seq<Entry>)
    requires Distinct(VisibleIds(order))
    requires forall i, j :: 0 <= i < j < |HiddenOf(order)| ==> HiddenOf(order)[i].id != HiddenOf(order)[j].id
    requires forall h :: h in HiddenOf(order) ==> h.id !in VisibleIds(order)
    ensures NoRouteTwice(order)
  {
    if order != [] {
      var (rest, e) := (order[..|order| - 1], order[|order| - 1]);
      assert order == rest + [e];
      OneEntry(rest, e);
      var (v, h) := (VisibleIds(rest), HiddenOf(rest));
      assert VisibleIds(order)[..|v|] == v && HiddenOf(order)[..|h|] == h;
      EntriesAreDistinct(rest);
      forall i | 0 <= i < |rest| ensures rest[i].id != e.id {
        EntriesAre(rest, rest[i].id);
        assert rest[i] in rest && rest[i] == Entry(rest[i].id, rest[i].hidden);
        if rest[i].hidden {
          var k :| 0 <= k < |h| && h[k].id == rest[i].id;
          assert HiddenOf(order)[k] == h[k] && h[k] in HiddenOf(order);
          if e.hidden { assert HiddenOf(order)[|h|].id == e.id; } else { assert e.id in VisibleIds(order); }
        } else {
          var k :| 0 <= k < |v| && v[k] == rest[i].id;
          assert VisibleIds(order)[k] == v[k] && v[k] in VisibleIds(order);
          if e.hidden { assert HiddenOf(order)[|h|] in HiddenOf(order); } else { assert VisibleIds(order)[|v|] == e.id; }
        }
      }
    }
  }

  lemma {:induction false} HiddenOfListing(ids: seq<RouteId>, visible: RouteId -> bool)
    requires Distinct(ids)
    ensures forall i, j :: 0 <= i < j < |HiddenOf(Marked(ids, visible))| ==> HiddenOf(Marked(ids, visible))[i].id != HiddenOf(Marked(ids, visible))[j].id
    ensures forall id :: (id in ids && !visible(id)) <==> HasHidden(HiddenOf(Marked(ids, visible)), id)
  {
    if ids != [] {
      var (rest, id) := (ids[..|ids| - 1], ids[|ids| - 1]);
      assert Marked(ids, visible) == Marked(rest, visible) + [Entry(id, !visible(id))];
      OneEntry(Marked(rest, visible), Entry(id, !visible(id)));
      HiddenOfListing(rest, visible);
      HiddenAreHidden(rest, visible);
      assert forall x :: x in ids <==> x in rest || x == id;
      var (a, b) := (HiddenOf(Marked(rest, visible)), HiddenOf(Marked(ids, visible)));
      assert forall h :: h in a ==> h in b;
      if !visible(id) { assert b[|a|] in b && b[|a|].id == id; }
    }
  }

  lemma PlaceOne(left: Rows, ordered: seq<Entry>, i: nat)
    requires i < |ordered| && forall a, b :: 0 <= a < b < |ordered| ==> ordered[a].id != ordered[b].id
    requires forall id :: id in left <==> Entry(id, true) in ordered
    requires forall id :: id in left ==> left[id] > |ordered|
    ensures
      var rows := left + Numbered(ordered[..i]);
      && (ordered[i].id in rows <==> ordered[i].hidden)
      && (forall other :: other in rows && other != ordered[i].id ==> rows[other] != i)
      && rows[ordered[i].id := i] == left + Numbered(ordered[..i + 1])
  {
    NumberedAt(ordered[..i]);
    assert ordered[..i + 1][..i] == ordered[..i];
    assert ordered[i].id !in Numbered(ordered[..i]);
    assert ordered[i].hidden ==> Entry(ordered[i].id, true) in ordered;
    if ordered[i].id in left {
      var k :| 0 <= k < |ordered| && ordered[k] == Entry(ordered[i].id, true);
      assert k == i;
    }
  }

  lemma AllPlaced(left: Rows, ordered: seq<Entry>)
    requires forall a, b :: 0 <= a < b < |ordered| ==> ordered[a].id != ordered[b].id
    requires forall id :: id in left <==> Entry(id, true) in ordered
    ensures left + Numbered(ordered[..|ordered|]) == Numbered(ordered)
  {
    assert ordered[..|ordered|] == ordered;
    NumberedAt(ordered);
    forall id | id in left ensures id in Numbered(ordered) {
      var k :| 0 <= k < |ordered| && ordered[k] == Entry(id, true);
    }
  }

  lemma CappedIds(hidden: seq<HiddenRoute>, n: nat)
    ensures |Capped(hidden, n)| == |hidden| && forall i :: 0 <= i < |hidden| ==> Capped(hidden, n)[i].id == hidden[i].id
    ensures forall id :: HasHidden(Capped(hidden, n), id) <==> HasHidden(hidden, id)
  {
    forall h | h in hidden ensures HasHidden(Capped(hidden, n), h.id) {
      var i :| 0 <= i < |hidden| && hidden[i] == h;
      assert Capped(hidden, n)[i] in Capped(hidden, n);
    }
    forall g | g in Capped(hidden, n) ensures HasHidden(hidden, g.id) {
      var i :| 0 <= i < |hidden| && Capped(hidden, n)[i] == g;
      assert hidden[i] in hidden;
    }
  }

  lemma ListingIsDistinct(ids: seq<RouteId>, rows: Rows)
    requires IsListing(ids, rows)
    ensures Distinct(ids)
  {
    forall i, j | 0 <= i < j < |ids| ensures ids[i] != ids[j] { assert rows[ids[i]] < rows[ids[j]]; }
  }

  /** After the shift and the delete, what is left are the hidden rows, all above the positions to come. */
  lemma ReadyToWrite(existing: seq<RouteId>, before: Rows, visible: RouteId -> bool, ids: seq<RouteId>, ordered: seq<Entry>, offset: nat)
    requires IsListing(existing, before) && Distinct(ids) && forall id :: id in ids ==> visible(id)
    requires IsMerge(ordered, ids, HiddenOf(Marked(existing, visible)))
    requires offset == |ids| + |HiddenOf(Marked(existing, visible))| + 1 == |ordered| + 1
    ensures NoRouteTwice(ordered)
    ensures
      var left := map id | id in Shifted(before, offset) && !visible(id) :: Shifted(before, offset)[id];
      && (forall id :: id in left <==> Entry(id, true) in ordered)
      && (forall id :: id in left ==> left[id] > |ordered|)
  {
    var hidden := HiddenOf(Marked(existing, visible));
    ListingIsDistinct(existing, before);
    HiddenOfListing(existing, visible);
    CappedIds(hidden, |ids|);
    HiddenAreHidden(existing, visible);
    forall h | h in HiddenOf(ordered) ensures h.id !in VisibleIds(ordered) {
      assert HasHidden(HiddenOf(ordered), h.id) && HasHidden(hidden, h.id);
    }
    EntriesAreDistinct(ordered);
    forall id ensures Entry(id, true) in ordered <==> id in before && !visible(id) {
      EntriesAre(ordered, id);
    }
  }

  // ---------------------------------------------------------------- what the table says afterwards

  function IdsOf(ordered: seq<Entry>): seq<RouteId> {
    seq(|ordered|, i requires 0 <= i < |ordered| => ordered[i].id)
  }

  /** Positions run from 0 without gaps, in the merged order, and there are as many rows as entries. */
  lemma WrittenOrderIsListed(ordered: seq<Entry>)
    requires NoRouteTwice(ordered)
    ensures IsListing(IdsOf(ordered), Numbered(ordered)) && UniquePositions(Numbered(ordered))
    ensures forall i :: 0 <= i < |ordered| ==> Numbered(ordered)[IdsOf(ordered)[i]] == i
    ensures |Numbered(ordered)| == |ordered|
  {
    NumberedAt(ordered);
    NumberedSize(ordered);
    forall id | id in Numbered(ordered) ensures id in IdsOf(ordered) {
      assert IdsOf(ordered)[Numbered(ordered)[id]] == id;
    }
  }

  lemma {:induction false} NumberedSize(ordered: seq<Entry>)
    requires NoRouteTwice(ordered)
    ensures |Numbered(ordered)| == |ordered|
  {
    if ordered != [] {
      var rest := ordered[..|ordered| - 1];
      NumberedSize(rest);
      NumberedAt(rest);
      assert ordered[|ordered| - 1].id !in Numbered(rest);
    }
  }

  lemma MergedFlags(existing: seq<RouteId>, visible: RouteId -> bool, ids: seq<RouteId>, ordered: seq<Entry>)
    requires IsMerge(ordered, ids, HiddenOf(Marked(existing, visible))) && forall id :: id in ids ==> visible(id)
    ensures Marked(IdsOf(ordered), visible) == ordered
  {
    HiddenAreHidden(existing, visible);
    CappedIds(HiddenOf(Marked(existing, visible)), |ids|);
    forall i | 0 <= i < |ordered| ensures Marked(IdsOf(ordered), visible)[i] == ordered[i] {
      EntriesAre(ordered, ordered[i].id);
      assert ordered[i] in ordered && ordered[i] == Entry(ordered[i].id, ordered[i].hidden);
    }
  }

  /** The owner then sees exactly the list they sent, and each hidden route behind min(k, length) of it where k were before it. */
  lemma OwnerSeesWhatTheySent(existing: seq<RouteId>, visible: RouteId -> bool, ids: seq<RouteId>, ordered: seq<Entry>)
    requires IsMerge(ordered, ids, HiddenOf(Marked(existing, visible))) && forall id :: id in ids ==> visible(id)
    ensures VisibleIds(Marked(IdsOf(ordered), visible)) == ids
    ensures HiddenOf(Marked(IdsOf(ordered), visible)) == Capped(HiddenOf(Marked(existing, visible)), |ids|)
  {
    MergedFlags(existing, visible, ids, ordered);
  }

  // ---------------------------------------------------------------- when the shift can be refused

  lemma {:induction false} SomeListing(ids: set<RouteId>) returns (order: seq<RouteId>)
    ensures Distinct(order) && forall id :: id in ids <==> id in order
    decreases ids
  {
    if ids == {} {
      order := [];
    } else {
      var id :| id in ids;
      var rest := SomeListing(ids - {id});
      order := rest + [id];
    }
  }

  ghost predicate Apart(rows: Rows, offset: nat) {
    forall a, b :: a in rows && b in rows ==> rows[b] != rows[a] + offset
  }

  /** Whatever order the rows come in the shift goes through: exactly if no two rows are the offset apart. */
  lemma ShiftIsSafeExactlyWhen(rows: Rows, offset: nat)
    requires UniquePositions(rows) && offset > 0
    ensures (forall order :: Lists(order, rows) ==> !Collides(order, rows, offset)) <==> Apart(rows, offset)
  {
    if !Apart(rows, offset) {
      var a, b :| a in rows && b in rows && rows[b] == rows[a] + offset;
      var rest := SomeListing(rows.Keys - {a, b});
      var order := [a, b] + rest;
      assert forall id :: id in rows <==> id in order;
      assert Distinct(order);
      assert order[0] == a && order[1] == b;
      assert Lists(order, rows) && Collides(order, rows, offset);
    } else {
      forall order | Lists(order, rows) ensures !Collides(order, rows, offset) {
        forall i, j | 0 <= i < j < |order| ensures rows[order[j]] != rows[order[i]] + offset {
          assert order[i] in rows && order[j] in rows;
        }
      }
    }
  }

  /**
   On a circuit without gaps the shift is safe in every row order exactly if the new list has at most
   one route fewer than the visible one it replaces: shortening by two can be refused.
   */
  lemma ShorteningByTwoCanBeRefused(before: seq<Entry>, newVisible: nat)
    requires NoRouteTwice(before)
    ensures Apart(Numbered(before), newVisible + |HiddenOf(before)| + 1) <==> |VisibleIds(before)| <= newVisible + 1
  {
    var (rows, offset) := (Numbered(before), newVisible + |HiddenOf(before)| + 1);
    NumberedAt(before);
    HiddenCountsRise(before);
    if |VisibleIds(before)| > newVisible + 1 {
      assert rows[before[offset].id] == rows[before[0].id] + offset;
    }
  }

  /** Three visible routes in a row, shortened to the first: refused when the rows are met in position order. */
  lemma ShorteningThreeToOne(a: RouteId, b: RouteId, c: RouteId)
    requires a != b && b != c && a != c
    ensures
      var rows: Rows := map[a := 0, b := 1, c := 2];
      Lists([a, b, c], rows) && Collides([a, b, c], rows, 1 + 0 + 1) && !Collides([c, b, a], rows, 1 + 0 + 1)
  {
    var rows: Rows := map[a := 0, b := 1, c := 2];
    var order := [a, b, c];
    assert rows[order[2]] == rows[order[0]] + 2;
  }
}
