/**
 The handlers as they change the tables, statement by statement, against the
 transactions of WallTables (server/internal/wall/reset.go,
 server/internal/wall/handler.go, worker/main.py). A refused transaction leaves every
 table as it was.
 */
module WallStore {
  import opened Wrappers
  import opened HoldRemap
  import opened Homography
  import opened HoldOutline
  import T = WallTables
  import GreedyMatch

  /** The routes among `ids` whose every hold is matched. */
  ghost function CompleteAmong(routes: map<T.RouteId, T.Route>, ids: set<T.RouteId>, matches: Matches): set<T.RouteId> {
    set id | id in ids && id in routes && Rewritten(routes[id].holds, matches).Complete?
  }

  /** The routes in `done`, all of the parent, have been dealt with. */
  ghost predicate Moving(db: T.Db, parent: T.ImageId, image: T.ImageId, matches: Matches, done: set<T.RouteId>,
                         moved: map<T.RouteId, T.Route>, kept: nat) {
    && moved.Keys == db.routes.Keys
    && (forall id :: id in db.routes ==>
         moved[id] == if id in done then T.MovedRoute(db.routes[id], parent, image, matches) else db.routes[id])
    && (forall id :: id in done && id in db.routes ==> !Rewritten(db.routes[id].holds, matches).BadRoles?)
    && kept == |CompleteAmong(db.routes, done, matches)|
  }

  lemma MovingStarts(db: T.Db, parent: T.ImageId, image: T.ImageId, matches: Matches)
    ensures Moving(db, parent, image, matches, {}, db.routes, 0)
  {
    assert CompleteAmong(db.routes, {}, matches) == {};
  }

  lemma OnParent(db: T.Db, parent: T.ImageId, id: T.RouteId)
    ensures id in T.RoutesOn(db, parent) <==> id in db.routes && db.routes[id].image == parent
  {
  }

  lemma CountOneMore(routes: map<T.RouteId, T.Route>, done: set<T.RouteId>, id: T.RouteId, matches: Matches)
    requires id in routes && id !in done
    ensures |CompleteAmong(routes, done + {id}, matches)|
         == |CompleteAmong(routes, done, matches)| + if Rewritten(routes[id].holds, matches).Complete? then 1 else 0
  {
    hide Rewritten;
    assert CompleteAmong(routes, done + {id}, matches)
        == CompleteAmong(routes, done, matches) + if Rewritten(routes[id].holds, matches).Complete? then {id} else {};
  }

  lemma MovedOne(route: T.Route, parent: T.ImageId, image: T.ImageId, matches: Matches)
    requires route.image == parent
    ensures T.MovedRoute(route, parent, image, matches)
         == if Rewritten(route.holds, matches).Complete? then route.(image := image, holds := Rewritten(route.holds, matches).holds) else route
  {
    hide Rewritten;
  }

  /** One route more: moved and counted if complete, left and not counted otherwise. */
  lemma MovingOn(db: T.Db, parent: T.ImageId, image: T.ImageId, matches: Matches, done: set<T.RouteId>,
                 moved: map<T.RouteId, T.Route>, kept: nat, id: T.RouteId)
    requires Moving(db, parent, image, matches, done, moved, kept) && id !in done
    requires id in db.routes && db.routes[id].image == parent
    ensures
      var rewrite := Rewritten(db.routes[id].holds, matches);
      if rewrite.BadRoles? then true
      else if rewrite.Complete?
      then Moving(db, parent, image, matches, done + {id}, moved[id := db.routes[id].(image := image, holds := rewrite.holds)], kept + 1)
      else Moving(db, parent, image, matches, done + {id}, moved, kept)
  {
    hide Rewritten, T.MovedRoute, CompleteAmong;
    CountOneMore(db.routes, done, id, matches);
    MovedOne(db.routes[id], parent, image, matches);
  }

  lemma MovingEnds(db: T.Db, parent: T.ImageId, image: T.ImageId, matches: Matches, moved: map<T.RouteId, T.Route>, kept: nat)
    requires Moving(db, parent, image, matches, T.RoutesOn(db, parent), moved, kept)
    ensures moved == T.MovedRoutes(db.routes, parent, image, matches)
    ensures forall id :: id in db.routes && db.routes[id].image == parent ==> !Rewritten(db.routes[id].holds, matches).BadRoles?
    ensures kept == |T.KeptRoutes(db, parent, matches)| <= |T.RoutesOn(db, parent)|
  {
    hide Rewritten;
    forall id | id in db.routes ensures moved[id] == T.MovedRoute(db.routes[id], parent, image, matches) {
      if db.routes[id].image != parent { assert T.MovedRoute(db.routes[id], parent, image, matches) == db.routes[id]; }
    }
    hide T.MovedRoute;
    assert CompleteAmong(db.routes, T.RoutesOn(db, parent), matches) == T.KeptRoutes(db, parent, matches);
    Cardinality(T.KeptRoutes(db, parent, matches), T.RoutesOn(db, parent));
  }

  lemma OneMoreBox(holds: map<HoldId, T.Hold>, image: T.ImageId, first: HoldId, boxes: seq<Box>, k: nat)
    requires k < |boxes|
    ensures holds + T.Detected(image, first, boxes[..k + 1])
         == (holds + T.Detected(image, first, boxes[..k]))[first + k := T.Hold(image, boxes[k])]
  {
    var (before, after) := (T.Detected(image, first, boxes[..k]), T.Detected(image, first, boxes[..k + 1]));
    assert after.Keys == before.Keys + {first + k};
    forall h | h in before ensures after[h] == before[h] { assert boxes[..k + 1][h - first] == boxes[..k][h - first]; }
  }

  class Store {
    var walls: set<T.WallId>
    var images: map<T.ImageId, T.Image>
    var holds: map<HoldId, T.Hold>
    var matches: map<HoldId, T.MatchRow>
    var jobs: map<T.ImageId, T.JobStatus>
    var routes: map<T.RouteId, T.Route>
    var queued: set<T.Key>
    /** Ids handed out so far. */
    var nextId: nat

    function State(): T.Db
      reads this
    {
      T.Db(walls, images, holds, matches, jobs, routes, queued)
    }

    constructor ()
      ensures State() == T.Db({}, map[], map[], map[], map[], map[], {}) && nextId == 0
    {
      walls, images, holds, matches, jobs, routes, queued, nextId := {}, map[], map[], map[], map[], map[], {}, 0;
    }

    /** A reset image, locked for review: its parent, or nothing. */
    method LockPendingReset(wall: T.WallId, image: T.ImageId) returns (parent: Option<T.ImageId>)
      ensures parent == T.LockPendingReset(State(), wall, image)
    {
      if image !in images || images[image].wall != wall || images[image].kind != T.Partial {
        return None;
      }
      var row := images[image];
      if row.parent.None? || row.review != Some(T.PendingReview) || row.active {
        return None;
      }
      return row.parent;
    }

    method InsertMatch(image: T.ImageId, oldHold: HoldId, newHold: HoldId) returns (ok: bool)
      modifies `matches
      ensures T.InsertMatch(old(State()), image, oldHold, newHold) == if ok then Some(State()) else None
      ensures !ok ==> State() == old(State())
    {
      ok := oldHold in holds && newHold in holds && image in images && oldHold !in matches
         && forall o :: o in matches ==> matches[o].newHold != newHold;
      if ok {
        matches := matches[oldHold := T.MatchRow(image, newHold)];
      }
    }

    method UpsertMatch(image: T.ImageId, oldHold: HoldId, newHold: HoldId) returns (error: Option<T.MatchError>)
      modifies `matches
      ensures error.None? ==> T.UpsertMatch(old(State()), image, oldHold, newHold) == Ok(State())
      ensures error.Some? ==> State() == old(State()) && T.UpsertMatch(old(State()), image, oldHold, newHold) == Err(error.value)
    {
      if newHold !in holds || holds[newHold].image != image {
        return Some(T.NewHoldNotOnReset);
      }
      var before := matches;
      matches := map o | o in matches && !(matches[o].image == image && (o == oldHold || matches[o].newHold == newHold)) :: matches[o];
      assert State() == T.WithoutMatches(old(State()), image, oldHold, newHold);
      var inserted := InsertMatch(image, oldHold, newHold);
      if !inserted {
        matches := before;
        return Some(T.MatchConflict);
      }
      return None;
    }

    method UpdateResetMatch(wall: T.WallId, image: T.ImageId, oldHold: HoldId, newHold: Option<HoldId>)
      returns (error: Option<T.MatchError>)
      modifies `matches
      ensures error.None? ==> T.UpdateResetMatch(old(State()), wall, image, oldHold, newHold) == Ok(State())
      ensures error.Some? ==> State() == old(State()) && T.UpdateResetMatch(old(State()), wall, image, oldHold, newHold) == Err(error.value)
    {
      var parent := LockPendingReset(wall, image);
      if parent.None? {
        return Some(T.ResetNotFound);
      }
      if oldHold !in holds || holds[oldHold].image != parent.value {
        return Some(T.OldHoldNotOnParent);
      }
      match newHold {
        case None =>
          matches := map o | o in matches && !(matches[o].image == image && o == oldHold) :: matches[o];
          assert State() == T.Unmatched(old(State()), image, oldHold);
          return None;
        case Some(n) =>
          error := UpsertMatch(image, oldHold, n);
      }
    }

    /** Deletes holds and, with them, every match row of theirs. */
    method DeleteHolds(gone: set<HoldId>)
      modifies `holds, `matches
      ensures State() == T.WithoutHolds(old(State()), gone)
    {
      holds := map h | h in holds && h !in gone :: holds[h];
      matches := map o | o in matches && o !in gone && matches[o].newHold !in gone :: matches[o];
    }

    method DeleteResetHold(wall: T.WallId, image: T.ImageId, hold: HoldId) returns (error: Option<T.HoldError>)
      modifies `holds, `matches
      ensures error.None? ==> T.DeleteResetHold(old(State()), wall, image, hold) == Ok(State())
      ensures error.Some? ==> State() == old(State()) && T.DeleteResetHold(old(State()), wall, image, hold) == Err(error.value)
    {
      var parent := LockPendingReset(wall, image);
      if parent.None? {
        return Some(T.NoSuchReset);
      }
      if hold !in holds || holds[hold].image != image {
        return Some(T.NoSuchHold);
      }
      DeleteHolds({hold});
      return None;
    }

    /** Where the inverse alignment puts an old hold, if it may be restored at all. */
    method ProjectOldHold(wall: T.WallId, image: T.ImageId, oldHold: HoldId) returns (r: Result<Box, T.HoldError>)
      ensures r.Err? ==> T.RestoreRefusal(State(), wall, image, oldHold) == Some(r.error)
      ensures r.Ok? ==>
        && T.RestoreRefusal(State(), wall, image, oldHold).None?
        && oldHold in holds && image in images && images[image].alignment.Some?
        && var inverse := InverseHomography(images[image].alignment.value);
        && inverse.Some? && IsHull(r.value, Images(Corners(holds[oldHold].box), inverse.value))
    {
      hide Corners, IsHull, ProjectPoint;
      var parent := LockPendingReset(wall, image);
      if parent.None? {
        return Err(T.NoSuchReset);
      }
      if oldHold !in holds || holds[oldHold].image != parent.value {
        return Err(T.NoSuchHold);
      }
      if images[image].alignment.None? {
        return Err(T.AlignmentUnavailable);
      }
      var inverse := InverseHomography(images[image].alignment.value);
      if inverse.None? {
        return Err(T.AlignmentUnavailable);
      }
      var projected := ProjectBBox(holds[oldHold].box, inverse.value);
      if projected.None? {
        return Err(T.NotProjectable);
      }
      return Ok(projected.value);
    }

    /** Restores an old hold there, as a new hold matched to it. */
    method RestoreResetHold(wall: T.WallId, image: T.ImageId, oldHold: HoldId) returns (restored: Result<HoldId, T.HoldError>)
      modifies `holds, `matches, `nextId
      ensures restored.Ok? ==>
        && restored.value == old(nextId) && nextId == old(nextId) + 1 && restored.value in holds
        && T.RestoreRefusal(old(State()), wall, image, oldHold).None?
        && T.RestoreHold(old(State()), image, oldHold, old(nextId), holds[restored.value].box) == Ok(State())
        && image in images && images[image].alignment.Some? && oldHold in old(holds)
        && var inverse := InverseHomography(images[image].alignment.value);
        && inverse.Some? && IsHull(holds[restored.value].box, Images(Corners(old(holds)[oldHold].box), inverse.value))
      ensures restored.Err? ==>
        && State() == old(State()) && nextId == old(nextId)
        && (T.RestoreRefusal(old(State()), wall, image, oldHold) == Some(restored.error)
            || (restored.error == T.RestoreConflict && T.RestoreRefusal(old(State()), wall, image, oldHold).None?))
    {
      var projected := ProjectOldHold(wall, image, oldHold);
      hide T.RestoreRefusal, IsHull, Images, InverseHomography;
      if projected.Err? {
        return Err(projected.error);
      }
      var newHold, holdsBefore, matchesBefore := nextId, holds, matches;
      holds := holds[newHold := T.Hold(image, projected.value)];
      matches := map o | o in matches && !(matches[o].image == image && (o == oldHold || matches[o].newHold == newHold)) :: matches[o];
      assert State() == T.WithoutMatches(T.Inserted(old(State()), image, newHold, projected.value), image, oldHold, newHold);
      var inserted := InsertMatch(image, oldHold, newHold);
      if !inserted {
        holds, matches := holdsBefore, matchesBefore;
        return Err(T.RestoreConflict);
      }
      nextId := nextId + 1;
      return Ok(newHold);
    }

    // ---------------------------------------------------------------- applying a reset

    /** Everything checked under the wall lock before routes are touched. */
    method CheckApply(wall: T.WallId, image: T.ImageId) returns (r: Result<T.ImageId, T.ApplyError>)
      ensures r.Ok? ==>
        && T.LockPendingReset(State(), wall, image) == Some(r.value) && wall in walls
        && T.IsActive(State(), wall, r.value) && image in jobs && jobs[image] == T.Done
      ensures r.Err? ==> T.ApplyRefusal(State(), wall, image) == Some(r.error)
    {
      if wall !in walls {
        return Err(T.ApplyWallNotFound);
      }
      var parent := LockPendingReset(wall, image);
      if parent.None? {
        return Err(T.Stale);
      }
      if parent.value !in images || images[parent.value].wall != wall || !images[parent.value].active {
        return Err(T.ParentInactive);
      }
      if image !in jobs || jobs[image] != T.Done {
        return Err(T.DetectionIncomplete);
      }
      return Ok(parent.value);
    }

    /** Rewrites the routes of the parent one by one; any undecodable role list aborts. */
    method MoveRoutes(parent: T.ImageId, image: T.ImageId, matchMap: Matches)
      returns (r: Result<map<T.RouteId, T.Route>, T.ApplyError>, kept: nat, archived: nat)
      ensures r.Ok? <==> forall id :: id in routes && routes[id].image == parent ==> !Rewritten(routes[id].holds, matchMap).BadRoles?
      ensures r.Err? ==> r.error == T.InvalidRouteRoles
      ensures r.Ok? ==> r.value == T.MovedRoutes(routes, parent, image, matchMap)
      ensures r.Ok? ==> kept == |T.KeptRoutes(State(), parent, matchMap)| && kept + archived == |T.RoutesOn(State(), parent)|
    {
      hide Rewritten, T.MovedRoute, T.MovedRoutes, T.KeptRoutes, T.RoutesOn, Moving, CompleteAmong;
      var db := State();
      var all := T.RoutesOn(db, parent);
      var rest := all;
      var moved := routes;
      kept := 0;
      ghost var done: set<T.RouteId> := {};
      MovingStarts(db, parent, image, matchMap);
      while rest != {}
        invariant done + rest == all && done !! rest
        invariant Moving(db, parent, image, matchMap, done, moved, kept)
      {
        var id :| id in rest;
        OnParent(db, parent, id);
        MovingOn(db, parent, image, matchMap, done, moved, kept, id);
        var route := db.routes[id];
        var rewrite := RemapRouteHolds(route.holds.ids, route.holds.roles, matchMap);
        RewriteIsDetermined(RouteHolds(route.holds.ids, route.holds.roles), matchMap, rewrite);
        if rewrite.BadRoles? {
          return Err(T.InvalidRouteRoles), 0, 0;
        }
        if rewrite.Complete? {
          moved := moved[id := route.(image := image, holds := rewrite.holds)];
          kept := kept + 1;
        }
        rest, done := rest - {id}, done + {id};
      }
      MovingEnds(db, parent, image, matchMap, moved, kept);
      return Ok(moved), kept, |all| - kept;
    }

    method ApplyReset(wall: T.WallId, image: T.ImageId) returns (error: Option<T.ApplyError>, kept: nat, archived: nat)
      modifies `routes, `images
      ensures error.None? ==> T.ApplyReset(old(State()), wall, image) == Ok(State())
      ensures error.Some? ==> State() == old(State()) && T.ApplyReset(old(State()), wall, image) == Err(error.value)
      ensures error.None? ==>
        && image in old(images) && old(images)[image].parent.Some?
        && var parent := old(images)[image].parent.value;
        && kept == |T.KeptRoutes(old(State()), parent, T.MatchesOf(old(State()), image))|
        && kept + archived == |T.RoutesOn(old(State()), parent)|
    {
      hide Rewritten, T.MovedRoutes, T.KeptRoutes, T.RoutesOn;
      var checked := CheckApply(wall, image);
      if checked.Err? {
        return Some(checked.error), 0, 0;
      }
      var parent := checked.value;
      var moved, keptCount, archivedCount := MoveRoutes(parent, image, T.MatchesOf(State(), image));
      if moved.Err? {
        return Some(moved.error), 0, 0;
      }
      routes := moved.value;
      images := map i | i in images :: if images[i].wall == wall then images[i].(active := false) else images[i];
      images := images[image := images[image].(active := true, review := Some(T.Applied))];
      assert images == T.Activated(old(images), wall, image);
      return None, keptCount, archivedCount;
    }

    // ---------------------------------------------------------------- photos coming and going

    method DeleteImages(gone: set<T.ImageId>)
      modifies `images, `holds, `matches, `jobs
      ensures State() == T.WithoutImages(old(State()), gone)
    {
      DeleteHolds(set h | h in holds && holds[h].image in gone);
      matches := map o | o in matches && matches[o].image !in gone :: matches[o];
      jobs := map i | i in jobs && i !in gone :: jobs[i];
      images := map i | i in images && i !in gone :: T.Orphaned(images[i], gone);
    }

    /** The transaction that ends an upload: clears the wall's pending resets, then adds the photo and its job. */
    method CommitUpload(wall: T.WallId, kind: T.Kind, snapshot: T.ImageId, key: T.Key)
      returns (r: Result<T.ImageId, T.UploadError>, superseded: set<T.Key>)
      requires nextId !in images
      modifies `images, `holds, `matches, `jobs, `nextId
      ensures r.Ok? ==>
        && r.value == old(nextId) && nextId == old(nextId) + 1
        && T.CommitUpload(old(State()), wall, kind, snapshot, key, old(nextId)) == Ok(State())
        && superseded == set i | i in T.PendingImages(old(State()), wall) && i in old(images) :: old(images)[i].key
      ensures r.Err? ==>
        && State() == old(State()) && nextId == old(nextId)
        && T.CommitUpload(old(State()), wall, kind, snapshot, key, old(nextId)) == Err(r.error)
    {
      if wall !in walls {
        return Err(T.UploadWallNotFound), {};
      }
      if kind == T.Partial && !T.IsActive(State(), wall, snapshot) {
        return Err(T.ActiveImageChanged), {};
      }
      var pending := T.PendingImages(State(), wall);
      superseded := set i | i in pending && i in images :: images[i].key;
      DeleteImages(pending);
      var image := nextId;
      if kind == T.Partial {
        images := images[image := T.Image(wall, key, false, Some(snapshot), T.Partial, Some(T.PendingReview), None)];
      } else {
        images := map i | i in images :: if images[i].wall == wall then images[i].(active := false) else images[i];
        images := images[image := T.Image(wall, key, true, None, T.Full, None, None)];
      }
      jobs := jobs[image := T.Waiting];
      nextId := nextId + 1;
      return Ok(image), superseded;
    }

    method DiscardReset(wall: T.WallId, image: T.ImageId) returns (key: Option<T.Key>)
      modifies `images, `holds, `matches, `jobs
      ensures key.Some? ==> image in old(images) && key.value == old(images)[image].key
      ensures key.Some? ==> T.DiscardReset(old(State()), wall, image) == Some(State())
      ensures key.None? ==> State() == old(State()) && T.DiscardReset(old(State()), wall, image).None?
    {
      if image !in images || images[image].wall != wall || !T.IsPending(images[image]) {
        return None;
      }
      key := Some(images[image].key);
      DeleteImages({image});
    }

    /** Queues every object of the wall for deletion, then deletes the wall and what hangs on it. */
    method DeleteWall(wall: T.WallId) returns (found: bool)
      modifies this
      ensures nextId == old(nextId)
      ensures found ==> T.DeleteWall(old(State()), wall) == Some(State())
      ensures !found ==> State() == old(State()) && T.DeleteWall(old(State()), wall).None?
    {
      if wall !in walls {
        return false;
      }
      queued := queued + set i | i in images && images[i].wall == wall :: images[i].key;
      DeleteImages(T.ImagesOf(State(), wall));
      routes := map r | r in routes && routes[r].wall != wall :: routes[r];
      walls := walls - {wall};
      return true;
    }

    // ---------------------------------------------------------------- detection results

    method InsertHolds(image: T.ImageId, boxes: seq<Box>) returns (ids: seq<HoldId>)
      modifies `holds, `nextId
      ensures nextId == old(nextId) + |boxes| && |ids| == |boxes|
      ensures forall k :: 0 <= k < |boxes| ==> ids[k] == old(nextId) + k
      ensures State() == T.Found(old(State()), image, old(nextId), boxes)
    {
      ids := [];
      for k := 0 to |boxes|
        invariant nextId == old(nextId) + k && |ids| == k
        invariant forall j :: 0 <= j < k ==> ids[j] == old(nextId) + j
        invariant holds == old(holds) + T.Detected(image, old(nextId), boxes[..k])
      {
        OneMoreBox(old(holds), image, old(nextId), boxes, k);
        holds := holds[nextId := T.Hold(image, boxes[k])];
        ids := ids + [nextId];
        nextId := nextId + 1;
      }
      assert boxes[..|boxes|] == boxes;
    }

    /** One row after another; the first refused row fails the whole batch. */
    method InsertAll(image: T.ImageId, ids: seq<HoldId>, ghost first: HoldId, olds: seq<HoldId>, ms: seq<GreedyMatch.Match>) returns (ok: bool)
      requires forall m :: m in ms ==> m.oldIndex < |olds| && m.newIndex < |ids|
      requires forall k :: 0 <= k < |ids| ==> ids[k] == first + k
      modifies `matches
      ensures ok ==> T.InsertMatches(old(State()), image, first, olds, ms) == Some(State())
      ensures !ok ==> T.InsertMatches(old(State()), image, first, olds, ms).None?
    {
      for k := 0 to |ms|
        invariant T.InsertMatches(old(State()), image, first, olds, ms[..k]) == Some(State())
      {
        assert ms[..k + 1][..k] == ms[..k] && ms[k] in ms;
        ok := InsertMatch(image, olds[ms[k].oldIndex], ids[ms[k].newIndex]);
        if !ok {
          InsertMatchesStops(old(State()), image, first, olds, ms, k + 1);
          return false;
        }
      }
      assert ms[..|ms|] == ms;
      return true;
    }

    /** The worker's result transaction; on any refusal every table is back as it was. */
    method WriteResults(image: T.ImageId, boxes: seq<Box>, alignment: Matrix, olds: seq<HoldId>, ms: seq<GreedyMatch.Match>)
      returns (error: Option<T.WriteError>)
      requires forall m :: m in ms ==> m.oldIndex < |olds| && m.newIndex < |boxes|
      modifies `images, `holds, `matches, `jobs, `nextId
      ensures error.None? ==>
        && nextId == old(nextId) + |boxes|
        && T.WriteResults(old(State()), image, old(nextId), boxes, alignment, olds, ms) == Ok(State())
      ensures error.Some? ==>
        && State() == old(State()) && nextId == old(nextId)
        && T.WriteResults(old(State()), image, old(nextId), boxes, alignment, olds, ms) == Err(error.value)
    {
      if image !in images || image !in jobs || jobs[image] != T.Processing {
        return Some(T.NotOwned);
      }
      hide T.InsertMatches, T.Detected;
      var (imagesBefore, holdsBefore, matchesBefore, idBefore) := (images, holds, matches, nextId);
      var ids := InsertHolds(image, boxes);
      if images[image].kind == T.Partial {
        images := images[image := images[image].(alignment := Some(alignment))];
        var ok := InsertAll(image, ids, idBefore, olds, ms);
        if !ok {
          images, holds, matches, nextId := imagesBefore, holdsBefore, matchesBefore, idBefore;
          return Some(T.ConstraintViolated);
        }
      }
      jobs := jobs[image := T.Done];
      return None;
    }
  }

  lemma {:induction false} InsertMatchesStops(db: T.Db, image: T.ImageId, first: HoldId, olds: seq<HoldId>, ms: seq<GreedyMatch.Match>, k: nat)
    requires forall m :: m in ms ==> m.oldIndex < |olds|
    requires k <= |ms| && T.InsertMatches(db, image, first, olds, ms[..k]).None?
    ensures T.InsertMatches(db, image, first, olds, ms).None?
    decreases |ms|
  {
    if k == |ms| {
      assert ms[..k] == ms;
    } else {
      assert ms[..|ms| - 1][..k] == ms[..k];
      InsertMatchesStops(db, image, first, olds, ms[..|ms| - 1], k);
    }
  }

  lemma {:induction false} Cardinality(a: set<T.RouteId>, b: set<T.RouteId>)
    requires a <= b
    ensures |a| <= |b|
    decreases a
  {
    if a != {} {
      var x :| x in a;
      Cardinality(a - {x}, b - {x});
    }
  }
}
