/**
 What requests do to routes over whole runs (server/internal/route/handler.go,
 server/internal/wall/handler.go, server/internal/wall/reset.go): a saved route shows what was
 saved, and nothing but its own deletion or that of its wall takes it away.
 */
module RouteKeeping {
  import opened Wrappers
  import opened HoldRemap
  import opened Homography
  import opened HoldOutline
  import opened WallTables
  import opened WallInvariant
  import opened WallRuns
  import opened WallSafety
  import opened LazyDisplay
  import GreedyMatch
  import IC = ImageChain

  ghost predicate KeepsRoutes(s: System, t: System) {
    t.db.routes.Keys == s.db.routes.Keys && t.saved == s.saved
  }

  lemma WriteKeepsRoutes(db: Db, image: ImageId, first: HoldId, boxes: seq<Box>, alignment: Matrix, olds: seq<HoldId>, ms: seq<GreedyMatch.Match>)
    requires forall m :: m in ms ==> m.oldIndex < |olds|
    requires WriteResults(db, image, first, boxes, alignment, olds, ms).Ok?
    ensures WriteResults(db, image, first, boxes, alignment, olds, ms).value.routes == db.routes
  {
    InsertMatchesOnlyAddsRows(Found(db, image, first, boxes).(images := Aligned(db.images, image, alignment)), image, first, olds, ms);
    hide InsertMatches;
  }

  lemma ReviewKeepsRoutes(s: System, e: ReviewEvent)
    ensures KeepsRoutes(s, ReviewStep(s, e))
  {
    hide WriteResults, RestoreRefusal, MayWrite, IsLoad, ApplyRefusal, MovedRoute, MatchesOf;
    match e {
      case Write(load, boxes, alignment, ms) =>
        if MayWrite(s, load, boxes, ms) && WriteStep(s, load, boxes, alignment, ms) != s {
          IndicesFit(s, load, boxes, ms);
          WriteKeepsRoutes(s.db, load.image, s.next, boxes, alignment, load.olds, ms);
        }
      case _ =>
    }
  }

  /** The deletion of the route itself, or of the wall it is on. */
  ghost predicate TakesRoute(s: System, e: Event, r: RouteId)
    requires r in s.db.routes
  {
    e == OnRoutes(DeleteRoute(r)) || e == OnPhotos(RemoveWall(s.db.routes[r].wall))
  }

  /** Saved anew, as it stands. */
  ghost predicate Saves(e: Event, r: RouteId) {
    e.OnRoutes? && e.change.SaveRoute? && e.change.route == r
  }

  lemma PhotoStepKeepsRoute(s: System, p: PhotoEvent, r: RouteId)
    requires r in s.db.routes && !TakesRoute(s, OnPhotos(p), r)
    ensures var t := PhotoStep(s, p); r in t.db.routes && t.saved == s.saved
  {
    hide PendingImages, WithoutHolds, Orphaned, Deactivated;
    CascadesSpareRoutes(s.db);
    hide WithoutImages;
  }

  lemma CascadesSpareRoutes(db: Db)
    ensures forall gone: set<ImageId> :: WithoutImages(db, gone).routes == db.routes
  {
  }

  /** In any run a route stays until it or its wall is deleted, and with it what was saved until it is saved anew. */
  lemma RoutesLeaveOnlyOnRequest(events: seq<Event>, e: Event, r: RouteId)
    requires r in After(events).db.routes && !TakesRoute(After(events), e, r)
    ensures
      var (s, t) := (After(events), Step(After(events), e));
      r in t.db.routes && (r in s.saved && !Saves(e, r) && r < s.next ==> r in t.saved && t.saved[r] == s.saved[r])
  {
    var s := After(events);
    hide After, PhotoStep, ReviewStep, RouteStep;
    match e {
      case OnPhotos(p) => PhotoStepKeepsRoute(s, p, r);
      case OnReset(v) => ReviewKeepsRoutes(s, v);
      case OnRoutes(c) => RouteStepKeepsRoute(s, c, r);
    }
  }

  lemma RouteStepKeepsRoute(s: System, c: RouteEvent, r: RouteId)
    requires r in s.db.routes && c != DeleteRoute(r)
    ensures var t := RouteStep(s, c);
      r in t.db.routes && (r in s.saved && !Saves(OnRoutes(c), r) && r < s.next ==> r in t.saved && t.saved[r] == s.saved[r])
  {
    hide MaySave, ActiveHeirs;
  }

  /** A route saved on the photo that is active shows exactly the holds and roles that were saved. */
  lemma SavedRoutesShowThemselves(events: seq<Event>, read: Read, holds: RouteHolds, r: RouteId)
    requires MaySave(After(events), read, holds)
    requires r == After(events).next || (r in After(events).db.routes && After(events).db.routes[r].wall == read.wall)
    ensures
      var s := After(events);
      var t := Step(s, OnRoutes(if r == s.next then SaveNewRoute(read, holds) else SaveRoute(read, r, holds)));
      && r in t.db.routes && t.db.routes[r] == Route(read.wall, read.image, holds) && r in t.saved && t.saved[r] == Saved(holds, read.at)
      && IC.Shown(TablesOf(t.db), read.image, t.db.routes[r].image, t.db.routes[r].holds) == Ok(holds)
  {
    var s := After(events);
    var t := Step(s, OnRoutes(if r == s.next then SaveNewRoute(read, holds) else SaveRoute(read, r, holds)));
    hide After, MaySave, TablesOf, IC.Shown;
    ShownInPlace(TablesOf(t.db), read.image, holds);
  }
}
