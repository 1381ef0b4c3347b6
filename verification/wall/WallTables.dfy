/**
 The tables behind wall photos and their resets, and every transaction on them as a
 function from table contents to table contents (server/internal/wall/reset.go,
 server/internal/wall/handler.go, server/db/generated/walls.sql.go, worker/main.py).

 Schema facts used: ids are unique and never reused (an increasing counter stands for
 fresh UUIDs); a hold match has its new hold as primary key and a unique old hold, and
 goes with either hold or its image; holds, matches and jobs go with their image;
 a parent reference becomes NULL when the parent goes; an alignment starts NULL.
 */
module WallTables {
  import opened Wrappers
  import opened HoldRemap
  import opened Homography
  import opened HoldOutline
  import GreedyMatch

  type WallId = nat
  type ImageId = nat
  type RouteId = nat
  type Key = nat

  datatype Kind = Full | Partial

  datatype Review = PendingReview | Applied

  datatype JobStatus = Waiting | Processing | Done | Failed

  datatype Image = Image(wall: WallId, key: Key, active: bool, parent: Option<ImageId>, kind: Kind,
                         review: Option<Review>, alignment: Option<Matrix>)

  datatype Hold = Hold(image: ImageId, box: Box)

  datatype MatchRow = MatchRow(image: ImageId, newHold: HoldId)

  datatype Route = Route(wall: WallId, image: ImageId, holds: RouteHolds)

  /** Match rows are keyed by their old hold, jobs by their image. */
  datatype Db = Db(walls: set<WallId>, images: map<ImageId, Image>, holds: map<HoldId, Hold>,
                   matches: map<HoldId, MatchRow>, jobs: map<ImageId, JobStatus>,
                   routes: map<RouteId, Route>, queued: set<Key>)

  // ---------------------------------------------------------------- queries

  predicate IsPending(img: Image) {
    img.kind == Partial && img.review == Some(PendingReview)
  }

  predicate IsActive(db: Db, wall: WallId, image: ImageId) {
    image in db.images && db.images[image].wall == wall && db.images[image].active
  }

  function PendingImages(db: Db, wall: WallId): set<ImageId> {
    set i | i in db.images && db.images[i].wall == wall && IsPending(db.images[i])
  }

  /** The old-to-new map a reset image carries. */
  function MatchesOf(db: Db, image: ImageId): Matches {
    map oldHold | oldHold in db.matches && db.matches[oldHold].image == image :: db.matches[oldHold].newHold
  }

  function RoutesOn(db: Db, image: ImageId): set<RouteId> {
    set r | r in db.routes && db.routes[r].image == image
  }

  /** The parent of a pending reset, or nothing if `image` is not one on this wall. */
  function LockPendingReset(db: Db, wall: WallId, image: ImageId): Option<ImageId> {
    if image in db.images && db.images[image].wall == wall && IsPending(db.images[image]) && !db.images[image].active
    then db.images[image].parent
    else None
  }

  // ---------------------------------------------------------------- cascading deletes

  function WithoutHolds(db: Db, gone: set<HoldId>): Db {
    db.(holds := map h | h in db.holds && h !in gone :: db.holds[h],
        matches := map oldHold | oldHold in db.matches && oldHold !in gone && db.matches[oldHold].newHold !in gone :: db.matches[oldHold])
  }

  function Orphaned(img: Image, gone: set<ImageId>): Image {
    if img.parent.Some? && img.parent.value in gone then img.(parent := None) else img
  }

  function WithoutImages(db: Db, gone: set<ImageId>): Db {
    var rest := WithoutHolds(db, set h | h in db.holds && db.holds[h].image in gone);
    rest.(images := map i | i in db.images && i !in gone :: Orphaned(db.images[i], gone),
          matches := map oldHold | oldHold in rest.matches && rest.matches[oldHold].image !in gone :: rest.matches[oldHold],
          jobs := map i | i in db.jobs && i !in gone :: db.jobs[i])
  }

  // ---------------------------------------------------------------- uploads and deletion

  datatype UploadError = UploadWallNotFound | ActiveImageChanged

  function Deactivated(images: map<ImageId, Image>, wall: WallId): map<ImageId, Image> {
    map i | i in images :: if images[i].wall == wall then images[i].(active := false) else images[i]
  }

  function WithPending(db: Db, wall: WallId, parent: ImageId, key: Key, image: ImageId): Db {
    db.(images := db.images[image := Image(wall, key, false, Some(parent), Partial, Some(PendingReview), None)],
        jobs := db.jobs[image := Waiting])
  }

  function WithFull(db: Db, wall: WallId, key: Key, image: ImageId): Db {
    db.(images := Deactivated(db.images, wall)[image := Image(wall, key, true, None, Full, None, None)],
        jobs := db.jobs[image := Waiting])
  }

  /** `snapshot` is the active image read before the photo was stored; only a partial upload checks it. */
  function CommitUpload(db: Db, wall: WallId, kind: Kind, snapshot: ImageId, key: Key, image: ImageId): Result<Db, UploadError> {
    if wall !in db.walls then Err(UploadWallNotFound)
    else if kind == Partial && !IsActive(db, wall, snapshot) then Err(ActiveImageChanged)
    else
      var cleared := WithoutImages(db, PendingImages(db, wall));
      Ok(if kind == Partial then WithPending(cleared, wall, snapshot, key, image) else WithFull(cleared, wall, key, image))
  }

  function DiscardReset(db: Db, wall: WallId, image: ImageId): Option<Db> {
    if image in PendingImages(db, wall) then Some(WithoutImages(db, {image})) else None
  }

  function ImagesOf(db: Db, wall: WallId): set<ImageId> {
    set i | i in db.images && db.images[i].wall == wall
  }

  function DeleteWall(db: Db, wall: WallId): Option<Db> {
    if wall !in db.walls then None
    else
      var keys := set i | i in db.images && db.images[i].wall == wall :: db.images[i].key;
      var rest := WithoutImages(db, ImagesOf(db, wall));
      Some(rest.(walls := db.walls - {wall}, queued := db.queued + keys,
                 routes := map r | r in db.routes && db.routes[r].wall != wall :: db.routes[r]))
  }

  // ---------------------------------------------------------------- match rows

  /** The insert fails on a missing row, a second use of the old hold or a second use of the new hold. */
  function InsertMatch(db: Db, image: ImageId, oldHold: HoldId, newHold: HoldId): Option<Db> {
    if oldHold in db.holds && newHold in db.holds && image in db.images && oldHold !in db.matches
       && forall o :: o in db.matches ==> db.matches[o].newHold != newHold
    then Some(db.(matches := db.matches[oldHold := MatchRow(image, newHold)]))
    else None
  }

  function WithoutMatches(db: Db, image: ImageId, oldHold: HoldId, newHold: HoldId): Db {
    db.(matches := map o | o in db.matches && !(db.matches[o].image == image && (o == oldHold || db.matches[o].newHold == newHold))
                     :: db.matches[o])
  }

  datatype MatchError = ResetNotFound | OldHoldNotOnParent | NewHoldNotOnReset | MatchConflict

  function UpsertMatch(db: Db, image: ImageId, oldHold: HoldId, newHold: HoldId): Result<Db, MatchError> {
    if newHold !in db.holds || db.holds[newHold].image != image then Err(NewHoldNotOnReset)
    else match InsertMatch(WithoutMatches(db, image, oldHold, newHold), image, oldHold, newHold)
      case None => Err(MatchConflict)
      case Some(next) => Ok(next)
  }

  function Unmatched(db: Db, image: ImageId, oldHold: HoldId): Db {
    db.(matches := map o | o in db.matches && !(db.matches[o].image == image && o == oldHold) :: db.matches[o])
  }

  function UpdateResetMatch(db: Db, wall: WallId, image: ImageId, oldHold: HoldId, newHold: Option<HoldId>): Result<Db, MatchError> {
    match LockPendingReset(db, wall, image)
    case None => Err(ResetNotFound)
    case Some(parent) =>
      if oldHold !in db.holds || db.holds[oldHold].image != parent then Err(OldHoldNotOnParent)
      else match newHold
        case None => Ok(Unmatched(db, image, oldHold))
        case Some(n) => UpsertMatch(db, image, oldHold, n)
  }

  datatype HoldError = NoSuchReset | NoSuchHold | AlignmentUnavailable | NotProjectable | RestoreConflict

  function DeleteResetHold(db: Db, wall: WallId, image: ImageId, hold: HoldId): Result<Db, HoldError> {
    if LockPendingReset(db, wall, image).None? then Err(NoSuchReset)
    else if hold !in db.holds || db.holds[hold].image != image then Err(NoSuchHold)
    else Ok(WithoutHolds(db, {hold}))
  }

  function Inserted(db: Db, image: ImageId, newHold: HoldId, box: Box): Db {
    db.(holds := db.holds[newHold := Hold(image, box)])
  }

  /** `projected` is the old hold's box carried through the inverse alignment, `newHold` the id of the inserted row. */
  function RestoreHold(db: Db, image: ImageId, oldHold: HoldId, newHold: HoldId, projected: Box): Result<Db, HoldError> {
    match InsertMatch(WithoutMatches(Inserted(db, image, newHold, projected), image, oldHold, newHold), image, oldHold, newHold)
    case None => Err(RestoreConflict)
    case Some(next) => Ok(next)
  }

  /** What lets an old hold be restored: it sits on the parent and its box projects through the inverse alignment. */
  function RestoreRefusal(db: Db, wall: WallId, image: ImageId, oldHold: HoldId): Option<HoldError> {
    match LockPendingReset(db, wall, image)
    case None => Some(NoSuchReset)
    case Some(parent) =>
      if oldHold !in db.holds || db.holds[oldHold].image != parent then Some(NoSuchHold)
      else if db.images[image].alignment.None? then Some(AlignmentUnavailable)
      else match InverseHomography(db.images[image].alignment.value)
        case None => Some(AlignmentUnavailable)
        case Some(inverse) =>
          if forall p :: p in Corners(db.holds[oldHold].box) ==> ProjectPoint(p, inverse).Some? then None else Some(NotProjectable)
  }

  // ---------------------------------------------------------------- applying a reset

  datatype ApplyError = ApplyWallNotFound | Stale | ParentInactive | DetectionIncomplete | InvalidRouteRoles

  /** A route of the parent moves to the new image when all its holds have a match. */
  function MovedRoute(route: Route, parent: ImageId, image: ImageId, matches: Matches): Route {
    if route.image != parent then route
    else match Rewritten(route.holds, matches)
      case Complete(holds) => route.(image := image, holds := holds)
      case _ => route
  }

  function MovedRoutes(routes: map<RouteId, Route>, parent: ImageId, image: ImageId, matches: Matches): map<RouteId, Route> {
    map r | r in routes :: MovedRoute(routes[r], parent, image, matches)
  }

  function KeptRoutes(db: Db, parent: ImageId, matches: Matches): set<RouteId> {
    set r | r in db.routes && db.routes[r].image == parent && Rewritten(db.routes[r].holds, matches).Complete?
  }

  function Activated(images: map<ImageId, Image>, wall: WallId, image: ImageId): map<ImageId, Image>
    requires image in images
  {
    var off := Deactivated(images, wall);
    off[image := off[image].(active := true, review := Some(Applied))]
  }

  function ApplyRefusal(db: Db, wall: WallId, image: ImageId): Option<ApplyError> {
    if wall !in db.walls then Some(ApplyWallNotFound)
    else match LockPendingReset(db, wall, image)
      case None => Some(Stale)
      case Some(parent) =>
        if !IsActive(db, wall, parent) then Some(ParentInactive)
        else if image !in db.jobs || db.jobs[image] != Done then Some(DetectionIncomplete)
        else if exists r :: r in db.routes && db.routes[r].image == parent && Rewritten(db.routes[r].holds, MatchesOf(db, image)).BadRoles?
        then Some(InvalidRouteRoles)
        else None
  }

  function AppliedReset(db: Db, wall: WallId, parent: ImageId, image: ImageId): Db
    requires image in db.images
  {
    db.(routes := MovedRoutes(db.routes, parent, image, MatchesOf(db, image)), images := Activated(db.images, wall, image))
  }

  function ApplyReset(db: Db, wall: WallId, image: ImageId): Result<Db, ApplyError> {
    match ApplyRefusal(db, wall, image)
    case Some(e) => Err(e)
    case None => Ok(AppliedReset(db, wall, db.images[image].parent.value, image))
  }

  // ---------------------------------------------------------------- detection results

  datatype WriteError = NotOwned | ConstraintViolated

  function DetectedHold(image: ImageId, first: HoldId, boxes: seq<Box>, h: HoldId): Hold
    requires first <= h < first + |boxes|
  {
    Hold(image, boxes[h - first])
  }

  /** New holds get the consecutive ids from `first`. */
  function Detected(image: ImageId, first: HoldId, boxes: seq<Box>): map<HoldId, Hold> {
    map h | first <= h < first + |boxes| :: DetectedHold(image, first, boxes, h)
  }

  function InsertMatches(db: Db, image: ImageId, first: HoldId, olds: seq<HoldId>, ms: seq<GreedyMatch.Match>): Option<Db>
    requires forall m :: m in ms ==> m.oldIndex < |olds|
  {
    if ms == [] then Some(db)
    else
      var last := ms[|ms| - 1];
      assert last in ms;
      match InsertMatches(db, image, first, olds, ms[..|ms| - 1])
      case None => None
      case Some(before) => InsertMatch(before, image, olds[last.oldIndex], first + last.newIndex)
  }

  function Found(db: Db, image: ImageId, first: HoldId, boxes: seq<Box>): Db {
    db.(holds := db.holds + Detected(image, first, boxes))
  }

  function Aligned(images: map<ImageId, Image>, image: ImageId, alignment: Matrix): map<ImageId, Image>
    requires image in images
  {
    images[image := images[image].(alignment := Some(alignment))]
  }

  /** The whole result transaction: holds, then for a partial reset the alignment and the matches, then the job. */
  function WriteResults(db: Db, image: ImageId, first: HoldId, boxes: seq<Box>, alignment: Matrix, olds: seq<HoldId>,
                        ms: seq<GreedyMatch.Match>): Result<Db, WriteError>
    requires forall m :: m in ms ==> m.oldIndex < |olds|
  {
    if image !in db.images || image !in db.jobs || db.jobs[image] != Processing then Err(NotOwned)
    else
      var found := Found(db, image, first, boxes);
      if db.images[image].kind == Full then Ok(found.(jobs := db.jobs[image := Done]))
      else match InsertMatches(found.(images := Aligned(db.images, image, alignment)), image, first, olds, ms)
        case None => Err(ConstraintViolated)
        case Some(matched) => Ok(matched.(jobs := db.jobs[image := Done]))
  }
}
