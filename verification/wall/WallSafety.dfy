/** The wall invariant in every reachable state of every interleaving. */
module WallSafety {
  import opened Wrappers
  import opened HoldRemap
  import opened Homography
  import opened HoldOutline
  import opened WallTables
  import opened WallInvariant
  import opened WallRuns
  import GreedyMatch
  import HoldRoles

  /** Ids in use are below the counter, so a new id is unused and was never used. */
  ghost predicate IdsBelow(db: Db, next: nat) {
    && (forall w :: w in db.walls ==> w < next)
    && (forall i :: i in db.images ==> i < next)
    && (forall h :: h in db.holds ==> h < next)
    && (forall r :: r in db.routes ==> r < next)
  }

  /** A transaction adds only new ids, and never changes an image's place or a hold's image. */
  ghost predicate Evolves(db: Db, after: Db, next: nat) {
    && (forall i :: i in after.images && i < next ==>
         && i in db.images && after.images[i].wall == db.images[i].wall && after.images[i].parent == db.images[i].parent
         && after.images[i].key == db.images[i].key && (IsPending(after.images[i]) ==> IsPending(db.images[i])))
    && (forall h :: h in after.holds && h < next ==> h in db.holds && after.holds[h].image == db.holds[h].image)
  }

  /** Snapshots stay meaningful: a read image is never pending, loaded holds stay holds of the parent. */
  ghost predicate SnapshotsFit(s: System) {
    && (forall r :: r in s.seen ==> r.image < s.next && r.at <= |s.log|)
    && (forall r :: r in s.seen && r.image in s.db.images ==>
         s.db.images[r.image].wall == r.wall && !IsPending(s.db.images[r.image]))
    && (forall l :: l in s.loads ==> l.image < s.next && HoldRoles.NoRepeats(l.olds))
    && (forall l, o :: l in s.loads && o in l.olds ==> o < s.next)
    && (forall l, o :: l in s.loads && o in l.olds && o in s.db.holds && l.image in s.db.images ==>
         ParentIs(s.db.images, l.image, s.db.holds[o].image))
  }

  ghost predicate Doomed(s: System, key: Key) {
    key in s.db.queued || key in s.condemned
  }

  ghost predicate ImageHas(db: Db, i: ImageId, key: Key) {
    i in db.images && db.images[i].key == key
  }

  ghost predicate UploadHas(s: System, u: Upload, key: Key) {
    u in s.uploads && u.key == key
  }

  /** A key some photo row or some unfinished upload relies on. */
  ghost predicate Needed(s: System, key: Key) {
    (exists i :: ImageHas(s.db, i, key)) || (exists u :: UploadHas(s, u, key))
  }

  ghost predicate KeysDistinct(s: System) {
    && (forall i, j, k :: ImageHas(s.db, i, k) && ImageHas(s.db, j, k) ==> i == j)
    && (forall u, i, k :: UploadHas(s, u, k) ==> !ImageHas(s.db, i, k))
    && (forall u, v, k :: UploadHas(s, u, k) && UploadHas(s, v, k) ==> u == v)
  }

  /** Every needed object is stored, and nobody is about to delete it. */
  ghost predicate ObjectsKept(s: System) {
    && (forall k :: Needed(s, k) ==> k in s.objects && !Doomed(s, k))
    && (forall k: Key :: k in s.objects || Doomed(s, k) ==> k < s.next)
  }

  ghost predicate Safe(s: System) {
    Sound(s.db) && IdsBelow(s.db, s.next) && SnapshotsFit(s) && KeysDistinct(s) && ObjectsKept(s)
  }

  // ---------------------------------------------------------------- how each transaction evolves the tables

  lemma WithoutImagesEvolves(db: Db, gone: set<ImageId>, next: nat)
    requires Unparented(db.images, gone)
    ensures Evolves(db, WithoutImages(db, gone), next)
    ensures IdsBelow(db, next) ==> IdsBelow(WithoutImages(db, gone), next)
    ensures WithoutImages(db, gone).images.Keys <= db.images.Keys
  {
    NothingIsOrphaned(db, gone);
  }

  lemma EvolvesTwice(db: Db, middle: Db, after: Db, next: nat)
    requires Evolves(db, middle, next) && Evolves(middle, after, next)
    ensures Evolves(db, after, next)
  {
  }

  lemma NewImageEvolves(db: Db, wall: WallId, parent: ImageId, key: Key, next: nat)
    requires IdsBelow(db, next)
    ensures Evolves(db, WithPending(db, wall, parent, key, next), next)
    ensures IdsBelow(WithPending(db, wall, parent, key, next), next + 1)
    ensures Evolves(db, WithFull(db, wall, key, next), next)
    ensures IdsBelow(WithFull(db, wall, key, next), next + 1)
  {
  }

  lemma UploadEvolves(db: Db, wall: WallId, kind: Kind, snapshot: ImageId, key: Key, next: nat)
    requires Sound(db) && IdsBelow(db, next) && CommitUpload(db, wall, kind, snapshot, key, next).Ok?
    ensures Evolves(db, CommitUpload(db, wall, kind, snapshot, key, next).value, next)
    ensures IdsBelow(CommitUpload(db, wall, kind, snapshot, key, next).value, next + 1)
  {
    hide WithoutImages, PartialInjection, DraftsAreEmpty, RoutesPlaced, Shaped, ResetsFollow, AtMostOneActive, EveryWallShows;
    hide Evolves, IdsBelow, WithPending, WithFull;
    var pending := PendingImages(db, wall);
    PendingHasNoReset(db.images, pending);
    WithoutImagesEvolves(db, pending, next);
    var cleared := WithoutImages(db, pending);
    NewImageEvolves(cleared, wall, snapshot, key, next);
    EvolvesTwice(db, cleared, CommitUpload(db, wall, kind, snapshot, key, next).value, next);
  }

  lemma DeleteWallEvolves(db: Db, wall: WallId, next: nat)
    requires Sound(db) && IdsBelow(db, next) && DeleteWall(db, wall).Some?
    ensures Evolves(db, DeleteWall(db, wall).value, next)
    ensures IdsBelow(DeleteWall(db, wall).value, next)
  {
    hide WithoutImages, Sound, Lifecycle, Unparented;
    assert Lifecycle(db.images, db.walls) by { SoundHasLifecycle(db); }
    WithoutWallKeepsLifecycle(db.images, db.walls, wall, ImagesOf(db, wall));
    WithoutImagesEvolves(db, ImagesOf(db, wall), next);
  }

  lemma SoundHasLifecycle(db: Db)
    requires Sound(db)
    ensures Lifecycle(db.images, db.walls) && Shaped(db.images) && ResetsFollow(db.images)
    ensures PartialInjection(db.images, db.holds, db.matches)
    ensures db.jobs.Keys == db.images.Keys
  {
  }

  lemma ApplyEvolves(db: Db, wall: WallId, image: ImageId, next: nat)
    requires IdsBelow(db, next) && ApplyReset(db, wall, image).Ok?
    ensures Evolves(db, ApplyReset(db, wall, image).value, next)
    ensures IdsBelow(ApplyReset(db, wall, image).value, next)
    ensures AddsNoPhoto(db, ApplyReset(db, wall, image).value)
  {
    hide MovedRoute;
  }

  lemma FoundEvolves(db: Db, image: ImageId, next: nat, boxes: seq<Box>, alignment: Matrix, rows: map<HoldId, MatchRow>, jobs: map<ImageId, JobStatus>)
    requires IdsBelow(db, next) && image in db.images
    ensures
      var found := Found(db, image, next, boxes).(jobs := jobs);
      && Evolves(db, found, next) && IdsBelow(found, next + |boxes|)
      && Evolves(db, found.(images := Aligned(db.images, image, alignment), matches := rows), next)
      && IdsBelow(found.(images := Aligned(db.images, image, alignment), matches := rows), next + |boxes|)
  {
  }

  lemma WriteEvolves(db: Db, image: ImageId, next: nat, boxes: seq<Box>, alignment: Matrix, olds: seq<HoldId>, ms: seq<GreedyMatch.Match>)
    requires forall m :: m in ms ==> m.oldIndex < |olds|
    requires IdsBelow(db, next) && WriteResults(db, image, next, boxes, alignment, olds, ms).Ok?
    ensures Evolves(db, WriteResults(db, image, next, boxes, alignment, olds, ms).value, next)
    ensures IdsBelow(WriteResults(db, image, next, boxes, alignment, olds, ms).value, next + |boxes|)
  {
    hide InsertMatches, Evolves, IdsBelow;
    var ready := Found(db, image, next, boxes).(images := Aligned(db.images, image, alignment));
    InsertMatchesOnlyAddsRows(ready, image, next, olds, ms);
    var after := WriteResults(db, image, next, boxes, alignment, olds, ms).value;
    FoundEvolves(db, image, next, boxes, alignment, after.matches, after.jobs);
  }

  // ---------------------------------------------------------------- what evolution keeps

  lemma EvolutionKeepsSnapshots(s: System, t: System)
    requires SnapshotsFit(s) && Evolves(s.db, t.db, s.next) && s.next <= t.next
    requires t.seen == s.seen && t.loads == s.loads && |s.log| <= |t.log|
    ensures SnapshotsFit(t)
  {
    forall l, o | l in t.loads && o in l.olds && o in t.db.holds && l.image in t.db.images
      ensures ParentIs(t.db.images, l.image, t.db.holds[o].image)
    {
      assert ParentIs(s.db.images, l.image, s.db.holds[o].image);
    }
  }

  /** Keys may become doomed only as they stop being needed. */
  lemma NeedOnlyShrinks(s: System, t: System)
    requires ObjectsKept(s) && s.next <= t.next && t.objects == s.objects
    requires forall k :: Needed(t, k) ==> Needed(s, k)
    requires forall k :: Doomed(t, k) ==> Doomed(s, k) || (Needed(s, k) && !Needed(t, k))
    ensures ObjectsKept(t)
  {
  }

  lemma ImagesLeave(s: System, t: System)
    requires KeysDistinct(s)
    requires t.uploads <= s.uploads
    requires forall i, k :: ImageHas(t.db, i, k) ==> ImageHas(s.db, i, k)
    ensures KeysDistinct(t)
    ensures forall k :: Needed(t, k) ==> Needed(s, k)
  {
    assert forall u, k :: UploadHas(t, u, k) ==> UploadHas(s, u, k);
  }

  // ---------------------------------------------------------------- every step keeps the tables sound

  lemma ReadImageMayHaveHolds(s: System, read: Read)
    requires Sound(s.db) && SnapshotsFit(s) && read in s.seen && read.image in s.db.images
    ensures read.image in s.db.jobs
    ensures s.db.images[read.image].kind == Partial ==> s.db.jobs[read.image] == Done
  {
    hide PartialInjection, RoutesPlaced, Lifecycle;
  }

  lemma WriteIsReady(s: System, load: Load, boxes: seq<Box>, ms: seq<GreedyMatch.Match>)
    requires SnapshotsFit(s) && IdsBelow(s.db, s.next) && MayWrite(s, load, boxes, ms)
    ensures load.image in s.db.images ==> Writable(s.db, load.image, s.next, |boxes|, load.olds, ms)
  {
    hide ParentIs;
  }

  /** What matching hands to the result writer is well indexed, whatever the candidates. */
  lemma MatcherOutputIsWellIndexed(determinant: real, candidates: seq<GreedyMatch.Candidate>, corrected: GreedyMatch.Corrector, boxes: nat, olds: nat)
    requires GreedyMatch.CandidatesInRange(candidates, boxes, olds)
    requires forall ms, news, used :: GreedyMatch.CandidatesInRange(corrected(ms, news, used), boxes, olds)
    ensures WellIndexed(GreedyMatch.AllMatches(determinant, candidates, corrected), boxes, olds)
  {
    GreedyMatch.AllMatchesAreOneToOne(determinant, candidates, corrected);
    GreedyMatch.AllMatchesInRange(determinant, candidates, corrected, boxes, olds);
    hide GreedyMatch.AllMatches;
  }

  lemma WriteOutsideIsRefused(db: Db, image: ImageId, first: HoldId, boxes: seq<Box>, alignment: Matrix, olds: seq<HoldId>, ms: seq<GreedyMatch.Match>)
    requires forall m :: m in ms ==> m.oldIndex < |olds|
    requires image !in db.images
    ensures WriteResults(db, image, first, boxes, alignment, olds, ms).Err?
  {
  }

  lemma RoutesMayChange(db: Db, routes: map<RouteId, Route>)
    requires Sound(db) && RoutesPlaced(db.images, routes)
    ensures Sound(db.(routes := routes))
  {
    hide Lifecycle, PartialInjection, DraftsAreEmpty, RoutesPlaced;
  }

  lemma PlacedRouteFits(s: System, id: RouteId, read: Read, holds: RouteHolds)
    requires Sound(s.db) && SnapshotsFit(s) && MaySave(s, read, holds)
    ensures Sound(PlaceRoute(s, id, read, holds).db)
  {
    assert RoutesPlaced(s.db.images, s.db.routes[id := Route(read.wall, read.image, holds)]) by {
      hide HoldRoles.ValidRoles, Lifecycle, PartialInjection, DraftsAreEmpty;
    }
    RoutesMayChange(s.db, s.db.routes[id := Route(read.wall, read.image, holds)]);
  }

  lemma JobsMayMove(db: Db, image: ImageId, status: JobStatus)
    requires Sound(db) && image in db.jobs && db.jobs[image] != Done && status != Done
    ensures Sound(db.(jobs := db.jobs[image := status]))
  {
    hide Lifecycle, PartialInjection, RoutesPlaced;
  }

  lemma WallsMayAppear(db: Db, wall: WallId)
    requires Sound(db)
    ensures Sound(db.(walls := db.walls + {wall}))
  {
    hide AtMostOneActive, EveryWallShows, Shaped, ResetsFollow, PartialInjection, RoutesPlaced, DraftsAreEmpty;
  }

  lemma QueueMayChange(db: Db, queued: set<Key>)
    requires Sound(db)
    ensures Sound(db.(queued := queued))
  {
    hide Lifecycle, PartialInjection, DraftsAreEmpty, RoutesPlaced;
  }

  lemma FewerRoutesArePlaced(images: map<ImageId, Image>, routes: map<RouteId, Route>, route: RouteId)
    requires RoutesPlaced(images, routes)
    ensures RoutesPlaced(images, WithoutRoute(routes, route))
  {
    hide HoldRoles.ValidRoles;
  }

  ghost predicate Fit(s: System) {
    Sound(s.db) && IdsBelow(s.db, s.next) && SnapshotsFit(s)
  }

  lemma PhotoStepIsSound(s: System, e: PhotoEvent)
    requires Fit(s)
    ensures Sound(PhotoStep(s, e).db)
  {
    hide Sound, SnapshotsFit, CommitUpload, DiscardReset, DeleteWall;
    match e {
      case CreateWall => WallsMayAppear(s.db, s.next);
      case FinishUpload(u) =>
        if u in s.uploads && CommitUpload(s.db, u.wall, u.kind, u.snapshot, u.key, s.next).Ok? {
          UploadIsSound(s.db, u.wall, u.kind, u.snapshot, u.key, s.next);
        }
      case Discard(wall, image) =>
        if DiscardReset(s.db, wall, image).Some? { DiscardIsSound(s.db, wall, image); }
      case RemoveWall(wall) =>
        if DeleteWall(s.db, wall).Some? { DeleteWallIsSound(s.db, wall); }
      case DeleteQueuedObject(key, dequeued) => QueueMayChange(s.db, s.db.queued - {key});
      case _ =>
    }
  }

  lemma ReviewStepIsSound(s: System, e: ReviewEvent)
    requires Fit(s)
    ensures Sound(ReviewStep(s, e).db)
  {
    hide Sound, SnapshotsFit, IdsBelow, WriteResults, UpdateResetMatch, DeleteResetHold, RestoreHold, RestoreRefusal, ApplyReset, WithoutHolds, Writable;
    match e {
      case MoveJob(image, status) =>
        if image in s.db.jobs && s.db.jobs[image] in {Waiting, Processing} && status != Done { JobsMayMove(s.db, image, status); }
      case Write(load, boxes, alignment, ms) =>
        if MayWrite(s, load, boxes, ms) {
          if load.image in s.db.images {
            WriteIsReady(s, load, boxes, ms);
            WriteIsSound(s.db, load.image, s.next, boxes, alignment, load.olds, ms);
          } else {
            WriteOutsideIsRefused(s.db, load.image, s.next, boxes, alignment, load.olds, ms);
          }
        }
      case Rematch(wall, image, oldHold, newHold) => RematchIsSound(s.db, wall, image, oldHold, newHold);
      case RemoveResetHold(wall, image, hold) =>
        DeleteResetHoldIsDelete(s.db, wall, image, hold);
        WithoutHoldsIsSound(s.db, {hold});
      case Restore(wall, image, oldHold, projected) =>
        NextIsUnused(s.db, s.next);
        if RestoreRefusal(s.db, wall, image, oldHold).None? { RestoreIsSound(s.db, wall, image, oldHold, s.next, projected); }
      case Apply(wall, image) =>
        if ApplyReset(s.db, wall, image).Ok? { ApplyIsSound(s.db, wall, image); }
      case _ =>
    }
  }

  lemma RouteStepIsSound(s: System, e: RouteEvent)
    requires Fit(s)
    ensures Sound(RouteStep(s, e).db)
  {
    hide Sound, SnapshotsFit, IdsBelow, WithoutHolds, WithoutRoute, PlaceRoute, MaySave;
    match e {
      case AddHold(read, box) =>
        if read in s.seen && read.image in s.db.images {
          NextIsUnused(s.db, s.next);
          ReadImageMayHaveHolds(s, read);
          InsertHoldIsSound(s.db, s.next, Hold(read.image, box));
        }
      case DeleteHold(read, hold) => WithoutHoldsIsSound(s.db, {hold});
      case SaveNewRoute(read, holds) =>
        if MaySave(s, read, holds) { PlacedRouteFits(s, s.next, read, holds); }
      case SaveRoute(read, route, holds) =>
        if MaySave(s, read, holds) { PlacedRouteFits(s, route, read, holds); }
      case DeleteRoute(route) => DroppedRouteFits(s.db, route);
    }
  }

  lemma DroppedRouteFits(db: Db, route: RouteId)
    requires Sound(db)
    ensures Sound(db.(routes := WithoutRoute(db.routes, route)))
  {
    hide Lifecycle, PartialInjection, DraftsAreEmpty;
    FewerRoutesArePlaced(db.images, db.routes, route);
    RoutesMayChange(db, WithoutRoute(db.routes, route));
  }

  lemma NextIsUnused(db: Db, next: nat)
    requires IdsBelow(db, next)
    ensures next !in db.walls && next !in db.routes && next !in db.holds && next !in db.images
  {
  }

  lemma DeleteResetHoldIsDelete(db: Db, wall: WallId, image: ImageId, hold: HoldId)
    ensures DeleteResetHold(db, wall, image, hold).Ok? ==>
      DeleteResetHold(db, wall, image, hold).value == WithoutHolds(db, {hold})
  {
  }

  // ---------------------------------------------------------------- every step only evolves the tables

  ghost predicate Moves(s: System, t: System) {
    Evolves(s.db, t.db, s.next) && IdsBelow(t.db, t.next) && s.next <= t.next && s.log <= t.log
  }

  /** Photos and holds alone: rows elsewhere may change, and one wall or route may be new. */
  lemma SidewaysEvolves(db: Db, after: Db, next: nat)
    requires IdsBelow(db, next) && after.images == db.images && after.holds == db.holds
    requires after.walls <= db.walls + {next} && after.routes.Keys <= db.routes.Keys + {next}
    ensures Evolves(db, after, next) && IdsBelow(after, next + 1)
    ensures next !in after.walls && next !in after.routes ==> IdsBelow(after, next)
  {
  }

  lemma NewHoldEvolves(db: Db, hold: Hold, rows: map<HoldId, MatchRow>, next: nat)
    requires IdsBelow(db, next)
    ensures Evolves(db, db.(holds := db.holds[next := hold], matches := rows), next)
    ensures IdsBelow(db.(holds := db.holds[next := hold], matches := rows), next + 1)
  {
  }

  ghost predicate AddsNoPhoto(db: Db, after: Db) {
    after.images.Keys <= db.images.Keys && after.queued == db.queued
  }

  lemma WithoutHoldsEvolves(db: Db, gone: set<HoldId>, next: nat)
    requires IdsBelow(db, next)
    ensures Evolves(db, WithoutHolds(db, gone), next) && IdsBelow(WithoutHolds(db, gone), next)
    ensures AddsNoPhoto(db, WithoutHolds(db, gone))
  {
  }

  lemma DiscardEvolves(db: Db, wall: WallId, image: ImageId, next: nat)
    requires Sound(db) && IdsBelow(db, next) && DiscardReset(db, wall, image).Some?
    ensures Evolves(db, DiscardReset(db, wall, image).value, next)
    ensures IdsBelow(DiscardReset(db, wall, image).value, next)
  {
    SoundHasLifecycle(db);
    hide Sound, WithoutImages, Evolves, IdsBelow, Shaped, ResetsFollow;
    PendingHasNoReset(db.images, {image});
    WithoutImagesEvolves(db, {image}, next);
  }

  lemma FewerRoutes(routes: map<RouteId, Route>, route: RouteId)
    ensures WithoutRoute(routes, route).Keys <= routes.Keys
  {
  }

  lemma PhotoStepMoves(s: System, e: PhotoEvent)
    requires Safe(s)
    ensures Moves(s, PhotoStep(s, e))
  {
    hide Sound, SnapshotsFit, KeysDistinct, ObjectsKept, Evolves, IdsBelow, CommitUpload, DiscardReset, DeleteWall;
    NextIsUnused(s.db, s.next);
    SidewaysEvolves(s.db, s.db, s.next);
    match e {
      case CreateWall => SidewaysEvolves(s.db, PhotoStep(s, e).db, s.next);
      case FinishUpload(u) =>
        if u in s.uploads && CommitUpload(s.db, u.wall, u.kind, u.snapshot, u.key, s.next).Ok? {
          UploadEvolves(s.db, u.wall, u.kind, u.snapshot, u.key, s.next);
        }
      case Discard(wall, image) =>
        if DiscardReset(s.db, wall, image).Some? { DiscardEvolves(s.db, wall, image, s.next); }
      case RemoveWall(wall) =>
        if DeleteWall(s.db, wall).Some? { DeleteWallEvolves(s.db, wall, s.next); }
      case DeleteQueuedObject(key, dequeued) => SidewaysEvolves(s.db, PhotoStep(s, e).db, s.next);
      case _ =>
    }
  }

  lemma ReviewStepMoves(s: System, e: ReviewEvent)
    requires Safe(s)
    ensures Moves(s, ReviewStep(s, e))
    ensures AddsNoPhoto(s.db, ReviewStep(s, e).db)
  {
    hide Sound, SnapshotsFit, KeysDistinct, ObjectsKept, Evolves, IdsBelow, WithoutHolds, MayWrite;
    hide WriteResults, UpdateResetMatch, DeleteResetHold, RestoreHold, RestoreRefusal, ApplyReset;
    NextIsUnused(s.db, s.next);
    SidewaysEvolves(s.db, s.db, s.next);
    match e {
      case MoveJob(image, status) => SidewaysEvolves(s.db, ReviewStep(s, e).db, s.next);
      case Write(load, boxes, alignment, ms) =>
        if MayWrite(s, load, boxes, ms) {
          IndicesFit(s, load, boxes, ms);
          WriteAddsNoPhoto(s.db, load.image, s.next, boxes, alignment, load.olds, ms);
          if WriteResults(s.db, load.image, s.next, boxes, alignment, load.olds, ms).Ok? {
            WriteEvolves(s.db, load.image, s.next, boxes, alignment, load.olds, ms);
          }
        }
      case Rematch(wall, image, oldHold, newHold) =>
        RematchIsSound(s.db, wall, image, oldHold, newHold);
        SidewaysEvolves(s.db, ReviewStep(s, e).db, s.next);
      case RemoveResetHold(wall, image, hold) =>
        WithoutHoldsEvolves(s.db, {hold}, s.next);
        DeleteResetHoldIsDelete(s.db, wall, image, hold);
      case Restore(wall, image, oldHold, projected) =>
        if RestoreRefusal(s.db, wall, image, oldHold).None? {
          RestoreIsSound(s.db, wall, image, oldHold, s.next, projected);
          NewHoldEvolves(s.db, Hold(image, projected), ReviewStep(s, e).db.matches, s.next);
        }
      case Apply(wall, image) =>
        if ApplyReset(s.db, wall, image).Ok? { ApplyEvolves(s.db, wall, image, s.next); }
      case _ =>
    }
  }

  lemma IndicesFit(s: System, load: Load, boxes: seq<Box>, ms: seq<GreedyMatch.Match>)
    requires MayWrite(s, load, boxes, ms)
    ensures forall m :: m in ms ==> m.oldIndex < |load.olds|
  {
  }

  lemma RouteStepMoves(s: System, e: RouteEvent)
    requires Safe(s)
    ensures Moves(s, RouteStep(s, e))
    ensures AddsNoPhoto(s.db, RouteStep(s, e).db)
  {
    hide Sound, SnapshotsFit, KeysDistinct, ObjectsKept, Evolves, IdsBelow, WithoutHolds, WithoutRoute, MaySave;
    NextIsUnused(s.db, s.next);
    SidewaysEvolves(s.db, s.db, s.next);
    match e {
      case AddHold(read, box) => NewHoldEvolves(s.db, Hold(read.image, box), s.db.matches, s.next);
      case DeleteHold(read, hold) => WithoutHoldsEvolves(s.db, {hold}, s.next);
      case DeleteRoute(route) =>
        FewerRoutes(s.db.routes, route);
        SidewaysEvolves(s.db, RouteStep(s, e).db, s.next);
      case _ => SidewaysEvolves(s.db, RouteStep(s, e).db, s.next);
    }
  }

  lemma StepMoves(s: System, e: Event)
    requires Safe(s)
    ensures Moves(s, Step(s, e))
  {
    hide PhotoStep, ReviewStep, RouteStep, Safe, Moves;
    match e {
      case OnPhotos(p) => PhotoStepMoves(s, p);
      case OnReset(r) => ReviewStepMoves(s, r);
      case OnRoutes(c) => RouteStepMoves(s, c);
    }
  }

  // ---------------------------------------------------------------- snapshots and stored objects

  lemma ActiveIsNotPending(db: Db, wall: WallId, image: ImageId)
    requires Sound(db) && IsActive(db, wall, image)
    ensures !IsPending(db.images[image])
  {
    hide PartialInjection, DraftsAreEmpty, RoutesPlaced, Shaped, AtMostOneActive, EveryWallShows;
  }

  ghost predicate SameSnapshots(s: System, t: System) {
    t.seen == s.seen && t.loads == s.loads && t.uploads == s.uploads && t.objects == s.objects && t.condemned == s.condemned
  }

  lemma ReviewStepKeepsSnapshots(s: System, e: ReviewEvent)
    requires !e.LoadParent?
    ensures SameSnapshots(s, ReviewStep(s, e))
  {
    hide WriteResults, UpdateResetMatch, DeleteResetHold, RestoreHold, RestoreRefusal, ApplyReset;
  }

  lemma ReadKeepsSnapshots(s: System, wall: WallId, image: ImageId)
    requires Safe(s) && IsActive(s.db, wall, image)
    ensures SnapshotsFit(s.(seen := s.seen + {Read(wall, image, |s.log|)}))
  {
    ActiveIsNotPending(s.db, wall, image);
    hide Sound, KeysDistinct, ObjectsKept, ParentIs, HoldRoles.NoRepeats;
  }

  lemma LoadIsKept(s: System, load: Load)
    ensures ReviewStep(s, LoadParent(load)) == if IsLoad(s.db, load) then s.(loads := s.loads + {load}) else s
  {
  }

  lemma LoadKeepsSnapshots(s: System, load: Load)
    requires Safe(s) && IsLoad(s.db, load)
    ensures SnapshotsFit(s.(loads := s.loads + {load}))
  {
    hide Sound, KeysDistinct, ObjectsKept, HoldRoles.NoRepeats;
  }

  lemma StepKeepsSnapshots(s: System, e: Event)
    requires Safe(s)
    ensures SnapshotsFit(Step(s, e))
  {
    StepMoves(s, e);
    hide Safe, SnapshotsFit, Evolves, IdsBelow, CommitUpload, DiscardReset, DeleteWall, ReviewStep, RouteStep, IsActive, IsLoad, Sound;
    SafeFits(s);
    match e {
      case OnPhotos(p) =>
        if p.ReadActive? {
          if IsActive(s.db, p.wall, p.image) { ReadKeepsSnapshots(s, p.wall, p.image); }
        } else {
          EvolutionKeepsSnapshots(s, Step(s, e));
        }
      case OnReset(r) =>
        if r.LoadParent? {
          LoadIsKept(s, r.load);
          if IsLoad(s.db, r.load) { LoadKeepsSnapshots(s, r.load); }
        } else {
          ReviewStepKeepsSnapshots(s, r);
          EvolutionKeepsSnapshots(s, Step(s, e));
        }
      case OnRoutes(c) =>
        RouteStepKeepsSnapshots(s, c);
        EvolutionKeepsSnapshots(s, Step(s, e));
    }
  }

  lemma RouteStepKeepsSnapshots(s: System, e: RouteEvent)
    ensures SameSnapshots(s, RouteStep(s, e))
  {
    hide MaySave, WithoutHolds, WithoutRoute;
  }

  lemma SafeFits(s: System)
    requires Safe(s)
    ensures Fit(s)
  {
  }

  lemma WithoutImagesAddsNone(db: Db, gone: set<ImageId>)
    ensures AddsNoPhoto(db, WithoutImages(db, gone))
    ensures forall i :: i in WithoutImages(db, gone).images <==> i in db.images && i !in gone
  {
  }

  lemma WriteAddsNoPhoto(db: Db, image: ImageId, next: nat, boxes: seq<Box>, alignment: Matrix, olds: seq<HoldId>, ms: seq<GreedyMatch.Match>)
    requires forall m :: m in ms ==> m.oldIndex < |olds|
    ensures WriteResults(db, image, next, boxes, alignment, olds, ms).Ok? ==>
      AddsNoPhoto(db, WriteResults(db, image, next, boxes, alignment, olds, ms).value)
  {
    if image in db.images {
      InsertMatchesOnlyAddsRows(Found(db, image, next, boxes).(images := Aligned(db.images, image, alignment)), image, next, olds, ms);
    }
    hide InsertMatches;
  }

  /** The images that leave when a wall or a pending reset goes. */
  lemma LeavingKeysAreNotNeeded(s: System, t: System, gone: set<ImageId>, k: Key)
    requires KeysDistinct(s) && t.uploads <= s.uploads
    requires forall i, q :: ImageHas(t.db, i, q) ==> (ImageHas(s.db, i, q) && i !in gone) || exists u :: UploadHas(s, u, q)
    requires exists i :: i in gone && ImageHas(s.db, i, k)
    ensures Needed(s, k) && !Needed(t, k)
  {
    var i :| i in gone && ImageHas(s.db, i, k);
    assert forall u :: UploadHas(t, u, k) ==> UploadHas(s, u, k);
  }

  lemma ImagesKeepKeys(s: System, t: System)
    requires Safe(s) && Evolves(s.db, t.db, s.next) && t.db.images.Keys <= s.db.images.Keys
    ensures forall i, k :: ImageHas(t.db, i, k) ==> ImageHas(s.db, i, k)
  {
    hide Sound, SnapshotsFit, KeysDistinct, ObjectsKept;
  }

  lemma StoreKeepsObjects(s: System, u: Upload)
    requires KeysDistinct(s) && ObjectsKept(s) && u.key == s.next
    ensures
      var t := s.(objects := s.objects + {s.next}, uploads := s.uploads + {u}, next := s.next + 1);
      KeysDistinct(t) && ObjectsKept(t)
  {
    var t := s.(objects := s.objects + {s.next}, uploads := s.uploads + {u}, next := s.next + 1);
    assert forall v, k :: UploadHas(t, v, k) <==> UploadHas(s, v, k) || (v == u && k == s.next);
    assert forall i, k :: ImageHas(s.db, i, k) ==> Needed(s, k);
    assert forall v, k :: UploadHas(s, v, k) ==> Needed(s, k);
    assert forall k :: Needed(t, k) ==> Needed(s, k) || k == s.next;
  }

  /** An upload that ends without a row: its key stops being needed and may be doomed. */
  lemma LostUploadKeepsObjects(s: System, u: Upload, condemned: set<Key>)
    requires KeysDistinct(s) && ObjectsKept(s) && u in s.uploads && condemned <= s.condemned + {u.key}
    ensures forall n :: n >= s.next ==>
      var t := s.(uploads := s.uploads - {u}, condemned := condemned, next := n);
      KeysDistinct(t) && ObjectsKept(t)
  {
    forall n | n >= s.next
      ensures KeysDistinct(s.(uploads := s.uploads - {u}, condemned := condemned, next := n))
      ensures ObjectsKept(s.(uploads := s.uploads - {u}, condemned := condemned, next := n))
    {
      var t := s.(uploads := s.uploads - {u}, condemned := condemned, next := n);
      ImagesLeave(s, t);
      assert UploadHas(s, u, u.key);
      assert !Needed(t, u.key) by { assert forall v :: UploadHas(t, v, u.key) ==> UploadHas(s, v, u.key); }
      NeedOnlyShrinks(s, t);
    }
  }

  /** A deleted object was doomed, so nobody needs it. */
  lemma DeletionKeepsObjects(s: System, key: Key, queued: set<Key>)
    requires KeysDistinct(s) && ObjectsKept(s) && Doomed(s, key) && queued <= s.db.queued
    ensures
      var t := s.(objects := s.objects - {key}, db := s.db.(queued := queued));
      KeysDistinct(t) && ObjectsKept(t)
  {
    var t := s.(objects := s.objects - {key}, db := s.db.(queued := queued));
    assert forall i, k :: ImageHas(t.db, i, k) <==> ImageHas(s.db, i, k);
    assert forall u, k :: UploadHas(t, u, k) <==> UploadHas(s, u, k);
    assert forall k :: Needed(t, k) <==> Needed(s, k);
    assert forall k :: Doomed(t, k) ==> Doomed(s, k);
  }

  lemma NewImageKeys(db: Db, wall: WallId, parent: ImageId, key: Key, next: nat)
    ensures forall i, k :: ImageHas(WithPending(db, wall, parent, key, next), i, k) ==> (i == next && k == key) || ImageHas(db, i, k)
    ensures forall i, k :: ImageHas(WithFull(db, wall, key, next), i, k) ==> (i == next && k == key) || ImageHas(db, i, k)
    ensures WithPending(db, wall, parent, key, next).queued == WithFull(db, wall, key, next).queued == db.queued
  {
  }

  lemma RemainingKeys(db: Db, gone: set<ImageId>)
    ensures forall i, k :: ImageHas(WithoutImages(db, gone), i, k) <==> ImageHas(db, i, k) && i !in gone
  {
  }

  lemma UploadedKeys(db: Db, wall: WallId, kind: Kind, snapshot: ImageId, key: Key, next: nat)
    requires CommitUpload(db, wall, kind, snapshot, key, next).Ok?
    ensures forall i, k :: ImageHas(CommitUpload(db, wall, kind, snapshot, key, next).value, i, k) ==>
      (i == next && k == key) || (ImageHas(db, i, k) && i !in PendingImages(db, wall))
    ensures CommitUpload(db, wall, kind, snapshot, key, next).value.queued == db.queued
  {
    var gone := PendingImages(db, wall);
    RemainingKeys(db, gone);
    WithoutImagesAddsNone(db, gone);
    NewImageKeys(WithoutImages(db, gone), wall, snapshot, key, next);
    hide WithoutImages, PendingImages, ImageHas, WithPending, WithFull;
  }

  lemma FinishedUploadKeepsObjects(s: System, t: System, u: Upload, gone: set<ImageId>, fit: ImageId)
    requires KeysDistinct(s) && ObjectsKept(s) && u in s.uploads && s.next <= t.next
    requires t.uploads == s.uploads - {u} && t.objects == s.objects && t.db.queued == s.db.queued
    requires forall k :: k in t.condemned ==> k in s.condemned || exists i :: i in gone && ImageHas(s.db, i, k)
    requires forall i, k :: ImageHas(t.db, i, k) ==> (i == fit && k == u.key) || (ImageHas(s.db, i, k) && i !in gone)
    requires forall k :: !ImageHas(s.db, fit, k)
    ensures KeysDistinct(t) && ObjectsKept(t)
  {
    assert UploadHas(s, u, u.key);
    assert forall v, k :: UploadHas(t, v, k) ==> UploadHas(s, v, k) && v != u;
    assert forall k :: Needed(t, k) ==> Needed(s, k);
    forall k | Doomed(t, k) && !Doomed(s, k) ensures Needed(s, k) && !Needed(t, k) {
      LeavingKeysAreNotNeeded(s, t, gone, k);
    }
    NeedOnlyShrinks(s, t);
  }

  lemma PhotoStepKeepsObjects(s: System, e: PhotoEvent)
    requires Safe(s)
    ensures KeysDistinct(PhotoStep(s, e)) && ObjectsKept(PhotoStep(s, e))
  {
    var t := PhotoStep(s, e);
    PhotoStepMoves(s, e);
    hide CommitUpload, DeleteWall, DiscardReset, PendingImages, PendingKeys;
    hide Sound, SnapshotsFit, IdsBelow, KeysDistinct, ObjectsKept, Needed, Doomed, ImageHas, UploadHas, Moves;
    match e {
      case CreateWall => QuietStepKeepsObjects(s, t);
      case ReadActive(wall, image) => QuietStepKeepsObjects(s, t);
      case StoreObject(wall, kind, snapshot) => StoreKeepsObjects(s, Upload(wall, kind, snapshot, s.next));
      case AbandonUpload(u, cleanUp) =>
        if u in s.uploads { LostUploadKeepsObjects(s, u, if cleanUp then s.condemned + {u.key} else s.condemned); }
      case FinishUpload(u) =>
        if u in s.uploads {
          if CommitUpload(s.db, u.wall, u.kind, u.snapshot, u.key, s.next).Err? {
            LostUploadKeepsObjects(s, u, s.condemned + {u.key});
          } else {
            UploadedKeys(s.db, u.wall, u.kind, u.snapshot, u.key, s.next);
            UnusedImageHasNoKey(s.db, s.next);
            PendingKeysAreHad(s.db, u.wall);
            FinishedUploadKeepsObjects(s, t, u, PendingImages(s.db, u.wall), s.next);
          }
        }
      case Discard(wall, image) =>
        if DiscardReset(s.db, wall, image).Some? { DiscardKeepsObjects(s, t, wall, image); }
      case RemoveWall(wall) =>
        if DeleteWall(s.db, wall).Some? { RemoveWallKeepsObjects(s, t, wall); }
      case DeleteQueuedObject(key, dequeued) =>
        if key in s.db.queued { QueuedIsDoomed(s, key); DeletionKeepsObjects(s, key, t.db.queued); }
      case DeleteCondemnedObject(key) =>
        if key in s.condemned { QueuedIsDoomed(s, key); DeletionKeepsObjects(s, key, s.db.queued); }
    }
  }

  lemma StepKeepsObjects(s: System, e: Event)
    requires Safe(s)
    ensures KeysDistinct(Step(s, e)) && ObjectsKept(Step(s, e))
  {
    hide Safe, PhotoStep, ReviewStep, KeysDistinct, ObjectsKept, Moves, AddsNoPhoto, MaySave;
    match e {
      case OnPhotos(p) => PhotoStepKeepsObjects(s, p);
      case OnReset(r) =>
        ReviewStepMoves(s, r);
        if r.LoadParent? { LoadIsKept(s, r.load); } else { ReviewStepKeepsSnapshots(s, r); }
        QuietStepKeepsObjects(s, Step(s, e));
      case OnRoutes(c) =>
        RouteStepMoves(s, c);
        QuietStepKeepsObjects(s, Step(s, e));
    }
  }

  lemma QueuedIsDoomed(s: System, key: Key)
    ensures Doomed(s, key) <==> key in s.db.queued || key in s.condemned
  {
  }

  lemma UnusedImageHasNoKey(db: Db, next: nat)
    requires IdsBelow(db, next)
    ensures forall k :: !ImageHas(db, next, k)
  {
  }

  lemma PendingKeysAreHad(db: Db, wall: WallId)
    ensures forall k :: k in PendingKeys(db, wall) ==> exists i :: i in PendingImages(db, wall) && ImageHas(db, i, k)
  {
    forall k | k in PendingKeys(db, wall) ensures exists i :: i in PendingImages(db, wall) && ImageHas(db, i, k) {
      var i :| i in PendingImages(db, wall) && i in db.images && db.images[i].key == k;
      assert ImageHas(db, i, k);
    }
  }

  lemma DiscardKeepsObjects(s: System, t: System, wall: WallId, image: ImageId)
    requires Safe(s) && DiscardReset(s.db, wall, image).Some? && Moves(s, t)
    requires t == s.(db := DiscardReset(s.db, wall, image).value, condemned := s.condemned + {s.db.images[image].key})
    ensures KeysDistinct(t) && ObjectsKept(t)
  {
    WithoutImagesAddsNone(s.db, {image});
    hide Sound, SnapshotsFit, WithoutImages;
    ImagesKeepKeys(s, t);
    ImagesLeave(s, t);
    assert ImageHas(s.db, image, s.db.images[image].key);
    LeavingKeysAreNotNeeded(s, t, {image}, s.db.images[image].key);
    hide KeysDistinct, Needed, ImageHas, UploadHas;
    NeedOnlyShrinks(s, t);
  }

  lemma RemoveWallKeepsObjects(s: System, t: System, wall: WallId)
    requires Safe(s) && DeleteWall(s.db, wall).Some? && Moves(s, t)
    requires t == s.(db := DeleteWall(s.db, wall).value)
    ensures KeysDistinct(t) && ObjectsKept(t)
  {
    var gone := ImagesOf(s.db, wall);
    WithoutImagesAddsNone(s.db, gone);
    hide Sound, SnapshotsFit, WithoutImages;
    ImagesKeepKeys(s, t);
    ImagesLeave(s, t);
    forall k | Doomed(t, k) && !Doomed(s, k) ensures Needed(s, k) && !Needed(t, k) {
      var i :| i in s.db.images && s.db.images[i].wall == wall && s.db.images[i].key == k;
      assert i in gone && ImageHas(s.db, i, k);
      LeavingKeysAreNotNeeded(s, t, gone, k);
    }
    hide KeysDistinct, Needed, ImageHas, UploadHas;
    NeedOnlyShrinks(s, t);
  }

  lemma QuietStepKeepsObjects(s: System, t: System)
    requires Safe(s) && Moves(s, t) && AddsNoPhoto(s.db, t.db)
    requires t.uploads == s.uploads && t.objects == s.objects && t.condemned == s.condemned
    ensures KeysDistinct(t) && ObjectsKept(t)
  {
    hide Sound, SnapshotsFit;
    ImagesKeepKeys(s, t);
    ImagesLeave(s, t);
    hide KeysDistinct, Needed, ImageHas, UploadHas;
    NeedOnlyShrinks(s, t);
  }

  // ---------------------------------------------------------------- the theorem

  lemma StepKeepsSafe(s: System, e: Event)
    requires Safe(s)
    ensures Safe(Step(s, e))
  {
    StepMoves(s, e);
    StepKeepsSnapshots(s, e);
    StepKeepsObjects(s, e);
    SafeFits(s);
    hide PhotoStep, ReviewStep, RouteStep, Fit, Sound, SnapshotsFit, IdsBelow, KeysDistinct, ObjectsKept, Evolves;
    match e {
      case OnPhotos(p) => PhotoStepIsSound(s, p);
      case OnReset(r) => ReviewStepIsSound(s, r);
      case OnRoutes(c) => RouteStepIsSound(s, c);
    }
  }

  /** The invariant holds after every run. */
  lemma {:induction false} EveryRunIsSafe(events: seq<Event>)
    ensures Safe(After(events))
  {
    if events == [] {
      StartIsSafe();
    } else {
      EveryRunIsSafe(events[..|events| - 1]);
      hide Step, Safe;
      StepKeepsSafe(After(events[..|events| - 1]), events[|events| - 1]);
    }
  }

  lemma StartIsSafe()
    ensures Safe(START)
  {
  }
}
