/**
 What every wall transaction keeps: the image lifecycle, and the matches of a reset
 image as a partial injection from the holds of its parent to its own holds.
 */
module WallInvariant {
  import opened Wrappers
  import opened HoldRemap
  import opened Homography
  import opened HoldOutline
  import opened WallTables
  import GreedyMatch
  import HoldRoles

  ghost predicate AtMostOneActive(images: map<ImageId, Image>) {
    forall i, j :: i in images && j in images && images[i].active && images[j].active && images[i].wall == images[j].wall ==> i == j
  }

  ghost predicate HasActive(images: map<ImageId, Image>, wall: WallId) {
    exists j :: j in images && images[j].active && images[j].wall == wall
  }

  /** A wall with a photo shows one. */
  ghost predicate EveryWallShows(images: map<ImageId, Image>) {
    forall i :: i in images ==> HasActive(images, images[i].wall)
  }

  ghost predicate WallsExist(images: map<ImageId, Image>, walls: set<WallId>) {
    forall i :: i in images ==> images[i].wall in walls
  }

  ghost predicate ParentIs(images: map<ImageId, Image>, i: ImageId, p: ImageId) {
    i in images && images[i].parent == Some(p)
  }

  /** A full photo has no parent and no review; a partial one has an earlier parent on its wall. */
  ghost predicate Shaped(images: map<ImageId, Image>) {
    && (forall i :: i in images && images[i].kind == Full ==>
         images[i].parent.None? && images[i].review.None? && images[i].alignment.None?)
    && (forall i :: i in images && images[i].kind == Partial ==> images[i].parent.Some? && images[i].review.Some?)
    && (forall i, p :: ParentIs(images, i, p) ==> p in images && p < i && images[p].wall == images[i].wall)
  }

  /** A reset is pending exactly while its parent is active, and an image has at most one reset; a pending one has none. */
  ghost predicate ResetsFollow(images: map<ImageId, Image>) {
    && (forall i, p :: ParentIs(images, i, p) && p in images ==> (IsPending(images[i]) <==> images[p].active))
    && (forall i, p :: ParentIs(images, i, p) && p in images ==> !IsPending(images[p]))
    && (forall i :: i in images && IsPending(images[i]) ==> !images[i].active)
    && (forall i, j, p :: ParentIs(images, i, p) && ParentIs(images, j, p) ==> i == j)
  }

  ghost predicate Lifecycle(images: map<ImageId, Image>, walls: set<WallId>) {
    && WallsExist(images, walls) && AtMostOneActive(images) && EveryWallShows(images)
    && Shaped(images) && ResetsFollow(images)
  }

  /** Matches run from holds of the parent to holds of the reset image, no new hold twice. */
  ghost predicate PartialInjection(images: map<ImageId, Image>, holds: map<HoldId, Hold>, matches: map<HoldId, MatchRow>) {
    && (forall h :: h in holds ==> holds[h].image in images)
    && (forall o :: o in matches ==>
         && o in holds && matches[o].newHold in holds
         && holds[matches[o].newHold].image == matches[o].image
         && ParentIs(images, matches[o].image, holds[o].image))
    && (forall o, q :: o in matches && q in matches && matches[o].newHold == matches[q].newHold ==> o == q)
  }

  /** Until its detection is done, a reset image is pending and has no alignment and no holds (so no matches). */
  ghost predicate DraftsAreEmpty(images: map<ImageId, Image>, holds: map<HoldId, Hold>, jobs: map<ImageId, JobStatus>) {
    && jobs.Keys == images.Keys
    && (forall i :: i in images && images[i].kind == Partial && jobs[i] != Done ==> IsPending(images[i]) && images[i].alignment.None?)
    && (forall h :: h in holds && holds[h].image in images && images[holds[h].image].kind == Partial ==> jobs[holds[h].image] == Done)
  }

  /** Routes sit on existing images of their wall that are not pending, and their roles are valid. */
  ghost predicate RoutesPlaced(images: map<ImageId, Image>, routes: map<RouteId, Route>) {
    forall r :: r in routes ==>
      && routes[r].image in images
      && images[routes[r].image].wall == routes[r].wall
      && !IsPending(images[routes[r].image])
      && HoldRoles.ValidRoles(routes[r].holds)
  }

  ghost predicate Sound(db: Db) {
    && Lifecycle(db.images, db.walls)
    && PartialInjection(db.images, db.holds, db.matches)
    && DraftsAreEmpty(db.images, db.holds, db.jobs)
    && RoutesPlaced(db.images, db.routes)
  }

  // ---------------------------------------------------------------- what the invariant gives

  /** At most one pending reset a wall, and its parent is the active image. */
  lemma OnePendingReset(db: Db, i: ImageId, j: ImageId)
    requires Sound(db)
    requires j in db.images && IsPending(db.images[j]) && i in PendingImages(db, db.images[j].wall)
    ensures i == j
    ensures IsActive(db, db.images[i].wall, db.images[i].parent.value)
  {
    hide PartialInjection, DraftsAreEmpty, RoutesPlaced;
    assert ParentIs(db.images, i, db.images[i].parent.value);
    assert ParentIs(db.images, j, db.images[j].parent.value);
  }

  /** The map a reset image carries is injective, from its parent's holds to its own. */
  lemma MatchesAreAPartialInjection(db: Db, image: ImageId)
    requires Sound(db)
    ensures HoldRoles.Injective(MatchesOf(db, image))
    ensures forall o :: o in MatchesOf(db, image) ==>
      && image in db.images
      && o in db.holds && Some(db.holds[o].image) == db.images[image].parent
      && MatchesOf(db, image)[o] in db.holds && db.holds[MatchesOf(db, image)[o]].image == image
  {
    hide Lifecycle, DraftsAreEmpty, RoutesPlaced;
  }

  // ---------------------------------------------------------------- holds and matches

  lemma WithoutHoldsIsSound(db: Db, gone: set<HoldId>)
    requires Sound(db)
    ensures Sound(WithoutHolds(db, gone))
  {
    hide Lifecycle, RoutesPlaced, ParentIs;
  }

  lemma InsertHoldIsSound(db: Db, h: HoldId, hold: Hold)
    requires Sound(db)
    requires h !in db.holds && hold.image in db.images && (db.images[hold.image].kind == Partial ==> db.jobs[hold.image] == Done)
    ensures Sound(db.(holds := db.holds[h := hold]))
  {
    hide Lifecycle, RoutesPlaced, ParentIs;
  }

  lemma WithoutMatchesIsSound(db: Db, image: ImageId, oldHold: HoldId, newHold: HoldId)
    requires Sound(db)
    ensures Sound(WithoutMatches(db, image, oldHold, newHold))
  {
    hide Lifecycle, RoutesPlaced, DraftsAreEmpty, ParentIs;
  }

  lemma InsertMatchIsSound(db: Db, image: ImageId, oldHold: HoldId, newHold: HoldId)
    requires Sound(db) && InsertMatch(db, image, oldHold, newHold).Some?
    requires ParentIs(db.images, image, db.holds[oldHold].image) && db.holds[newHold].image == image
    ensures Sound(InsertMatch(db, image, oldHold, newHold).value)
  {
    hide Lifecycle, RoutesPlaced, DraftsAreEmpty, ParentIs;
  }

  lemma InsertMatchExtendsOneMap(db: Db, image: ImageId, oldHold: HoldId, newHold: HoldId)
    requires InsertMatch(db, image, oldHold, newHold).Some?
    ensures MatchesOf(InsertMatch(db, image, oldHold, newHold).value, image) == MatchesOf(db, image)[oldHold := newHold]
    ensures forall other :: other != image ==>
      MatchesOf(InsertMatch(db, image, oldHold, newHold).value, other) == MatchesOf(db, other)
  {
  }

  /** An image has one reset, so a match row of one of its holds belongs to that reset. */
  lemma HolderIsTheChild(db: Db, image: ImageId, oldHold: HoldId)
    requires Sound(db) && oldHold in db.holds && ParentIs(db.images, image, db.holds[oldHold].image)
    ensures oldHold in db.matches ==> db.matches[oldHold].image == image
  {
    hide RoutesPlaced, DraftsAreEmpty, WallsExist, AtMostOneActive, EveryWallShows, Shaped, ParentIs;
  }

  function Rematched(matches: Matches, oldHold: HoldId, newHold: HoldId): Matches {
    map o | o in matches.Keys + {oldHold} && (o == oldHold || matches[o] != newHold) :: if o == oldHold then newHold else matches[o]
  }

  /** Once the rows of this image using either hold are gone, no other row can be using them. */
  lemma ClearedRowsAccept(db: Db, image: ImageId, oldHold: HoldId, newHold: HoldId)
    requires Sound(db) && oldHold in db.holds && ParentIs(db.images, image, db.holds[oldHold].image)
    requires newHold in db.holds && db.holds[newHold].image == image
    ensures InsertMatch(WithoutMatches(db, image, oldHold, newHold), image, oldHold, newHold).Some?
  {
    HolderIsTheChild(db, image, oldHold);
    assert image in db.images;
    hide Lifecycle, RoutesPlaced, DraftsAreEmpty, ParentIs;
  }

  lemma ClearedKeepsTheRest(db: Db, image: ImageId, oldHold: HoldId, newHold: HoldId)
    ensures WithoutMatches(db, image, oldHold, newHold) == db.(matches := WithoutMatches(db, image, oldHold, newHold).matches)
  {
  }

  lemma ClearedMaps(db: Db, image: ImageId, oldHold: HoldId, newHold: HoldId)
    ensures MatchesOf(WithoutMatches(db, image, oldHold, newHold), image)[oldHold := newHold]
         == Rematched(MatchesOf(db, image), oldHold, newHold)
    ensures forall other :: other != image ==> MatchesOf(WithoutMatches(db, image, oldHold, newHold), other) == MatchesOf(db, other)
  {
  }

  /** What a successful rematch does to the maps of all images. */
  ghost predicate IsRematch(db: Db, next: Db, image: ImageId, oldHold: HoldId, newHold: HoldId) {
    && next == db.(matches := next.matches)
    && MatchesOf(next, image) == Rematched(MatchesOf(db, image), oldHold, newHold)
    && forall other :: other != image ==> MatchesOf(next, other) == MatchesOf(db, other)
  }

  lemma UpsertNeverConflicts(db: Db, image: ImageId, oldHold: HoldId, newHold: HoldId)
    requires Sound(db) && oldHold in db.holds && ParentIs(db.images, image, db.holds[oldHold].image)
    ensures newHold in db.holds && db.holds[newHold].image == image <==> UpsertMatch(db, image, oldHold, newHold).Ok?
    ensures UpsertMatch(db, image, oldHold, newHold).Ok? ==>
      && Sound(UpsertMatch(db, image, oldHold, newHold).value)
      && IsRematch(db, UpsertMatch(db, image, oldHold, newHold).value, image, oldHold, newHold)
  {
    hide Sound, MatchesOf, Rematched, WithoutMatches, ParentIs;
    if newHold in db.holds && db.holds[newHold].image == image {
      var cleared := WithoutMatches(db, image, oldHold, newHold);
      ClearedRowsAccept(db, image, oldHold, newHold);
      ClearedMaps(db, image, oldHold, newHold);
      WithoutMatchesIsSound(db, image, oldHold, newHold);
      ClearedKeepsTheRest(db, image, oldHold, newHold);
      InsertMatchIsSound(cleared, image, oldHold, newHold);
      InsertMatchExtendsOneMap(cleared, image, oldHold, newHold);
    }
  }

  lemma LockedResetHasParent(db: Db, wall: WallId, image: ImageId)
    requires Sound(db) && LockPendingReset(db, wall, image).Some?
    ensures ParentIs(db.images, image, LockPendingReset(db, wall, image).value)
    ensures image in db.jobs && db.images[image].kind == Partial && IsPending(db.images[image])
    ensures db.images[image].alignment.Some? ==> db.jobs[image] == Done
  {
    hide PartialInjection, RoutesPlaced;
  }

  /** A rematch fails only for a missing reset or a hold on the wrong image, never on a conflict. */
  lemma RematchIsSound(db: Db, wall: WallId, image: ImageId, oldHold: HoldId, newHold: Option<HoldId>)
    requires Sound(db)
    ensures UpdateResetMatch(db, wall, image, oldHold, newHold) != Err(MatchConflict)
    ensures UpdateResetMatch(db, wall, image, oldHold, newHold).Ok? ==>
      && Sound(UpdateResetMatch(db, wall, image, oldHold, newHold).value)
      && UpdateResetMatch(db, wall, image, oldHold, newHold).value == db.(matches := UpdateResetMatch(db, wall, image, oldHold, newHold).value.matches)
      && forall other :: other != image ==> MatchesOf(UpdateResetMatch(db, wall, image, oldHold, newHold).value, other) == MatchesOf(db, other)
  {
    if LockPendingReset(db, wall, image).Some? && oldHold in db.holds && Some(db.holds[oldHold].image) == LockPendingReset(db, wall, image) {
      LockedResetHasParent(db, wall, image);
      match newHold {
        case Some(n) =>
          UpsertNeverConflicts(db, image, oldHold, n);
          hide Sound, UpsertMatch, MatchesOf, Rematched;
        case None => UnmatchIsSound(db, image, oldHold);
      }
    }
  }

  lemma UnmatchIsSound(db: Db, image: ImageId, oldHold: HoldId)
    requires Sound(db)
    ensures Sound(Unmatched(db, image, oldHold))
    ensures forall other :: other != image ==> MatchesOf(Unmatched(db, image, oldHold), other) == MatchesOf(db, other)
  {
    hide Lifecycle, RoutesPlaced, DraftsAreEmpty, ParentIs;
  }

  lemma RestoreChecks(db: Db, wall: WallId, image: ImageId, oldHold: HoldId)
    requires RestoreRefusal(db, wall, image, oldHold).None?
    ensures LockPendingReset(db, wall, image).Some? && db.images[image].alignment.Some?
    ensures oldHold in db.holds && Some(db.holds[oldHold].image) == LockPendingReset(db, wall, image)
  {
    hide ProjectPoint, InverseHomography, Corners;
  }

  /** A restore that passes its checks always succeeds, and matches the old hold to the restored one. */
  lemma RestoreIsSound(db: Db, wall: WallId, image: ImageId, oldHold: HoldId, newHold: HoldId, box: Box)
    requires Sound(db) && newHold !in db.holds && RestoreRefusal(db, wall, image, oldHold).None?
    ensures RestoreHold(db, image, oldHold, newHold, box).Ok?
    ensures Sound(RestoreHold(db, image, oldHold, newHold, box).value)
    ensures IsRematch(Inserted(db, image, newHold, box), RestoreHold(db, image, oldHold, newHold, box).value, image, oldHold, newHold)
    ensures forall i :: MatchesOf(Inserted(db, image, newHold, box), i) == MatchesOf(db, i)
  {
    hide Sound, IsRematch, WithoutMatches, InsertMatch, RestoreRefusal, ParentIs;
    RestoreChecks(db, wall, image, oldHold);
    LockedResetHasParent(db, wall, image);
    InsertHoldIsSound(db, newHold, Hold(image, box));
    UpsertNeverConflicts(Inserted(db, image, newHold, box), image, oldHold, newHold);
  }

  // ---------------------------------------------------------------- images

  ghost predicate Unparented(images: map<ImageId, Image>, gone: set<ImageId>) {
    forall i, p :: ParentIs(images, i, p) && p in gone ==> i in gone
  }

  function Remaining(images: map<ImageId, Image>, gone: set<ImageId>): map<ImageId, Image> {
    map i | i in images && i !in gone :: images[i]
  }

  lemma NothingIsOrphaned(db: Db, gone: set<ImageId>)
    requires Unparented(db.images, gone)
    ensures WithoutImages(db, gone).images == Remaining(db.images, gone)
  {
    forall i | i in db.images && i !in gone ensures Orphaned(db.images[i], gone) == db.images[i] {
      if db.images[i].parent.Some? { assert ParentIs(db.images, i, db.images[i].parent.value); }
    }
  }

  lemma RemainingKeepsInjection(db: Db, gone: set<ImageId>)
    requires PartialInjection(db.images, db.holds, db.matches)
    ensures PartialInjection(Remaining(db.images, gone), WithoutImages(db, gone).holds, WithoutImages(db, gone).matches)
  {
    RemainingKeepsParents(db.images, gone);
    hide ParentIs, Orphaned;
  }

  lemma RemainingKeepsParents(images: map<ImageId, Image>, gone: set<ImageId>)
    ensures forall i, p :: ParentIs(Remaining(images, gone), i, p) <==> ParentIs(images, i, p) && i !in gone
  {
  }

  /** The matches of the other images survive: their holds are on images that stay. */
  lemma RemainingKeepsMatches(db: Db, gone: set<ImageId>)
    requires PartialInjection(db.images, db.holds, db.matches) && Unparented(db.images, gone)
    ensures forall i :: i !in gone ==> MatchesOf(WithoutImages(db, gone), i) == MatchesOf(db, i)
  {
  }

  lemma RemainingKeepsDrafts(db: Db, gone: set<ImageId>)
    requires DraftsAreEmpty(db.images, db.holds, db.jobs)
    ensures DraftsAreEmpty(Remaining(db.images, gone), WithoutImages(db, gone).holds, WithoutImages(db, gone).jobs)
  {
  }

  lemma PendingHasNoReset(images: map<ImageId, Image>, gone: set<ImageId>)
    requires Shaped(images) && ResetsFollow(images)
    requires forall i :: i in gone ==> i in images && IsPending(images[i])
    ensures Unparented(images, gone)
  {
  }

  lemma WithoutPendingKeepsLifecycle(images: map<ImageId, Image>, walls: set<WallId>, gone: set<ImageId>)
    requires Lifecycle(images, walls)
    requires forall i :: i in gone ==> i in images && IsPending(images[i])
    ensures Lifecycle(Remaining(images, gone), walls)
  {
    var after := Remaining(images, gone);
    PendingHasNoReset(images, gone);
    forall i | i in after ensures HasActive(after, after[i].wall) {
      var j :| j in images && images[j].active && images[j].wall == images[i].wall;
      assert j in after;
    }
    assert forall i, p :: ParentIs(after, i, p) ==> ParentIs(images, i, p);
  }

  lemma WithoutPendingIsSound(db: Db, gone: set<ImageId>)
    requires Sound(db)
    requires forall i :: i in gone ==> i in db.images && IsPending(db.images[i])
    ensures Sound(WithoutImages(db, gone))
    ensures WithoutImages(db, gone).images == Remaining(db.images, gone)
    ensures forall i :: i !in gone ==> MatchesOf(WithoutImages(db, gone), i) == MatchesOf(db, i)
  {
    PendingHasNoReset(db.images, gone);
    NothingIsOrphaned(db, gone);
    RemainingKeepsInjection(db, gone);
    RemainingKeepsMatches(db, gone);
    RemainingKeepsDrafts(db, gone);
    WithoutPendingKeepsLifecycle(db.images, db.walls, gone);
    hide Lifecycle, PartialInjection, DraftsAreEmpty, MatchesOf;
  }

  lemma DiscardIsSound(db: Db, wall: WallId, image: ImageId)
    requires Sound(db) && DiscardReset(db, wall, image).Some?
    ensures Sound(DiscardReset(db, wall, image).value)
  {
    hide Sound;
    WithoutPendingIsSound(db, {image});
  }

  lemma WithoutWallKeepsLifecycle(images: map<ImageId, Image>, walls: set<WallId>, wall: WallId, gone: set<ImageId>)
    requires Lifecycle(images, walls) && gone == set i | i in images && images[i].wall == wall
    ensures Unparented(images, gone)
    ensures Lifecycle(Remaining(images, gone), walls - {wall})
  {
    var after := Remaining(images, gone);
    forall i | i in after ensures HasActive(after, after[i].wall) {
      var j :| j in images && images[j].active && images[j].wall == images[i].wall;
      assert j in after;
    }
    assert forall i, p :: ParentIs(after, i, p) ==> ParentIs(images, i, p);
  }

  lemma DeleteWallIsSound(db: Db, wall: WallId)
    requires Sound(db) && DeleteWall(db, wall).Some?
    ensures Sound(DeleteWall(db, wall).value)
  {
    var gone := ImagesOf(db, wall);
    WithoutWallKeepsLifecycle(db.images, db.walls, wall, gone);
    NothingIsOrphaned(db, gone);
    RemainingKeepsInjection(db, gone);
    RemainingKeepsDrafts(db, gone);
    hide Lifecycle, PartialInjection, DraftsAreEmpty;
  }

  /** A photo's place in the lifecycle, without its active flag and review. */
  ghost predicate SamePlace(a: Image, b: Image) {
    a.wall == b.wall && a.parent == b.parent && a.kind == b.kind && a.alignment == b.alignment && a.key == b.key
  }

  lemma NewPendingKeepsLifecycle(images: map<ImageId, Image>, walls: set<WallId>, image: ImageId, fit: Image)
    requires Lifecycle(images, walls) && image !in images
    requires fit.wall in walls && fit.parent.Some? && IsPending(fit) && !fit.active
    requires fit.parent.value in images && images[fit.parent.value].wall == fit.wall && images[fit.parent.value].active
    requires fit.parent.value < image
    requires forall i :: i in images && images[i].wall == fit.wall ==> !IsPending(images[i])
    ensures Lifecycle(images[image := fit], walls)
  {
    var after := images[image := fit];
    forall i | i in after ensures HasActive(after, after[i].wall) {
      assert after[i].wall == if i == image then images[fit.parent.value].wall else images[i].wall;
      var j :| j in images && images[j].active && images[j].wall == after[i].wall;
      assert j in after;
    }
    assert forall i, p :: ParentIs(after, i, p) ==> if i == image then p == fit.parent.value else ParentIs(images, i, p);
    assert Shaped(after);
    assert ResetsFollow(after);
  }

  lemma DeactivatedKeepsShape(images: map<ImageId, Image>, wall: WallId)
    requires Shaped(images) && ResetsFollow(images) && AtMostOneActive(images)
    requires forall i :: i in images && images[i].wall == wall ==> !IsPending(images[i])
    ensures Shaped(Deactivated(images, wall)) && ResetsFollow(Deactivated(images, wall)) && AtMostOneActive(Deactivated(images, wall))
  {
    var off := Deactivated(images, wall);
    assert forall i, p :: ParentIs(off, i, p) ==> ParentIs(images, i, p);
  }

  lemma NewFullKeepsShape(images: map<ImageId, Image>, image: ImageId, full: Image)
    requires Shaped(images) && ResetsFollow(images) && AtMostOneActive(images) && image !in images
    requires full.kind == Full && full.parent.None? && full.review.None? && full.alignment.None?
    requires forall i :: i in images && images[i].wall == full.wall ==> !images[i].active
    ensures Shaped(images[image := full]) && ResetsFollow(images[image := full]) && AtMostOneActive(images[image := full])
  {
    var after := images[image := full];
    assert forall i, p :: ParentIs(after, i, p) ==> i != image && ParentIs(images, i, p);
  }

  lemma NewFullKeepsLifecycle(images: map<ImageId, Image>, walls: set<WallId>, image: ImageId, full: Image)
    requires Lifecycle(images, walls) && image !in images
    requires full.wall in walls && full.kind == Full && full.parent.None? && full.review.None? && full.alignment.None? && full.active
    requires forall i :: i in images && images[i].wall == full.wall ==> !IsPending(images[i])
    ensures Lifecycle(Deactivated(images, full.wall)[image := full], walls)
  {
    var off := Deactivated(images, full.wall);
    var after := off[image := full];
    DeactivatedKeepsShape(images, full.wall);
    NewFullKeepsShape(off, image, full);
    hide Shaped, ResetsFollow, AtMostOneActive;
    forall i | i in after ensures HasActive(after, after[i].wall) {
      if after[i].wall == full.wall {
        assert image in after;
      } else {
        var j :| j in images && images[j].active && images[j].wall == after[i].wall;
        assert j in after;
      }
    }
  }

  /** A new image without holds, matches or routes; the other images may be deactivated. */
  lemma NewImageKeepsRest(db: Db, images: map<ImageId, Image>, image: ImageId)
    requires Sound(db) && image !in db.images && image in images && images.Keys == db.images.Keys + {image}
    requires forall i :: i in db.images ==> SamePlace(images[i], db.images[i]) && images[i].review == db.images[i].review
    requires images[image].alignment.None? && (images[image].kind == Partial ==> IsPending(images[image]))
    ensures PartialInjection(images, db.holds, db.matches)
    ensures DraftsAreEmpty(images, db.holds, db.jobs[image := Waiting])
    ensures RoutesPlaced(images, db.routes)
  {
    hide Lifecycle;
  }

  lemma WithPendingIsSound(db: Db, wall: WallId, parent: ImageId, key: Key, image: ImageId)
    requires Sound(db) && wall in db.walls && IsActive(db, wall, parent) && PendingImages(db, wall) == {}
    requires image !in db.images && parent < image
    ensures Sound(WithPending(db, wall, parent, key, image))
  {
    var after := WithPending(db, wall, parent, key, image);
    hide PartialInjection, DraftsAreEmpty, RoutesPlaced, Lifecycle;
    assert forall i :: i in db.images && db.images[i].wall == wall && IsPending(db.images[i]) ==> i in PendingImages(db, wall);
    NewImageKeepsRest(db, after.images, image);
    NewPendingKeepsLifecycle(db.images, db.walls, image, after.images[image]);
  }

  lemma WithFullIsSound(db: Db, wall: WallId, key: Key, image: ImageId)
    requires Sound(db) && wall in db.walls && PendingImages(db, wall) == {} && image !in db.images
    ensures Sound(WithFull(db, wall, key, image))
  {
    var after := WithFull(db, wall, key, image);
    hide PartialInjection, DraftsAreEmpty, RoutesPlaced, Lifecycle;
    assert forall i :: i in db.images && db.images[i].wall == wall && IsPending(db.images[i]) ==> i in PendingImages(db, wall);
    NewImageKeepsRest(db, after.images, image);
    NewFullKeepsLifecycle(db.images, db.walls, image, after.images[image]);
  }

  /** After the pending images are cleared the wall has none, and its active image is still there. */
  lemma ClearedForUpload(db: Db, wall: WallId, snapshot: ImageId)
    requires Sound(db)
    ensures Sound(WithoutImages(db, PendingImages(db, wall)))
    ensures PendingImages(WithoutImages(db, PendingImages(db, wall)), wall) == {}
    ensures WithoutImages(db, PendingImages(db, wall)).images.Keys <= db.images.Keys
    ensures WithoutImages(db, PendingImages(db, wall)).walls == db.walls
    ensures IsActive(WithoutImages(db, PendingImages(db, wall)), wall, snapshot) <==> IsActive(db, wall, snapshot)
  {
    WithoutPendingIsSound(db, PendingImages(db, wall));
    hide PartialInjection, DraftsAreEmpty, RoutesPlaced, Shaped, EveryWallShows, WithoutImages;
  }

  lemma UploadIsSound(db: Db, wall: WallId, kind: Kind, snapshot: ImageId, key: Key, image: ImageId)
    requires Sound(db) && CommitUpload(db, wall, kind, snapshot, key, image).Ok?
    requires forall i :: i in db.images ==> i < image
    ensures Sound(CommitUpload(db, wall, kind, snapshot, key, image).value)
  {
    hide Sound, WithoutImages, WithPending, WithFull;
    ClearedForUpload(db, wall, snapshot);
    var cleared := WithoutImages(db, PendingImages(db, wall));
    
    if kind == Partial {
      WithPendingIsSound(cleared, wall, snapshot, key, image);
    } else {
      WithFullIsSound(cleared, wall, key, image);
    }
  }

  /** An upload leaves the ancestry and the matches of every non-pending image alone. */
  lemma UploadKeepsAncestry(db: Db, wall: WallId, kind: Kind, snapshot: ImageId, key: Key, image: ImageId, i: ImageId)
    requires Sound(db) && CommitUpload(db, wall, kind, snapshot, key, image).Ok?
    requires i != image && i !in PendingImages(db, wall)
    ensures i in db.images <==> i in CommitUpload(db, wall, kind, snapshot, key, image).value.images
    ensures i in db.images ==> SamePlace(CommitUpload(db, wall, kind, snapshot, key, image).value.images[i], db.images[i])
    ensures MatchesOf(CommitUpload(db, wall, kind, snapshot, key, image).value, i) == MatchesOf(db, i)
  {
    hide Sound, WithoutImages, MatchesOf;
    var cleared := WithoutImages(db, PendingImages(db, wall));
    var after := CommitUpload(db, wall, kind, snapshot, key, image).value;
    WithoutPendingIsSound(db, PendingImages(db, wall));
    hide PendingImages;
    MatchesReadRows(cleared, after, i);
  }

  lemma MatchesReadRows(a: Db, b: Db, i: ImageId)
    requires a.matches == b.matches
    ensures MatchesOf(a, i) == MatchesOf(b, i)
  {
  }

  // ---------------------------------------------------------------- applying a reset

  /** Applying `image` changes one review and the active flags of one wall. */
  lemma ActivatedKeepsParents(images: map<ImageId, Image>, wall: WallId, image: ImageId)
    requires image in images && images[image].wall == wall
    ensures OnlyActivates(images, Activated(images, wall, image), wall, image)
  {
  }

  lemma ActivatedKeepsShape(images: map<ImageId, Image>, wall: WallId, image: ImageId, parent: ImageId)
    requires Shaped(images) && ResetsFollow(images) && AtMostOneActive(images)
    requires ParentIs(images, image, parent) && IsPending(images[image]) && images[image].wall == wall
    ensures Shaped(Activated(images, wall, image))
    ensures ResetsFollow(Activated(images, wall, image))
    ensures AtMostOneActive(Activated(images, wall, image))
  {
    var after := Activated(images, wall, image);
    hide Activated, ParentIs, Shaped, ResetsFollow, AtMostOneActive;
    ActivatedKeepsParents(images, wall, image);
    ActivatedFollows(images, after, wall, image, parent);
    ActivatedIsShaped(images, after, wall, image);
  }

  ghost predicate OnlyActivates(images: map<ImageId, Image>, after: map<ImageId, Image>, wall: WallId, image: ImageId) {
    && after.Keys == images.Keys
    && (forall i, p :: ParentIs(after, i, p) <==> ParentIs(images, i, p))
    && (forall i :: i in images ==>
         && SamePlace(after[i], images[i])
         && after[i].active == (if images[i].wall == wall then i == image else images[i].active)
         && after[i].review == (if i == image then Some(Applied) else images[i].review))
  }

  lemma ActivatedIsShaped(images: map<ImageId, Image>, after: map<ImageId, Image>, wall: WallId, image: ImageId)
    requires Shaped(images) && AtMostOneActive(images) && OnlyActivates(images, after, wall, image)
    requires image in images && images[image].kind == Partial
    ensures Shaped(after) && AtMostOneActive(after)
  {
  }

  lemma ActivatedFollows(images: map<ImageId, Image>, after: map<ImageId, Image>, wall: WallId, image: ImageId, parent: ImageId)
    requires Shaped(images) && ResetsFollow(images) && AtMostOneActive(images) && OnlyActivates(images, after, wall, image)
    requires ParentIs(images, image, parent) && image in images && IsPending(images[image]) && images[image].wall == wall
    ensures ResetsFollow(after)
  {
    forall i, p | ParentIs(after, i, p) && p in after
      ensures i in after && p in after && (IsPending(after[i]) <==> after[p].active)
      ensures !IsPending(after[p])
    {
      assert ParentIs(images, i, p);
    }
  }

  lemma ActivatedKeepsShowing(images: map<ImageId, Image>, wall: WallId, image: ImageId)
    requires EveryWallShows(images) && image in images && images[image].wall == wall
    ensures EveryWallShows(Activated(images, wall, image))
  {
    var after := Activated(images, wall, image);
    forall i | i in after ensures HasActive(after, after[i].wall) {
      if after[i].wall == wall {
        assert image in after;
      } else {
        var j :| j in images && images[j].active && images[j].wall == after[i].wall;
        assert j in after;
      }
    }
  }

  lemma ActivatedKeepsLifecycle(images: map<ImageId, Image>, walls: set<WallId>, wall: WallId, image: ImageId)
    requires Lifecycle(images, walls)
    requires image in images && IsPending(images[image]) && images[image].wall == wall
    ensures Lifecycle(Activated(images, wall, image), walls)
  {
    assert images[image].parent.Some? by { hide ResetsFollow, AtMostOneActive, EveryWallShows; }
    hide ResetsFollow, AtMostOneActive, Shaped, EveryWallShows;
    ActivatedKeepsShape(images, wall, image, images[image].parent.value);
    ActivatedKeepsShowing(images, wall, image);
  }

  lemma MovedRouteIsPlaced(images: map<ImageId, Image>, route: Route, parent: ImageId, image: ImageId, matches: Matches)
    requires HoldRoles.Injective(matches) && HoldRoles.ValidRoles(route.holds)
    requires image in images && parent in images && images[image].wall == images[parent].wall
    requires route.image in images && images[route.image].wall == route.wall
    ensures HoldRoles.ValidRoles(MovedRoute(route, parent, image, matches).holds)
    ensures MovedRoute(route, parent, image, matches).image in {route.image, image}
    ensures MovedRoute(route, parent, image, matches).wall == route.wall
    ensures images[MovedRoute(route, parent, image, matches).image].wall == route.wall
  {
    HoldRoles.TranslationKeepsRolesValid(route.holds, matches);
  }

  lemma MovedRoutesArePlaced(images: map<ImageId, Image>, routes: map<RouteId, Route>, parent: ImageId, image: ImageId, matches: Matches)
    requires HoldRoles.Injective(matches) && RoutesPlaced(images, routes)
    requires image in images && parent in images && images[image].wall == images[parent].wall
    ensures RoutesPlaced(Activated(images, images[image].wall, image), MovedRoutes(routes, parent, image, matches))
  {
    hide HoldRoles.ValidRoles, MovedRoute;
    var after := Activated(images, images[image].wall, image);
    forall r | r in routes
      ensures
        var moved := MovedRoute(routes[r], parent, image, matches);
        && moved.image in after && after[moved.image].wall == moved.wall
        && !IsPending(after[moved.image]) && HoldRoles.ValidRoles(moved.holds)
    {
      MovedRouteIsPlaced(images, routes[r], parent, image, matches);
    }
  }

  lemma ActivatedKeepsRest(db: Db, image: ImageId)
    requires PartialInjection(db.images, db.holds, db.matches) && DraftsAreEmpty(db.images, db.holds, db.jobs)
    requires image in db.images && db.jobs[image] == Done
    ensures PartialInjection(Activated(db.images, db.images[image].wall, image), db.holds, db.matches)
    ensures DraftsAreEmpty(Activated(db.images, db.images[image].wall, image), db.holds, db.jobs)
  {
  }

  /** An accepted application: the image was pending, its parent active, its detection done. */
  lemma Applicable(db: Db, wall: WallId, image: ImageId)
    requires Sound(db) && ApplyReset(db, wall, image).Ok?
    ensures image in PendingImages(db, wall) && db.jobs.Keys == db.images.Keys && db.jobs[image] == Done
    ensures db.images[image].parent.Some?
    ensures IsActive(db, wall, db.images[image].parent.value) && db.images[image].parent.value < image
    ensures ParentIs(db.images, image, db.images[image].parent.value)
  {
    hide PartialInjection, RoutesPlaced, AtMostOneActive, EveryWallShows, AppliedReset;
    assert ParentIs(db.images, image, db.images[image].parent.value);
  }

  lemma AppliedIsSound(db: Db, parent: ImageId, image: ImageId)
    requires Sound(db) && image in db.images && parent in db.images
    requires IsPending(db.images[image]) && db.images[parent].wall == db.images[image].wall && db.jobs.Keys == db.images.Keys && db.jobs[image] == Done
    ensures Sound(AppliedReset(db, db.images[image].wall, parent, image))
  {
    MatchesAreAPartialInjection(db, image);
    hide PartialInjection, Lifecycle, DraftsAreEmpty, RoutesPlaced, MovedRoutes, Activated, MatchesOf;
    ActivatedKeepsLifecycle(db.images, db.walls, db.images[image].wall, image);
    ActivatedKeepsRest(db, image);
    MovedRoutesArePlaced(db.images, db.routes, parent, image, MatchesOf(db, image));
  }

  lemma ApplyIsSound(db: Db, wall: WallId, image: ImageId)
    requires Sound(db) && ApplyReset(db, wall, image).Ok?
    ensures Sound(ApplyReset(db, wall, image).value)
  {
    hide Sound, AppliedReset;
    Applicable(db, wall, image);
    AppliedIsSound(db, db.images[image].parent.value, image);
  }

  // ---------------------------------------------------------------- detection results

  /** What a worker read from the parent before inference: distinct ids that were holds of the parent. */
  ghost predicate Loaded(images: map<ImageId, Image>, holds: map<HoldId, Hold>, image: ImageId, olds: seq<HoldId>) {
    && HoldRoles.NoRepeats(olds)
    && (forall o :: o in olds && o in holds ==> ParentIs(images, image, holds[o].image))
  }

  /** The worker's matches index its own new boxes and the old holds it loaded, one-to-one. */
  ghost predicate WellIndexed(ms: seq<GreedyMatch.Match>, boxes: nat, olds: nat) {
    GreedyMatch.InjectiveMatches(ms) && GreedyMatch.InRange(ms, boxes, olds)
  }

  /** No row yet uses a loaded old hold or one of the new ids. */
  ghost predicate Untouched(matches: map<HoldId, MatchRow>, first: HoldId, olds: seq<HoldId>) {
    && (forall o :: o in olds ==> o !in matches)
    && (forall o :: o in matches ==> matches[o].newHold < first)
  }

  ghost predicate AllStillThere(holds: map<HoldId, Hold>, olds: seq<HoldId>, ms: seq<GreedyMatch.Match>)
    requires forall m :: m in ms ==> m.oldIndex < |olds|
  {
    forall m :: m in ms ==> olds[m.oldIndex] in holds
  }

  function NewRows(image: ImageId, first: HoldId, olds: seq<HoldId>, ms: seq<GreedyMatch.Match>): map<HoldId, MatchRow>
    requires forall m :: m in ms ==> m.oldIndex < |olds|
  {
    if ms == [] then map[]
    else
      var last := ms[|ms| - 1];
      assert last in ms;
      NewRows(image, first, olds, ms[..|ms| - 1])[olds[last.oldIndex] := MatchRow(image, first + last.newIndex)]
  }

  ghost predicate IsNewRow(row: MatchRow, o: HoldId, image: ImageId, first: HoldId, olds: seq<HoldId>, ms: seq<GreedyMatch.Match>)
    requires forall m :: m in ms ==> m.oldIndex < |olds|
  {
    exists m :: m in ms && olds[m.oldIndex] == o && row == MatchRow(image, first + m.newIndex)
  }

  lemma {:induction false} RowsAreNew(image: ImageId, first: HoldId, olds: seq<HoldId>, ms: seq<GreedyMatch.Match>, o: HoldId)
    requires forall m :: m in ms ==> m.oldIndex < |olds|
    ensures o in NewRows(image, first, olds, ms) ==> IsNewRow(NewRows(image, first, olds, ms)[o], o, image, first, olds, ms)
  {
    if ms != [] && o in NewRows(image, first, olds, ms) {
      var (rest, last) := (ms[..|ms| - 1], ms[|ms| - 1]);
      assert last in ms && ms == rest + [last];
      RowsAreNew(image, first, olds, rest, o);
    }
  }

  ghost predicate ReadyForMatches(db: Db, image: ImageId, first: HoldId, olds: seq<HoldId>, boxes: nat) {
    && image in db.images
    && Loaded(db.images, db.holds, image, olds) && Untouched(db.matches, first, olds)
    && forall h :: first <= h < first + boxes ==> h in db.holds && db.holds[h].image == image
  }

  lemma NewRowsDoNotCollide(image: ImageId, first: HoldId, olds: seq<HoldId>, rest: seq<GreedyMatch.Match>, m: GreedyMatch.Match, boxes: nat)
    requires WellIndexed(rest + [m], boxes, |olds|) && HoldRoles.NoRepeats(olds)
    ensures m.oldIndex < |olds| && forall x :: x in rest ==> x.oldIndex < |olds|
    ensures olds[m.oldIndex] !in NewRows(image, first, olds, rest)
    ensures forall o :: o in NewRows(image, first, olds, rest) ==> NewRows(image, first, olds, rest)[o].newHold != first + m.newIndex
  {
    assert m in rest + [m];
    assert forall x :: x in rest ==> x in rest + [m];
    forall x | x in rest ensures x.oldIndex != m.oldIndex && x.newIndex != m.newIndex {
      var i :| 0 <= i < |rest| && rest[i] == x;
      assert (rest + [m])[i] == x && (rest + [m])[|rest|] == m;
    }
    forall o | o in NewRows(image, first, olds, rest)
      ensures o != olds[m.oldIndex] && NewRows(image, first, olds, rest)[o].newHold != first + m.newIndex
    {
      RowsAreNew(image, first, olds, rest, o);
    }
  }

  lemma InsertOneMore(db: Db, rows: map<HoldId, MatchRow>, image: ImageId, first: HoldId, o: HoldId, n: HoldId)
    requires image in db.images && n in db.holds && first <= n
    requires o !in db.matches && o !in rows
    requires forall q :: q in db.matches ==> db.matches[q].newHold < first
    requires forall q :: q in rows ==> rows[q].newHold != n
    ensures InsertMatch(db.(matches := db.matches + rows), image, o, n)
         == if o in db.holds then Some(db.(matches := db.matches + rows[o := MatchRow(image, n)])) else None
  {
    var before := db.(matches := db.matches + rows);
    assert db.matches + rows[o := MatchRow(image, n)] == before.matches[o := MatchRow(image, n)];
  }

  lemma {:induction false} InsertMatchesOnlyAddsRows(db: Db, image: ImageId, first: HoldId, olds: seq<HoldId>, ms: seq<GreedyMatch.Match>)
    requires forall m :: m in ms ==> m.oldIndex < |olds|
    ensures InsertMatches(db, image, first, olds, ms).Some? ==>
      InsertMatches(db, image, first, olds, ms).value == db.(matches := InsertMatches(db, image, first, olds, ms).value.matches)
  {
    if ms != [] {
      assert forall m :: m in ms[..|ms| - 1] ==> m in ms;
      InsertMatchesOnlyAddsRows(db, image, first, olds, ms[..|ms| - 1]);
    }
  }

  /** Inserting the worker's matches fails exactly when a matched old hold has been deleted since it was loaded. */
  lemma {:induction false} InsertMatchesSucceeds(db: Db, image: ImageId, first: HoldId, olds: seq<HoldId>, boxes: nat, ms: seq<GreedyMatch.Match>)
    requires ReadyForMatches(db, image, first, olds, boxes) && WellIndexed(ms, boxes, |olds|)
    ensures InsertMatches(db, image, first, olds, ms)
         == if AllStillThere(db.holds, olds, ms) then Some(db.(matches := db.matches + NewRows(image, first, olds, ms))) else None
  {
    hide InsertMatch, AllStillThere, WellIndexed, ReadyForMatches, NewRows, InsertMatches, HoldRoles.NoRepeats;
    if ms == [] {
      NoRows(db, image, first, olds);
    } else {
      var (rest, m) := (ms[..|ms| - 1], ms[|ms| - 1]);
      assert ms == rest + [m];
      OneMoreMatch(rest, m, boxes, |olds|);
      ReadyForOne(db, image, first, olds, boxes, m);
      OneMoreRow(db, image, first, olds, rest, m);
      NewRowsDoNotCollide(image, first, olds, rest, m, boxes);
      OneMoreStillThere(db.holds, olds, rest, m);
      InsertMatchesSucceeds(db, image, first, olds, boxes, rest);
      if AllStillThere(db.holds, olds, rest) {
        InsertOneMore(db, NewRows(image, first, olds, rest), image, first, olds[m.oldIndex], first + m.newIndex);
      }
    }
  }

  lemma NoRows(db: Db, image: ImageId, first: HoldId, olds: seq<HoldId>)
    ensures AllStillThere(db.holds, olds, [])
    ensures InsertMatches(db, image, first, olds, []) == Some(db.(matches := db.matches + NewRows(image, first, olds, [])))
  {
    assert db.matches + map[] == db.matches;
  }

  lemma OneMoreRow(db: Db, image: ImageId, first: HoldId, olds: seq<HoldId>, rest: seq<GreedyMatch.Match>, m: GreedyMatch.Match)
    requires forall x :: x in rest + [m] ==> x.oldIndex < |olds|
    requires m in rest + [m] && forall x :: x in rest ==> x in rest + [m]
    ensures NewRows(image, first, olds, rest + [m])
         == NewRows(image, first, olds, rest)[olds[m.oldIndex] := MatchRow(image, first + m.newIndex)]
    ensures InsertMatches(db, image, first, olds, rest + [m]) ==
      match InsertMatches(db, image, first, olds, rest)
      case None => None
      case Some(before) => InsertMatch(before, image, olds[m.oldIndex], first + m.newIndex)
  {
    assert (rest + [m])[..|rest + [m]| - 1] == rest;
  }

  lemma ReadyForOne(db: Db, image: ImageId, first: HoldId, olds: seq<HoldId>, boxes: nat, m: GreedyMatch.Match)
    requires ReadyForMatches(db, image, first, olds, boxes) && m.newIndex < boxes && m.oldIndex < |olds|
    ensures HoldRoles.NoRepeats(olds) && image in db.images && first + m.newIndex in db.holds && olds[m.oldIndex] !in db.matches
    ensures forall q :: q in db.matches ==> db.matches[q].newHold < first
  {
    assert olds[m.oldIndex] in olds;
  }

  lemma OneMoreStillThere(holds: map<HoldId, Hold>, olds: seq<HoldId>, rest: seq<GreedyMatch.Match>, m: GreedyMatch.Match)
    requires forall x :: x in rest + [m] ==> x.oldIndex < |olds|
    requires forall x :: x in rest + [m] <==> x in rest || x == m
    ensures AllStillThere(holds, olds, rest + [m]) <==> AllStillThere(holds, olds, rest) && olds[m.oldIndex] in holds
  {
  }

  lemma OneMoreMatch(rest: seq<GreedyMatch.Match>, m: GreedyMatch.Match, boxes: nat, olds: nat)
    requires WellIndexed(rest + [m], boxes, olds)
    ensures WellIndexed(rest, boxes, olds) && m.newIndex < boxes && m.oldIndex < olds
    ensures forall x :: x in rest + [m] <==> x in rest || x == m
    ensures forall x :: x in rest + [m] ==> x.oldIndex < olds
  {
    assert forall x :: x in rest ==> x in rest + [m];
    assert m in rest + [m];
    forall i, j | 0 <= i < j < |rest| ensures rest[i].newIndex != rest[j].newIndex && rest[i].oldIndex != rest[j].oldIndex {
      assert (rest + [m])[i] == rest[i] && (rest + [m])[j] == rest[j];
    }
  }

  // ---------------------------------------------------------------- the whole result transaction

  lemma RowsAreOneToOne(image: ImageId, first: HoldId, olds: seq<HoldId>, ms: seq<GreedyMatch.Match>)
    requires GreedyMatch.InjectiveMatches(ms) && forall m :: m in ms ==> m.oldIndex < |olds|
    ensures
      var rows := NewRows(image, first, olds, ms);
      forall o, q :: o in rows && q in rows && rows[o].newHold == rows[q].newHold ==> o == q
  {
    var rows := NewRows(image, first, olds, ms);
    forall o, q | o in rows && q in rows && rows[o].newHold == rows[q].newHold ensures o == q {
      RowsAreNew(image, first, olds, ms, o);
      RowsAreNew(image, first, olds, ms, q);
      var i :| 0 <= i < |ms| && olds[ms[i].oldIndex] == o && rows[o] == MatchRow(image, first + ms[i].newIndex);
      var j :| 0 <= j < |ms| && olds[ms[j].oldIndex] == q && rows[q] == MatchRow(image, first + ms[j].newIndex);
    }
  }

  /** With the job's rows in place, the partial injection holds again. */
  lemma NewRowsAreInjective(db: Db, image: ImageId, first: HoldId, olds: seq<HoldId>, boxes: nat, ms: seq<GreedyMatch.Match>)
    requires ReadyForMatches(db, image, first, olds, boxes) && WellIndexed(ms, boxes, |olds|) && AllStillThere(db.holds, olds, ms)
    requires PartialInjection(db.images, db.holds, db.matches)
    ensures PartialInjection(db.images, db.holds, db.matches + NewRows(image, first, olds, ms))
  {
    var rows := NewRows(image, first, olds, ms);
    forall o | o in rows
      ensures o in olds && o in db.holds && rows[o].image == image
      ensures rows[o].newHold in db.holds && db.holds[rows[o].newHold].image == image && first <= rows[o].newHold
    {
      RowsAreNew(image, first, olds, ms, o);
      var m :| m in ms && olds[m.oldIndex] == o && rows[o] == MatchRow(image, first + m.newIndex);
      assert first + m.newIndex in db.holds;
    }
    RowsAreOneToOne(image, first, olds, ms);
    hide NewRows, AllStillThere, ParentIs;
  }

  /** Before the write nothing uses the loaded holds: only this reset could, and it is still empty. */
  lemma LoadedHoldsAreFree(db: Db, image: ImageId, first: HoldId, olds: seq<HoldId>)
    requires Sound(db) && image in db.images && db.images[image].kind == Partial && db.jobs[image] != Done
    requires Loaded(db.images, db.holds, image, olds)
    requires forall h :: h in db.holds ==> h < first
    ensures Untouched(db.matches, first, olds)
  {
    hide Lifecycle, RoutesPlaced;
    forall o | o in olds ensures o !in db.matches {
      if o in db.matches {
        HolderIsTheChild(db, image, o);
      }
    }
  }

  ghost predicate Writable(db: Db, image: ImageId, first: HoldId, boxes: nat, olds: seq<HoldId>, ms: seq<GreedyMatch.Match>) {
    && (forall h :: h in db.holds ==> h < first) && (forall o :: o in olds ==> o < first)
    && Loaded(db.images, db.holds, image, olds) && WellIndexed(ms, boxes, |olds|)
  }

  lemma FoundKeepsTheRest(db: Db, image: ImageId, first: HoldId, boxes: seq<Box>)
    ensures Found(db, image, first, boxes) == db.(holds := Found(db, image, first, boxes).holds)
  {
  }

  lemma FoundKeepsInjection(db: Db, image: ImageId, first: HoldId, boxes: seq<Box>)
    requires PartialInjection(db.images, db.holds, db.matches) && image in db.images
    requires forall h :: h in db.holds ==> h < first
    ensures PartialInjection(db.images, Found(db, image, first, boxes).holds, db.matches)
    ensures forall h :: first <= h < first + |boxes| ==>
      h in Found(db, image, first, boxes).holds && Found(db, image, first, boxes).holds[h].image == image
  {
    hide ParentIs;
    assert forall h :: first <= h < first + |boxes| ==> h in Detected(image, first, boxes);
  }

  /** Old ids are below the new ones, so the insert neither revives nor hides an old hold. */
  lemma FoundKeepsOlds(db: Db, image: ImageId, first: HoldId, boxes: seq<Box>, olds: seq<HoldId>, ms: seq<GreedyMatch.Match>)
    requires Writable(db, image, first, |boxes|, olds, ms)
    ensures Loaded(db.images, Found(db, image, first, boxes).holds, image, olds)
    ensures AllStillThere(Found(db, image, first, boxes).holds, olds, ms) <==> AllStillThere(db.holds, olds, ms)
  {
    hide ParentIs;
    assert forall m :: m in ms ==> olds[m.oldIndex] in olds;
    assert forall o :: o in olds ==> (o in Found(db, image, first, boxes).holds <==> o in db.holds);
  }

  lemma AlignedKeepsParents(images: map<ImageId, Image>, image: ImageId, alignment: Matrix)
    requires image in images
    ensures forall i, p :: ParentIs(Aligned(images, image, alignment), i, p) <==> ParentIs(images, i, p)
    ensures Aligned(images, image, alignment).Keys == images.Keys
    ensures forall i :: i in images ==>
      var a := Aligned(images, image, alignment)[i];
      && a.active == images[i].active && a.wall == images[i].wall && a.kind == images[i].kind
      && a.review == images[i].review && a.parent == images[i].parent
      && (i != image ==> a.alignment == images[i].alignment)
  {
  }

  lemma AlignedKeepsShape(images: map<ImageId, Image>, image: ImageId, alignment: Matrix)
    requires Shaped(images) && ResetsFollow(images) && image in images && images[image].kind == Partial
    ensures Shaped(Aligned(images, image, alignment)) && ResetsFollow(Aligned(images, image, alignment))
  {
    AlignedKeepsParents(images, image, alignment);
    hide Aligned, ParentIs;
    assert Shaped(Aligned(images, image, alignment)) by { hide ResetsFollow; }
    hide Shaped;
  }

  lemma AlignedKeepsLifecycle(images: map<ImageId, Image>, walls: set<WallId>, image: ImageId, alignment: Matrix)
    requires Lifecycle(images, walls) && image in images && images[image].kind == Partial
    ensures Lifecycle(Aligned(images, image, alignment), walls)
  {
    var after := Aligned(images, image, alignment);
    AlignedKeepsShape(images, image, alignment);
    hide Shaped, ResetsFollow;
    forall i | i in after ensures HasActive(after, after[i].wall) {
      var j :| j in images && images[j].active && images[j].wall == images[i].wall;
      assert j in after;
    }
  }

  lemma AlignedKeepsRoutes(images: map<ImageId, Image>, routes: map<RouteId, Route>, image: ImageId, alignment: Matrix)
    requires RoutesPlaced(images, routes) && image in images
    ensures RoutesPlaced(Aligned(images, image, alignment), routes)
  {
  }

  lemma DoneMayHaveHolds(db: Db, image: ImageId, first: HoldId, boxes: seq<Box>, alignment: Matrix)
    requires DraftsAreEmpty(db.images, db.holds, db.jobs) && image in db.images
    ensures DraftsAreEmpty(Aligned(db.images, image, alignment), Found(db, image, first, boxes).holds, db.jobs[image := Done])
    ensures DraftsAreEmpty(db.images, Found(db, image, first, boxes).holds, db.jobs[image := Done])
  {
  }

  lemma LoadedReadsParents(images: map<ImageId, Image>, after: map<ImageId, Image>, holds: map<HoldId, Hold>, image: ImageId, olds: seq<HoldId>)
    requires Loaded(images, holds, image, olds)
    requires forall i, p :: ParentIs(after, i, p) <==> ParentIs(images, i, p)
    ensures Loaded(after, holds, image, olds)
  {
    hide ParentIs;
  }

  lemma InjectionReadsParents(images: map<ImageId, Image>, after: map<ImageId, Image>, holds: map<HoldId, Hold>, matches: map<HoldId, MatchRow>)
    requires PartialInjection(images, holds, matches) && images.Keys == after.Keys
    requires forall i, p :: ParentIs(after, i, p) <==> ParentIs(images, i, p)
    ensures PartialInjection(after, holds, matches)
  {
    hide ParentIs;
  }

  lemma AlignedIsReady(db: Db, image: ImageId, first: HoldId, boxes: seq<Box>, alignment: Matrix, olds: seq<HoldId>, ms: seq<GreedyMatch.Match>)
    requires Sound(db) && Writable(db, image, first, |boxes|, olds, ms)
    requires image in db.images && db.images[image].kind == Partial && db.jobs[image] == Processing
    ensures
      var aligned := Found(db, image, first, boxes).(images := Aligned(db.images, image, alignment));
      && ReadyForMatches(aligned, image, first, olds, |boxes|)
      && PartialInjection(aligned.images, aligned.holds, aligned.matches)
      && (AllStillThere(aligned.holds, olds, ms) <==> AllStillThere(db.holds, olds, ms))
  {
    hide Lifecycle, RoutesPlaced, DraftsAreEmpty, Untouched, AllStillThere, ParentIs, PartialInjection, Aligned, Loaded, Found;
    var found := Found(db, image, first, boxes);
    FoundKeepsTheRest(db, image, first, boxes);
    LoadedHoldsAreFree(db, image, first, olds);
    FoundKeepsInjection(db, image, first, boxes);
    FoundKeepsOlds(db, image, first, boxes, olds, ms);
    AlignedKeepsParents(db.images, image, alignment);
    InjectionReadsParents(db.images, Aligned(db.images, image, alignment), found.holds, db.matches);
    LoadedReadsParents(db.images, Aligned(db.images, image, alignment), found.holds, image, olds);
  }

  lemma PartialWrite(db: Db, image: ImageId, first: HoldId, boxes: seq<Box>, alignment: Matrix, olds: seq<HoldId>, ms: seq<GreedyMatch.Match>)
    requires Sound(db) && Writable(db, image, first, |boxes|, olds, ms)
    requires image in db.images && db.images[image].kind == Partial && db.jobs[image] == Processing
    ensures WriteResults(db, image, first, boxes, alignment, olds, ms).Ok? <==> AllStillThere(db.holds, olds, ms)
    ensures WriteResults(db, image, first, boxes, alignment, olds, ms).Ok? ==>
      && Sound(WriteResults(db, image, first, boxes, alignment, olds, ms).value)
      && WriteResults(db, image, first, boxes, alignment, olds, ms).value.matches == db.matches + NewRows(image, first, olds, ms)
  {
    assert image in db.jobs by { hide Lifecycle, RoutesPlaced, PartialInjection; }
    hide Lifecycle, RoutesPlaced, DraftsAreEmpty, PartialInjection, AllStillThere, NewRows, InsertMatches, ReadyForMatches, Loaded;
    var aligned := Found(db, image, first, boxes).(images := Aligned(db.images, image, alignment));
    AlignedIsReady(db, image, first, boxes, alignment, olds, ms);
    InsertMatchesSucceeds(aligned, image, first, olds, |boxes|, ms);
    AlignedKeepsLifecycle(db.images, db.walls, image, alignment);
    AlignedKeepsRoutes(db.images, db.routes, image, alignment);
    DoneMayHaveHolds(db, image, first, boxes, alignment);
    if AllStillThere(aligned.holds, olds, ms) {
      NewRowsAreInjective(aligned, image, first, olds, |boxes|, ms);
    }
  }

  /** A worker's results land unless the job is not processing or a hold it matched is gone; they keep the invariant. */
  lemma WriteIsSound(db: Db, image: ImageId, first: HoldId, boxes: seq<Box>, alignment: Matrix, olds: seq<HoldId>, ms: seq<GreedyMatch.Match>)
    requires Sound(db) && Writable(db, image, first, |boxes|, olds, ms)
    ensures WriteResults(db, image, first, boxes, alignment, olds, ms).Ok? <==>
      && image in db.images && db.jobs[image] == Processing
      && (db.images[image].kind == Partial ==> AllStillThere(db.holds, olds, ms))
    ensures WriteResults(db, image, first, boxes, alignment, olds, ms).Ok? ==>
      Sound(WriteResults(db, image, first, boxes, alignment, olds, ms).value)
  {
    assert db.jobs.Keys == db.images.Keys by { hide Lifecycle, RoutesPlaced, PartialInjection; }
    hide Lifecycle, RoutesPlaced, DraftsAreEmpty, PartialInjection, NewRows, AllStillThere, InsertMatches, Loaded, WellIndexed;
    if image in db.images && db.jobs[image] == Processing {
      if db.images[image].kind == Partial {
        PartialWrite(db, image, first, boxes, alignment, olds, ms);
      } else {
        FoundKeepsInjection(db, image, first, boxes);
        DoneMayHaveHolds(db, image, first, boxes, alignment);
      }
    }
  }
}
