/**
 When each wall transaction succeeds in a sound state and what exactly it changes, row by row:
 reviewing matches, deleting and restoring holds of a reset, uploading, discarding, applying, and
 deleting a wall (server/internal/wall/reset.go, server/internal/wall/handler.go).
 */
module WallLaws {
  import opened Wrappers
  import opened HoldRemap
  import opened Homography
  import opened HoldOutline
  import opened WallTables
  import opened WallInvariant
  import GreedyMatch
  import HoldRoles

  // ---------------------------------------------------------------- reviewing matches

  /** A reset of the wall under review, and the photo it would replace. */
  ghost predicate UnderReview(db: Db, wall: WallId, image: ImageId, parent: ImageId) {
    && image in db.images && db.images[image].wall == wall
    && db.images[image].kind == Partial && db.images[image].review == Some(PendingReview)
    && db.images[image].parent == Some(parent)
  }

  ghost predicate OnPhoto(db: Db, h: HoldId, image: ImageId) {
    h in db.holds && db.holds[h].image == image
  }

  lemma ReviewLocks(db: Db, wall: WallId, image: ImageId)
    requires Sound(db)
    ensures forall p: ImageId :: UnderReview(db, wall, image, p) <==> LockPendingReset(db, wall, image) == Some(p)
  {
    hide PartialInjection, DraftsAreEmpty, RoutesPlaced;
  }

  /**
   A reviewer may set or clear the match of an old hold exactly on a reset under review, for a hold of the
   replaced photo and, when setting, a hold of the new one.
   */
  lemma ReviewsExactlyWhen(db: Db, wall: WallId, image: ImageId, oldHold: HoldId, newHold: Option<HoldId>)
    requires Sound(db)
    ensures UpdateResetMatch(db, wall, image, oldHold, newHold).Ok? <==>
      exists p :: UnderReview(db, wall, image, p) && OnPhoto(db, oldHold, p) && (newHold.Some? ==> OnPhoto(db, newHold.value, image))
  {
    ReviewLocks(db, wall, image);
    if LockPendingReset(db, wall, image).Some? && newHold.Some? && OnPhoto(db, oldHold, LockPendingReset(db, wall, image).value) {
      LockedResetHasParent(db, wall, image);
      UpsertNeverConflicts(db, image, oldHold, newHold.value);
    }
    hide Sound, UpsertMatch;
  }

  /** Clearing a match takes out the row of the old hold and nothing else anywhere. */
  lemma ClearingRemovesOneRow(db: Db, wall: WallId, image: ImageId, oldHold: HoldId)
    requires Sound(db) && UpdateResetMatch(db, wall, image, oldHold, None).Ok?
    ensures
      var next := UpdateResetMatch(db, wall, image, oldHold, None).value;
      && next == db.(matches := db.matches - {oldHold})
      && MatchesOf(next, image) == MatchesOf(db, image) - {oldHold}
      && forall other :: other != image ==> MatchesOf(next, other) == MatchesOf(db, other)
  {
    hide Sound, ParentIs, MatchesOf, Unmatched;
    LockedResetHasParent(db, wall, image);
    HolderIsTheChild(db, image, oldHold);
    WithoutRow(db, image, oldHold);
  }

  lemma WithoutRow(db: Db, image: ImageId, oldHold: HoldId)
    requires oldHold in db.matches ==> db.matches[oldHold].image == image
    ensures
      var next := Unmatched(db, image, oldHold);
      && next == db.(matches := db.matches - {oldHold})
      && MatchesOf(next, image) == MatchesOf(db, image) - {oldHold}
      && forall other :: other != image ==> MatchesOf(next, other) == MatchesOf(db, other)
  {
    var next := Unmatched(db, image, oldHold);
    assert next.matches == db.matches - {oldHold};
    forall other | other != image ensures MatchesOf(next, other) == MatchesOf(db, other) {}
    assert MatchesOf(next, image) == MatchesOf(db, image) - {oldHold};
  }

  /** Setting a match gives the old hold the new one, which no other hold keeps; nothing else changes. */
  lemma SettingAddsOneRow(db: Db, wall: WallId, image: ImageId, oldHold: HoldId, newHold: HoldId)
    requires Sound(db) && UpdateResetMatch(db, wall, image, oldHold, Some(newHold)).Ok?
    ensures
      var next := UpdateResetMatch(db, wall, image, oldHold, Some(newHold)).value;
      && next == db.(matches := next.matches)
      && oldHold in MatchesOf(next, image) && MatchesOf(next, image)[oldHold] == newHold
      && (forall o :: o != oldHold ==>
           (o in MatchesOf(next, image) <==> o in MatchesOf(db, image) && MatchesOf(db, image)[o] != newHold))
      && (forall o :: o != oldHold && o in MatchesOf(next, image) ==> MatchesOf(next, image)[o] == MatchesOf(db, image)[o])
      && forall other :: other != image ==> MatchesOf(next, other) == MatchesOf(db, other)
  {
    hide Sound, UpsertMatch, MatchesOf, ParentIs, IsPending;
    LockedResetHasParent(db, wall, image);
    UpsertNeverConflicts(db, image, oldHold, newHold);
  }

  /** Setting a cleared match again restores the tables. */
  lemma ClearedMatchesComeBack(db: Db, wall: WallId, image: ImageId, oldHold: HoldId)
    requires Sound(db) && UpdateResetMatch(db, wall, image, oldHold, None).Ok? && oldHold in MatchesOf(db, image)
    ensures
      var cleared := UpdateResetMatch(db, wall, image, oldHold, None).value;
      UpdateResetMatch(cleared, wall, image, oldHold, Some(MatchesOf(db, image)[oldHold])) == Ok(db)
  {
    hide Sound, UpsertMatch;
    ClearingRemovesOneRow(db, wall, image, oldHold);
    MatchedRow(db, image, oldHold);
    MatchesAreAPartialInjection(db, image);
    RowComesBack(db, image, oldHold);
  }

  lemma MatchedRow(db: Db, image: ImageId, oldHold: HoldId)
    requires Sound(db) && oldHold in MatchesOf(db, image)
    ensures oldHold in db.matches && db.matches[oldHold] == MatchRow(image, MatchesOf(db, image)[oldHold])
    ensures forall o :: o in db.matches && db.matches[o].newHold == MatchesOf(db, image)[oldHold] ==> o == oldHold
  {
    hide Lifecycle, DraftsAreEmpty, RoutesPlaced, ParentIs;
  }

  lemma RowComesBack(db: Db, image: ImageId, oldHold: HoldId)
    requires oldHold in db.matches && db.matches[oldHold].image == image && oldHold in db.holds && image in db.images
    requires db.matches[oldHold].newHold in db.holds && db.holds[db.matches[oldHold].newHold].image == image
    requires forall o :: o in db.matches && db.matches[o].newHold == db.matches[oldHold].newHold ==> o == oldHold
    ensures UpsertMatch(db.(matches := db.matches - {oldHold}), image, oldHold, db.matches[oldHold].newHold) == Ok(db)
  {
    var (n, cleared) := (db.matches[oldHold].newHold, db.(matches := db.matches - {oldHold}));
    assert WithoutMatches(cleared, image, oldHold, n).matches == cleared.matches;
    assert cleared.matches[oldHold := MatchRow(image, n)] == db.matches;
    assert cleared.(matches := db.matches) == db;
  }

  /** A route that uses a hold whose match was cleared stays where it is when the reset is applied. */
  lemma ClearedHoldsKeepTheirRoutes(db: Db, wall: WallId, image: ImageId, oldHold: HoldId, r: RouteId)
    requires Sound(db) && UpdateResetMatch(db, wall, image, oldHold, None).Ok?
    requires r in db.routes && oldHold in db.routes[r].holds.ids
    ensures
      var cleared := UpdateResetMatch(db, wall, image, oldHold, None).value;
      ApplyReset(cleared, wall, image).Ok? ==>
        r in ApplyReset(cleared, wall, image).value.routes && ApplyReset(cleared, wall, image).value.routes[r] == db.routes[r]
  {
    hide Sound, MatchesOf, ApplyRefusal, UpdateResetMatch, Activated;
    ClearingRemovesOneRow(db, wall, image, oldHold);
  }

  // ---------------------------------------------------------------- the holds of a reset

  /** The pairs that do not use the hold on either side. */
  ghost predicate Sparing(hold: HoldId, before: Matches, after: Matches) {
    && (forall o :: o in after <==> o in before && o != hold && before[o] != hold)
    && (forall o :: o in after ==> after[o] == before[o])
  }

  /** A hold goes with the rows that matched it; every other row of every table stays. */
  lemma DeletingAHold(db: Db, hold: HoldId)
    ensures
      var next := WithoutHolds(db, {hold});
      && next == db.(holds := db.holds - {hold}, matches := next.matches)
      && forall i :: Sparing(hold, MatchesOf(db, i), MatchesOf(next, i))
  {
    assert WithoutHolds(db, {hold}).holds == db.holds - {hold};
  }

  lemma DeletesResetHoldExactlyWhen(db: Db, wall: WallId, image: ImageId, hold: HoldId)
    requires Sound(db)
    ensures DeleteResetHold(db, wall, image, hold) ==
      if exists p :: UnderReview(db, wall, image, p) then (if OnPhoto(db, hold, image) then Ok(WithoutHolds(db, {hold})) else Err(NoSuchHold))
      else Err(NoSuchReset)
  {
    ReviewLocks(db, wall, image);
    hide Sound, WithoutHolds;
  }

  /** The box projects corner by corner through the inverse alignment. */
  ghost predicate Projects(box: Box, alignment: Option<Matrix>) {
    && alignment.Some? && InverseHomography(alignment.value).Some?
    && forall p :: p in Corners(box) ==> ProjectPoint(p, InverseHomography(alignment.value).value).Some?
  }

  /** An old hold can be restored exactly on a reset under review whose alignment carries its box over, and the restore then goes through. */
  lemma RestoresExactlyWhen(db: Db, wall: WallId, image: ImageId, oldHold: HoldId, newHold: HoldId, box: Box)
    requires Sound(db) && newHold !in db.holds
    ensures RestoreRefusal(db, wall, image, oldHold).None? <==>
      exists p :: UnderReview(db, wall, image, p) && OnPhoto(db, oldHold, p) && Projects(db.holds[oldHold].box, db.images[image].alignment)
    ensures RestoreRefusal(db, wall, image, oldHold).None? ==>
      var r := RestoreHold(db, image, oldHold, newHold, box);
      && r.Ok? && r.value == db.(holds := db.holds[newHold := Hold(image, box)], matches := r.value.matches)
      && MatchesOf(r.value, image) == MatchesOf(db, image)[oldHold := newHold]
  {
    hide Sound, ProjectPoint, InverseHomography, Corners, RestoreHold, MatchesOf, IsPending, UnderReview;
    ReviewLocks(db, wall, image);
    if RestoreRefusal(db, wall, image, oldHold).None? { RestoredMap(db, wall, image, oldHold, newHold, box); }
  }

  lemma RestoredMap(db: Db, wall: WallId, image: ImageId, oldHold: HoldId, newHold: HoldId, box: Box)
    requires Sound(db) && newHold !in db.holds && RestoreRefusal(db, wall, image, oldHold).None?
    ensures
      var r := RestoreHold(db, image, oldHold, newHold, box);
      && r.Ok? && r.value == db.(holds := db.holds[newHold := Hold(image, box)], matches := r.value.matches)
      && MatchesOf(r.value, image) == MatchesOf(db, image)[oldHold := newHold]
  {
    hide Sound, RestoreRefusal, MatchesOf, RestoreHold;
    RestoreIsSound(db, wall, image, oldHold, newHold, box);
    MatchesAreAPartialInjection(db, image);
    var m := MatchesOf(db, image);
    assert Rematched(m, oldHold, newHold) == m[oldHold := newHold];
  }

  // ---------------------------------------------------------------- uploads

  /** All that a photo which stays is and carries. */
  ghost predicate PhotoStays(db: Db, next: Db, i: ImageId) {
    && i in db.images && i in next.images && i in db.jobs && i in next.jobs && next.jobs[i] == db.jobs[i]
    && SamePlace(next.images[i], db.images[i]) && next.images[i].review == db.images[i].review
    && MatchesOf(next, i) == MatchesOf(db, i)
    && forall h :: OnPhoto(next, h, i) <==> OnPhoto(db, h, i)
  }

  ghost predicate HoldsStayPut(db: Db, next: Db) {
    forall h :: h in db.holds && h in next.holds ==> next.holds[h] == db.holds[h]
  }

  /** Deleting photos that no remaining photo descends from takes their rows and leaves every other photo whole. */
  lemma OtherPhotosStay(db: Db, gone: set<ImageId>)
    requires Sound(db) && Unparented(db.images, gone)
    ensures
      var next := WithoutImages(db, gone);
      && next.images.Keys == db.images.Keys - gone && next.walls == db.walls && next.routes == db.routes && next.queued == db.queued
      && (forall i :: i in db.images && i !in gone ==> PhotoStays(db, next, i) && next.images[i] == db.images[i])
      && (forall i :: i in gone ==> MatchesOf(next, i) == map[] && forall h :: !OnPhoto(next, h, i))
      && HoldsStayPut(db, next)
  {
    hide Lifecycle, PartialInjection, DraftsAreEmpty, RoutesPlaced, Unparented, WithoutImages, MatchesOf, HoldsStayPut, OnPhoto;
    NothingIsOrphaned(db, gone);
    RemainingKeepsMatches(db, gone);
    PhotosKeepHoldsAndJobs(db, gone);
    GonePhotosHaveNoMatches(db, gone);
  }

  lemma GonePhotosHaveNoMatches(db: Db, gone: set<ImageId>)
    ensures forall i :: i in gone ==> MatchesOf(WithoutImages(db, gone), i) == map[]
  {
  }

  lemma PhotosKeepHoldsAndJobs(db: Db, gone: set<ImageId>)
    requires DraftsAreEmpty(db.images, db.holds, db.jobs)
    ensures
      var next := WithoutImages(db, gone);
      && next.walls == db.walls && next.routes == db.routes && next.queued == db.queued
      && next.images.Keys == db.images.Keys - gone && HoldsStayPut(db, next)
      && (forall i, h :: i !in gone ==> (OnPhoto(next, h, i) <==> OnPhoto(db, h, i)))
      && (forall i, h :: i in gone ==> !OnPhoto(next, h, i))
      && (forall i :: i in db.images && i !in gone ==> i in db.jobs && i in next.jobs && next.jobs[i] == db.jobs[i])
  {
    hide Orphaned;
  }

  lemma PendingIsUnparented(db: Db, wall: WallId)
    requires Sound(db)
    ensures Unparented(db.images, PendingImages(db, wall))
  {
    hide PartialInjection, DraftsAreEmpty, RoutesPlaced;
    PendingHasNoReset(db.images, PendingImages(db, wall));
  }

  /**
   An upload is accepted exactly for a wall that is there and, when partial, an active photo still the one
   that was read. It takes the wall's pending reset away, leaves every other photo whole but for its active
   flag, and adds the new photo with a waiting job.
   */
  lemma UploadsExactlyWhen(db: Db, wall: WallId, kind: Kind, snapshot: ImageId, key: Key, image: ImageId)
    requires Sound(db) && image !in db.images
    ensures
      var r := CommitUpload(db, wall, kind, snapshot, key, image);
      && (r.Ok? <==> wall in db.walls && (kind == Partial ==> IsActive(db, wall, snapshot)))
      && (r.Ok? ==>
           && r.value.images.Keys == db.images.Keys - PendingImages(db, wall) + {image}
           && r.value.images[image] == (if kind == Partial then Image(wall, key, false, Some(snapshot), Partial, Some(PendingReview), None)
                                        else Image(wall, key, true, None, Full, None, None))
           && image in r.value.jobs && r.value.jobs[image] == Waiting
           && (forall i :: i in db.images && i !in PendingImages(db, wall) ==>
                PhotoStays(db, r.value, i) && r.value.images[i].active == (db.images[i].active && (kind == Full ==> db.images[i].wall != wall)))
           && r.value.routes == db.routes && r.value.walls == db.walls && r.value.queued == db.queued)
  {
    hide Sound, WithoutImages, PhotoStays, PendingImages, HoldsStayPut, Unparented, MatchesOf, OnPhoto;
    PendingIsUnparented(db, wall);
    OtherPhotosStay(db, PendingImages(db, wall));
    if CommitUpload(db, wall, kind, snapshot, key, image).Ok? { NewPhotoStays(db, wall, kind, snapshot, key, image); }
  }

  lemma NewPhotoStays(db: Db, wall: WallId, kind: Kind, snapshot: ImageId, key: Key, image: ImageId)
    requires image !in db.images && CommitUpload(db, wall, kind, snapshot, key, image).Ok?
    requires forall i :: i in db.images && i !in PendingImages(db, wall) ==> PhotoStays(db, WithoutImages(db, PendingImages(db, wall)), i)
    ensures forall i :: i in db.images && i !in PendingImages(db, wall) ==> PhotoStays(db, CommitUpload(db, wall, kind, snapshot, key, image).value, i)
  {
    hide WithoutImages, PendingImages, MatchesOf;
    var cleared := WithoutImages(db, PendingImages(db, wall));
    var next := CommitUpload(db, wall, kind, snapshot, key, image).value;
    forall i | i in db.images && i !in PendingImages(db, wall) ensures PhotoStays(db, next, i) {
      assert PhotoStays(db, cleared, i);
      MatchesReadRows(cleared, next, i);
    }
  }

  // ---------------------------------------------------------------- discarding

  /** A reset is discarded exactly while it is pending, with all that hangs on it and nothing else. */
  lemma DiscardsExactlyWhen(db: Db, wall: WallId, image: ImageId)
    requires Sound(db)
    ensures
      var r := DiscardReset(db, wall, image);
      && (r.Some? <==> exists p :: UnderReview(db, wall, image, p))
      && (r.Some? ==>
           && r.value.images == db.images - {image}
           && (forall i :: i in db.images && i != image ==> PhotoStays(db, r.value, i))
           && (forall h :: !OnPhoto(r.value, h, image)) && image !in r.value.jobs
           && r.value.routes == db.routes && r.value.walls == db.walls && r.value.queued == db.queued)
  {
    hide Sound, WithoutImages, PhotoStays, HoldsStayPut, MatchesOf, OnPhoto, Unparented, PendingImages;
    ReviewLocks(db, wall, image);
    PendingIsLocked(db, wall, image);
    if DiscardReset(db, wall, image).Some? {
      DiscardIsSound(db, wall, image);
      JobsFollowImages(DiscardReset(db, wall, image).value);
      WithoutPendingIsSound(db, {image});
      PendingHasNoResetNow(db, image);
      OtherPhotosStay(db, {image});
    }
  }

  lemma JobsFollowImages(db: Db)
    requires Sound(db)
    ensures db.jobs.Keys == db.images.Keys
  {
    hide Lifecycle, PartialInjection, RoutesPlaced;
  }

  lemma PendingHasNoResetNow(db: Db, image: ImageId)
    requires Sound(db) && image in db.images && IsPending(db.images[image])
    ensures Unparented(db.images, {image})
  {
    hide PartialInjection, DraftsAreEmpty, RoutesPlaced;
    PendingHasNoReset(db.images, {image});
  }

  lemma PendingIsLocked(db: Db, wall: WallId, image: ImageId)
    requires Sound(db)
    ensures image in PendingImages(db, wall) <==> LockPendingReset(db, wall, image).Some?
  {
    hide PartialInjection, DraftsAreEmpty, RoutesPlaced;
  }

  /** Discarding a partial upload at once restores the tables as they were without the reset it superseded. */
  lemma DiscardUndoesAnUpload(db: Db, wall: WallId, snapshot: ImageId, key: Key, image: ImageId)
    requires Sound(db) && wall in db.walls && IsActive(db, wall, snapshot) && PendingImages(db, wall) == {}
    requires forall i :: i in db.images ==> i < image
    ensures
      var r := CommitUpload(db, wall, Partial, snapshot, key, image);
      r.Ok? && DiscardReset(r.value, wall, image) == Some(db)
  {
    hide Sound, WithoutImages, WithPending, PendingImages;
    NothingToClear(db);
    WithPendingIsSound(db, wall, snapshot, key, image);
    NothingHangsOn(db, image);
    NewPhotoIsPending(db, wall, snapshot, key, image);
    NewPhotoGoes(db, wall, snapshot, key, image);
  }

  lemma NewPhotoIsPending(db: Db, wall: WallId, snapshot: ImageId, key: Key, image: ImageId)
    ensures image in PendingImages(WithPending(db, wall, snapshot, key, image), wall)
  {
  }

  lemma NewPhotoGoes(db: Db, wall: WallId, snapshot: ImageId, key: Key, image: ImageId)
    requires image !in db.images && image !in db.jobs && Sound(WithPending(db, wall, snapshot, key, image))
    requires forall h :: h in db.holds ==> db.holds[h].image != image
    requires forall o :: o in db.matches ==> db.matches[o].image != image
    ensures WithoutImages(WithPending(db, wall, snapshot, key, image), {image}) == db
  {
    hide Sound, Unparented, Orphaned, WithoutImages;
    var next := WithPending(db, wall, snapshot, key, image);
    PendingHasNoResetNow(next, image);
    NothingIsOrphaned(next, {image});
    assert Remaining(next.images, {image}) == db.images;
    RowsWithout(next, image);
    assert next.jobs - {image} == db.jobs;
  }

  lemma RowsWithout(db: Db, image: ImageId)
    requires forall h :: h in db.holds ==> db.holds[h].image != image
    requires forall o :: o in db.matches ==> db.matches[o].image != image
    ensures WithoutImages(db, {image}) == db.(images := WithoutImages(db, {image}).images, jobs := db.jobs - {image})
  {
    hide Orphaned;
    NobodyGoes(db, set h | h in db.holds && db.holds[h].image in {image});
    assert WithoutImages(db, {image}).matches == db.matches;
  }

  lemma NobodyGoes(db: Db, gone: set<HoldId>)
    requires gone == {}
    ensures WithoutHolds(db, gone) == db
  {
    assert WithoutHolds(db, gone).holds == db.holds;
    assert WithoutHolds(db, gone).matches == db.matches;
  }

  lemma NothingToClear(db: Db)
    ensures WithoutImages(db, {}) == db
  {
    NobodyGoes(db, set h | h in db.holds && db.holds[h].image in {});
    assert WithoutImages(db, {}).images == db.images;
    assert WithoutImages(db, {}).matches == db.matches;
    assert WithoutImages(db, {}).jobs == db.jobs;
  }

  lemma NothingHangsOn(db: Db, image: ImageId)
    requires Sound(db) && image !in db.images
    ensures forall h :: h in db.holds ==> db.holds[h].image != image
    ensures forall o :: o in db.matches ==> db.matches[o].image != image
    ensures image !in db.jobs
  {
    hide Lifecycle, RoutesPlaced;
  }

  // ---------------------------------------------------------------- detection results

  lemma {:induction false} EveryMatchHasItsRow(image: ImageId, first: HoldId, olds: seq<HoldId>, ms: seq<GreedyMatch.Match>, k: nat)
    requires GreedyMatch.InjectiveMatches(ms) && HoldRoles.NoRepeats(olds) && k < |ms|
    requires forall m :: m in ms ==> m.oldIndex < |olds|
    ensures olds[ms[k].oldIndex] in NewRows(image, first, olds, ms)
    ensures NewRows(image, first, olds, ms)[olds[ms[k].oldIndex]] == MatchRow(image, first + ms[k].newIndex)
  {
    var (rest, last) := (ms[..|ms| - 1], ms[|ms| - 1]);
    assert last in ms && ms[k] in ms && forall m :: m in rest ==> m in ms;
    if k < |rest| {
      assert rest[k] == ms[k];
      EveryMatchHasItsRow(image, first, olds, rest, k);
      assert olds[ms[k].oldIndex] != olds[last.oldIndex];
    }
  }

  /** Each matched pair of the worker, and no other, is in the map: the loaded old hold to the hold of its own box. */
  ghost predicate MapsAsMatched(found: Matches, first: HoldId, olds: seq<HoldId>, ms: seq<GreedyMatch.Match>)
    requires forall m :: m in ms ==> m.oldIndex < |olds|
  {
    && (forall k :: 0 <= k < |ms| ==> Indexed(ms, k, |olds|) && olds[ms[k].oldIndex] in found && found[olds[ms[k].oldIndex]] == first + ms[k].newIndex)
    && (forall o :: o in found ==> exists m :: m in ms && olds[m.oldIndex] == o)
  }

  ghost predicate Indexed(ms: seq<GreedyMatch.Match>, k: nat, n: nat)
    requires k < |ms|
  {
    ms[k].oldIndex < n
  }

  lemma RowsMapAsMatched(db: Db, image: ImageId, first: HoldId, olds: seq<HoldId>, ms: seq<GreedyMatch.Match>)
    requires GreedyMatch.InjectiveMatches(ms) && HoldRoles.NoRepeats(olds) && MatchesOf(db, image) == map[]
    requires forall m :: m in ms ==> m.oldIndex < |olds|
    ensures MapsAsMatched(MatchesOf(db.(matches := db.matches + NewRows(image, first, olds, ms)), image), first, olds, ms)
  {
    hide GreedyMatch.InjectiveMatches, HoldRoles.NoRepeats, NewRows;
    var rows := NewRows(image, first, olds, ms);
    var next := db.(matches := db.matches + rows);
    forall o | o in rows ensures rows[o].image == image && exists m :: m in ms && olds[m.oldIndex] == o {
      RowsAreNew(image, first, olds, ms, o);
    }
    assert forall o :: o in MatchesOf(db, image) <==> o in db.matches && db.matches[o].image == image;
    forall k: nat | k < |ms|
      ensures Indexed(ms, k, |olds|) && olds[ms[k].oldIndex] in MatchesOf(next, image) && MatchesOf(next, image)[olds[ms[k].oldIndex]] == first + ms[k].newIndex
    {
      assert ms[k] in ms;
      EveryMatchHasItsRow(image, first, olds, ms, k);
    }
  }

  lemma DraftsHaveNoMatches(db: Db, image: ImageId)
    requires Sound(db) && image in db.images && db.images[image].kind == Partial && db.jobs[image] == Processing
    ensures MatchesOf(db, image) == map[]
  {
    hide Lifecycle, RoutesPlaced, ParentIs;
  }

  /** Exactly the detected boxes are the new holds, in order, and the old holds stay. */
  ghost predicate BoxesBecomeHolds(db: Db, next: Db, image: ImageId, first: HoldId, boxes: seq<Box>) {
    && (forall h :: h in next.holds <==> h in db.holds || first <= h < first + |boxes|)
    && (forall h :: h in db.holds ==> next.holds[h] == db.holds[h])
    && (forall k: nat :: k < |boxes| ==> next.holds[first + k] == Hold(image, boxes[k]))
  }

  lemma FoundBoxes(db: Db, image: ImageId, first: HoldId, boxes: seq<Box>)
    requires forall h :: h in db.holds ==> h < first
    ensures BoxesBecomeHolds(db, Found(db, image, first, boxes), image, first, boxes)
  {
  }

  /**
   Results that land finish the job and store every detected box as a hold; for a reset they also store the
   alignment and map exactly the matched pairs. Nothing else changes.
   */
  lemma ResultsLand(db: Db, image: ImageId, first: HoldId, boxes: seq<Box>, alignment: Matrix, olds: seq<HoldId>, ms: seq<GreedyMatch.Match>)
    requires Sound(db) && Writable(db, image, first, |boxes|, olds, ms)
    requires WriteResults(db, image, first, boxes, alignment, olds, ms).Ok?
    ensures
      var next := WriteResults(db, image, first, boxes, alignment, olds, ms).value;
      && image in db.images && next.jobs == db.jobs[image := Done]
      && next == db.(holds := next.holds, matches := next.matches, images := next.images, jobs := next.jobs)
      && BoxesBecomeHolds(db, next, image, first, boxes)
      && (db.images[image].kind == Full ==> next.images == db.images && next.matches == db.matches)
      && (db.images[image].kind == Partial ==>
           && next.images == db.images[image := db.images[image].(alignment := Some(alignment))]
           && MapsAsMatched(MatchesOf(next, image), first, olds, ms)
           && forall other :: other != image ==> MatchesOf(next, other) == MatchesOf(db, other))
  {
    hide Sound, Loaded, BoxesBecomeHolds, MapsAsMatched, MatchesOf, InsertMatches, NewRows, GreedyMatch.InjectiveMatches, Found;
    FoundBoxes(db, image, first, boxes);
    FoundKeepsTheRest(db, image, first, boxes);
    JobsFollowImages(db);
    if db.images[image].kind == Partial {
      WrittenMaps(db, image, first, boxes, alignment, olds, ms);
    }
    SameHolds(db, Found(db, image, first, boxes), WriteResults(db, image, first, boxes, alignment, olds, ms).value, image, first, boxes);
  }

  lemma SameHolds(db: Db, found: Db, next: Db, image: ImageId, first: HoldId, boxes: seq<Box>)
    requires BoxesBecomeHolds(db, found, image, first, boxes) && next.holds == found.holds
    ensures BoxesBecomeHolds(db, next, image, first, boxes)
  {
  }

  lemma WrittenMaps(db: Db, image: ImageId, first: HoldId, boxes: seq<Box>, alignment: Matrix, olds: seq<HoldId>, ms: seq<GreedyMatch.Match>)
    requires Sound(db) && Writable(db, image, first, |boxes|, olds, ms) && image in db.images && db.images[image].kind == Partial
    requires WriteResults(db, image, first, boxes, alignment, olds, ms).Ok?
    ensures
      var next := WriteResults(db, image, first, boxes, alignment, olds, ms).value;
      && next == Found(db, image, first, boxes).(images := Aligned(db.images, image, alignment), jobs := db.jobs[image := Done], matches := next.matches)
      && MapsAsMatched(MatchesOf(next, image), first, olds, ms)
      && forall other :: other != image ==> MatchesOf(next, other) == MatchesOf(db, other)
  {
    hide Sound, Loaded, MapsAsMatched, MatchesOf, NewRows, Found;
    PartialWrite(db, image, first, boxes, alignment, olds, ms);
    DraftsHaveNoMatches(db, image);
    MatchedIndices(db, image, first, |boxes|, olds, ms);
    LoadedHoldsAreFree(db, image, first, olds);
    RowsMapAsMatched(db, image, first, olds, ms);
    var aligned := Found(db, image, first, boxes).(images := Aligned(db.images, image, alignment));
    InsertMatchesOnlyAddsRows(aligned, image, first, olds, ms);
    var next := WriteResults(db, image, first, boxes, alignment, olds, ms).value;
    var grown := db.(matches := db.matches + NewRows(image, first, olds, ms));
    forall i ensures MatchesOf(next, i) == MatchesOf(grown, i) { MatchesReadRows(next, grown, i); }
    forall other | other != image ensures MatchesOf(grown, other) == MatchesOf(db, other) {
      NewRowsLeaveOthers(db, image, first, olds, ms, other);
    }
  }

  lemma MatchedIndices(db: Db, image: ImageId, first: HoldId, boxes: nat, olds: seq<HoldId>, ms: seq<GreedyMatch.Match>)
    requires Writable(db, image, first, boxes, olds, ms)
    ensures GreedyMatch.InjectiveMatches(ms) && HoldRoles.NoRepeats(olds) && forall m :: m in ms ==> m.oldIndex < |olds|
  {
  }

  lemma NewRowsLeaveOthers(db: Db, image: ImageId, first: HoldId, olds: seq<HoldId>, ms: seq<GreedyMatch.Match>, other: ImageId)
    requires other != image && forall m :: m in ms ==> m.oldIndex < |olds|
    requires forall o :: o in olds ==> o !in db.matches
    ensures MatchesOf(db.(matches := db.matches + NewRows(image, first, olds, ms)), other) == MatchesOf(db, other)
  {
    var rows := NewRows(image, first, olds, ms);
    forall o | o in rows ensures rows[o].image == image && o in olds { RowsAreNew(image, first, olds, ms, o); }
    hide NewRows;
  }
  // ---------------------------------------------------------------- deleting a wall

  /** A wall goes with its photos and routes, its keys join the queue, and every other wall stays whole. */
  lemma DeletesWallExactlyWhen(db: Db, wall: WallId)
    requires Sound(db)
    ensures
      var r := DeleteWall(db, wall);
      && (r.Some? <==> wall in db.walls)
      && (r.Some? ==>
           && r.value.walls == db.walls - {wall}
           && (forall i :: i in r.value.images <==> i in db.images && db.images[i].wall != wall)
           && (forall i :: i in r.value.images ==> PhotoStays(db, r.value, i) && r.value.images[i] == db.images[i])
           && (forall h :: h in r.value.holds ==> db.images[r.value.holds[h].image].wall != wall)
           && (forall q :: q in r.value.routes <==> q in db.routes && db.routes[q].wall != wall)
           && (forall q :: q in r.value.routes ==> r.value.routes[q] == db.routes[q])
           && (forall k :: k in r.value.queued <==> k in db.queued || exists i :: i in db.images && db.images[i].wall == wall && db.images[i].key == k))
  {
    if wall in db.walls {
      var gone := ImagesOf(db, wall);
      WallIsUnparented(db, wall);
      OtherPhotosStay(db, gone);
      DeleteWallIsSound(db, wall);
      HoldsHavePhotos(DeleteWall(db, wall).value);
      WallRowsStay(db, wall);
    }
    hide Sound, WithoutImages, HoldsStayPut, PhotoStays, Unparented;
  }

  lemma HoldsHavePhotos(db: Db)
    requires Sound(db)
    ensures forall h :: h in db.holds ==> db.holds[h].image in db.images
  {
    hide Lifecycle, DraftsAreEmpty, RoutesPlaced;
  }

  lemma WallRowsStay(db: Db, wall: WallId)
    requires wall in db.walls && forall i :: i in db.images && i !in ImagesOf(db, wall) ==> PhotoStays(db, WithoutImages(db, ImagesOf(db, wall)), i)
    ensures forall i :: i in db.images && i !in ImagesOf(db, wall) ==> PhotoStays(db, DeleteWall(db, wall).value, i)
  {
    hide WithoutImages, MatchesOf;
    var (rest, next) := (WithoutImages(db, ImagesOf(db, wall)), DeleteWall(db, wall).value);
    forall i | i in db.images && i !in ImagesOf(db, wall) ensures PhotoStays(db, next, i) {
      assert PhotoStays(db, rest, i);
      MatchesReadRows(rest, next, i);
    }
  }

  lemma WallIsUnparented(db: Db, wall: WallId)
    requires Sound(db)
    ensures Unparented(db.images, ImagesOf(db, wall))
  {
    hide PartialInjection, DraftsAreEmpty, RoutesPlaced;
    WithoutWallKeepsLifecycle(db.images, db.walls, wall, ImagesOf(db, wall));
  }

  // ---------------------------------------------------------------- applying a reset

  /** In a sound state a reset can be applied exactly if it is under review on its wall and its detection is done. */
  lemma AppliesExactlyWhen(db: Db, wall: WallId, image: ImageId)
    requires Sound(db)
    ensures ApplyReset(db, wall, image).Ok? <==>
      (exists p :: UnderReview(db, wall, image, p)) && image in db.jobs && db.jobs[image] == Done
  {
    ReviewLocks(db, wall, image);
    if LockPendingReset(db, wall, image).Some? {
      var p := LockPendingReset(db, wall, image).value;
      LockedResetHasParent(db, wall, image);
      ReviewedParentIsActive(db, wall, image, p);
      forall r | r in db.routes && db.routes[r].image == p ensures !Rewritten(db.routes[r].holds, MatchesOf(db, image)).BadRoles? {
        RolesAreValidHere(db, r);
        HoldRoles.CompleteHoldsMeanCompleteRoles(db.routes[r].holds, MatchesOf(db, image));
      }
    }
    hide Sound, MatchesOf, Rewritten, AppliedReset;
  }

  lemma RolesAreValidHere(db: Db, r: RouteId)
    requires Sound(db) && r in db.routes
    ensures HoldRoles.ValidRoles(db.routes[r].holds)
  {
    hide Lifecycle, PartialInjection, DraftsAreEmpty, HoldRoles.ValidRoles;
  }

  lemma ReviewedParentIsActive(db: Db, wall: WallId, image: ImageId, parent: ImageId)
    requires Sound(db) && UnderReview(db, wall, image, parent)
    ensures wall in db.walls && IsActive(db, wall, parent)
  {
    hide PartialInjection, DraftsAreEmpty, RoutesPlaced;
    assert ParentIs(db.images, image, parent);
  }

  /**
   Applying a reset makes its photo the active one of the wall and moves exactly the routes of the replaced
   photo all of whose holds are matched: their holds and roles carry over whole, and every other route stays.
   */
  lemma ApplyingMovesExactly(db: Db, wall: WallId, image: ImageId, parent: ImageId, r: RouteId)
    requires Sound(db) && ApplyReset(db, wall, image).Ok? && db.images[image].parent == Some(parent) && r in db.routes
    ensures
      var next := ApplyReset(db, wall, image).value;
      && next == db.(routes := next.routes, images := next.images)
      && OnlyActivates(db.images, next.images, wall, image)
      && r in next.routes && next.routes[r].wall == db.routes[r].wall
      && if db.routes[r].image == parent && AllMatched(db.routes[r].holds.ids, MatchesOf(db, image))
         then next.routes[r].image == image && HoldsCarryOver(next.routes[r].holds, db.routes[r].holds, MatchesOf(db, image))
              && |next.routes[r].holds.ids| == |db.routes[r].holds.ids|
         else next.routes[r] == db.routes[r]
  {
    hide Sound, MatchesOf, Activated, OnlyActivates, HoldsCarryOver, AllMatched, Rewritten, ApplyRefusal, ParentIs, HoldRoles.ValidRoles;
    Applicable(db, wall, image);
    ActivatedKeepsParents(db.images, wall, image);
    RolesAreValidHere(db, r);
    var (h, m) := (db.routes[r].holds, MatchesOf(db, image));
    MovedHoldsCarryOver(h, m);
  }

  lemma MovedHoldsCarryOver(h: RouteHolds, m: Matches)
    requires HoldRoles.ValidRoles(h)
    ensures Rewritten(h, m).Complete? <==> AllMatched(h.ids, m)
    ensures !Rewritten(h, m).BadRoles?
    ensures AllMatched(h.ids, m) ==> HoldsCarryOver(Rewritten(h, m).holds, h, m) && |Rewritten(h, m).holds.ids| == |h.ids|
  {
    HoldRoles.CompleteHoldsMeanCompleteRoles(h, m);
    HoldRoles.ValidRolesDecode(h);
    TranslationCarriesOver(h, m);
    KeptWhole(h.ids, m);
    hide HoldRoles.ValidRoles, HoldsCarryOver, AllMatched, Kept, KeptRoles;
  }
}
