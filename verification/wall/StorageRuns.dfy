/**
 What becomes of stored photos over whole runs (server/internal/wall/reset.go,
 server/internal/wall/handler.go): nothing that is needed is deleted, by WallSafety, and here
 nothing that is no longer needed is forgotten.
 */
module StorageRuns {
  import opened Wrappers
  import opened Homography
  import opened HoldOutline
  import opened WallTables
  import opened WallInvariant
  import opened WallRuns
  import opened WallSafety
  import opened WallLaws
  import GreedyMatch

  /** The object is in use or waits to be deleted. */
  ghost predicate Minded(s: System, k: Key) {
    Needed(s, k) || Doomed(s, k)
  }

  /** An upload given up without its clean-up, as when the server dies between storing the photo and its row. */
  ghost predicate Forgets(s: System, e: Event, k: Key) {
    e.OnPhotos? && e.photo.AbandonUpload? && !e.photo.cleanUp && UploadHas(s, e.photo.upload, k)
  }

  /** The photos of before, with their keys. */
  ghost predicate KeepsPhotos(db: Db, after: Db) {
    && after.queued == db.queued
    && forall i :: i in db.images ==> i in after.images && after.images[i].key == db.images[i].key
  }

  lemma PhotosStayMinded(s: System, t: System, k: Key)
    requires KeepsPhotos(s.db, t.db) && s.uploads <= t.uploads && s.condemned <= t.condemned && Minded(s, k)
    ensures Minded(t, k)
  {
    if i :| ImageHas(s.db, i, k) { assert ImageHas(t.db, i, k); }
    if u :| UploadHas(s, u, k) { assert UploadHas(t, u, k); }
  }

  // ---------------------------------------------------------------- requests that take no photo away

  lemma WriteKeepsKeys(db: Db, image: ImageId, first: nat, boxes: seq<Box>, alignment: Matrix, olds: seq<nat>, ms: seq<GreedyMatch.Match>)
    requires forall m :: m in ms ==> m.oldIndex < |olds|
    requires WriteResults(db, image, first, boxes, alignment, olds, ms).Ok?
    ensures KeepsPhotos(db, WriteResults(db, image, first, boxes, alignment, olds, ms).value)
  {
    InsertMatchesOnlyAddsRows(Found(db, image, first, boxes).(images := Aligned(db.images, image, alignment)), image, first, olds, ms);
    hide InsertMatches;
  }

  lemma ApplyKeepsKeys(db: Db, wall: WallId, image: ImageId)
    requires Sound(db) && ApplyReset(db, wall, image).Ok?
    ensures KeepsPhotos(db, ApplyReset(db, wall, image).value)
  {
    hide Sound, MovedRoutes, ApplyRefusal, Activated;
    Applicable(db, wall, image);
    ActivatedKeepsParents(db.images, wall, image);
  }

  lemma ReviewStepKeepsPhotos(s: System, e: ReviewEvent)
    requires Safe(s)
    ensures var t := ReviewStep(s, e); KeepsPhotos(s.db, t.db) && t.uploads == s.uploads && t.condemned == s.condemned
  {
    hide WriteResults, ApplyReset, RestoreRefusal, MayWrite, IsLoad, Sound, KeysDistinct, ObjectsKept, SnapshotsFit;
    match e {
      case Write(load, boxes, alignment, ms) =>
        if MayWrite(s, load, boxes, ms) && WriteStep(s, load, boxes, alignment, ms) != s {
          IndicesFit(s, load, boxes, ms);
          WriteKeepsKeys(s.db, load.image, s.next, boxes, alignment, load.olds, ms);
        }
      case Apply(wall, image) => if ApplyReset(s.db, wall, image).Ok? { ApplyKeepsKeys(s.db, wall, image); }
      case _ =>
    }
  }

  lemma RouteStepKeepsPhotos(s: System, e: RouteEvent)
    ensures var t := RouteStep(s, e); KeepsPhotos(s.db, t.db) && t.uploads == s.uploads && t.condemned == s.condemned
  {
    hide ActiveHeirs, MaySave;
  }

  // ---------------------------------------------------------------- requests that do

  lemma UploadMinds(s: System, u: Upload, k: Key)
    requires Safe(s) && u in s.uploads && Minded(s, k)
    ensures Minded(UploadStep(s, u), k)
  {
    hide Sound, SnapshotsFit, KeysDistinct, ObjectsKept, CommitUpload, PendingImages, PhotoStays;
    var t := UploadStep(s, u);
    NextIsUnused(s.db, s.next);
    UploadsExactlyWhen(s.db, u.wall, u.kind, u.snapshot, u.key, s.next);
    var r := CommitUpload(s.db, u.wall, u.kind, u.snapshot, u.key, s.next);
    if v :| UploadHas(s, v, k) {
      if v == u { if r.Ok? { assert ImageHas(t.db, s.next, k); } } else { assert UploadHas(t, v, k); }
    } else if i :| ImageHas(s.db, i, k) {
      if r.Err? {
        assert ImageHas(t.db, i, k);
      } else if i in PendingImages(s.db, u.wall) {
        assert k in PendingKeys(s.db, u.wall);
      } else {
        assert PhotoStays(s.db, r.value, i);
        StaysWithItsKey(s.db, r.value, i);
        assert ImageHas(t.db, i, k);
      }
    }
  }

  lemma StaysWithItsKey(db: Db, next: Db, i: ImageId)
    requires PhotoStays(db, next, i)
    ensures i in db.images && i in next.images && next.images[i].key == db.images[i].key
  {
  }

  lemma DiscardMinds(s: System, wall: WallId, image: ImageId, k: Key)
    requires Safe(s) && Minded(s, k)
    ensures Minded(PhotoStep(s, Discard(wall, image)), k)
  {
    hide Sound, SnapshotsFit, KeysDistinct, ObjectsKept, DiscardReset, PhotoStays;
    var t := PhotoStep(s, Discard(wall, image));
    DiscardsExactlyWhen(s.db, wall, image);
    if i :| ImageHas(s.db, i, k) {
      assert i != image ==> ImageHas(t.db, i, k);
    } else if u :| UploadHas(s, u, k) {
      assert UploadHas(t, u, k);
    }
  }

  lemma RemoveWallMinds(s: System, wall: WallId, k: Key)
    requires Safe(s) && Minded(s, k)
    ensures Minded(PhotoStep(s, RemoveWall(wall)), k)
  {
    hide Sound, SnapshotsFit, KeysDistinct, ObjectsKept, DeleteWall, PhotoStays;
    var t := PhotoStep(s, RemoveWall(wall));
    DeletesWallExactlyWhen(s.db, wall);
    if i :| ImageHas(s.db, i, k) {
      assert s.db.images[i].wall != wall ==> ImageHas(t.db, i, k);
    } else if u :| UploadHas(s, u, k) {
      assert UploadHas(t, u, k);
    }
  }

  lemma AbandonMinds(s: System, u: Upload, cleanUp: bool, k: Key)
    requires Minded(s, k) && (cleanUp || !UploadHas(s, u, k))
    ensures Minded(PhotoStep(s, AbandonUpload(u, cleanUp)), k)
  {
    var t := PhotoStep(s, AbandonUpload(u, cleanUp));
    if i :| ImageHas(s.db, i, k) {
      assert ImageHas(t.db, i, k);
    } else if v :| UploadHas(s, v, k) {
      assert v != u ==> UploadHas(t, v, k);
    }
  }

  /** A stored object that was minded, or has just been stored, is minded after any step but a forgetful one. */
  lemma StepMinds(s: System, e: Event, k: Key)
    requires Safe(s) && k in Step(s, e).objects && !Forgets(s, e, k)
    requires k in s.objects ==> Minded(s, k)
    ensures Minded(Step(s, e), k)
  {
    hide Safe, Minded, KeepsPhotos, UploadStep, DiscardReset, DeleteWall, ReviewStep, RouteStep, UploadHas;
    var t := Step(s, e);
    match e {
      case OnReset(r) => ReviewStepKeepsPhotos(s, r); ReviewKeepsObjects(s, r); PhotosStayMinded(s, t, k);
      case OnRoutes(c) => RouteStepKeepsPhotos(s, c); RouteKeepsObjects(s, c); PhotosStayMinded(s, t, k);
      case OnPhotos(p) =>
        match p {
          case FinishUpload(u) => if u in s.uploads { UploadKeepsObjects(s, u); UploadMinds(s, u, k); }
          case AbandonUpload(u, cleanUp) => AbandonMinds(s, u, cleanUp, k);
          case Discard(wall, image) => DiscardMinds(s, wall, image, k);
          case RemoveWall(wall) => RemoveWallMinds(s, wall, k);
          case _ => SimplePhotoStepMinds(s, p, k);
        }
    }
  }

  lemma UploadKeepsObjects(s: System, u: Upload)
    ensures UploadStep(s, u).objects == s.objects
  {
  }

  lemma ReviewKeepsObjects(s: System, e: ReviewEvent)
    ensures ReviewStep(s, e).objects == s.objects
  {
    hide WriteResults, ApplyReset, RestoreRefusal, MayWrite, IsLoad, UpdateResetMatch, DeleteResetHold, RestoreHold;
  }

  lemma RouteKeepsObjects(s: System, e: RouteEvent)
    ensures RouteStep(s, e).objects == s.objects
  {
    hide ActiveHeirs, MaySave;
  }

  lemma SimplePhotoStepMinds(s: System, p: PhotoEvent, k: Key)
    requires p.CreateWall? || p.ReadActive? || p.StoreObject? || p.DeleteQueuedObject? || p.DeleteCondemnedObject?
    requires k in PhotoStep(s, p).objects && (k in s.objects ==> Minded(s, k))
    ensures Minded(PhotoStep(s, p), k)
  {
    var t := PhotoStep(s, p);
    if k !in s.objects {
      assert UploadHas(t, Upload(p.wall, p.kind, p.snapshot, k), k);
    } else {
      if i :| ImageHas(s.db, i, k) { assert ImageHas(t.db, i, k); }
      if u :| UploadHas(s, u, k) { assert UploadHas(t, u, k); }
    }
  }

  // ---------------------------------------------------------------- the theorem

  ghost predicate ForgottenIn(events: seq<Event>, k: Key) {
    exists n :: 0 <= n < |events| && Forgets(After(events[..n]), events[n], k)
  }

  /**
   After every run a stored object is the photo of some row or of an upload under way, or it is queued or about
   to be deleted, or the upload that stored it was given up without its clean-up.
   */
  lemma {:induction false} NothingLeaks(events: seq<Event>, k: Key)
    requires k in After(events).objects
    ensures Minded(After(events), k) || ForgottenIn(events, k)
  {
    if events != [] {
      var (rest, e) := (events[..|events| - 1], events[|events| - 1]);
      hide Safe, Minded, Forgets, Step;
      EveryRunIsSafe(rest);
      if k in After(rest).objects {
        NothingLeaks(rest, k);
        if ForgottenIn(rest, k) {
          var n :| 0 <= n < |rest| && Forgets(After(rest[..n]), rest[n], k);
          assert rest[..n] == events[..n];
        }
      }
      if Forgets(After(rest), e, k) { assert events[..|rest|] == rest; }
      if !ForgottenIn(events, k) { StepMinds(After(rest), e, k); }
    }
  }
}
