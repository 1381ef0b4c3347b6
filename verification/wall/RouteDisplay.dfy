/**
 What a route shows on the active photo, over whole runs: whether a reset rewrote it
 (server/internal/wall/reset.go, reset_mapper.go) or left it to be translated on
 demand (server/internal/route/legacy_remap.go), it shows the saved holds carried
 through every match map applied since it was saved.
 */
module RouteDisplay {
  import opened Wrappers
  import opened HoldRemap
  import opened Homography
  import opened HoldOutline
  import opened WallTables
  import opened WallInvariant
  import opened WallRuns
  import opened WallSafety
  import opened LazyDisplay
  import opened HoldDeletion
  import GreedyMatch
  import HoldRoles
  import IC = ImageChain

  // ---------------------------------------------------------------- one translation after another

  // ---------------------------------------------------------------- the walk over tables that agree

  // ---------------------------------------------------------------- the reference: replaying the log

  /** The saved holds through every match map applied on the wall since, emptied by a full photo. */
  function Replay(wall: WallId, log: seq<Entry>, h: RouteHolds): Outcome {
    if log == [] then Ok(h)
    else
      var before := Replay(wall, log[..|log| - 1], h);
      match log[|log| - 1]
      case ResetApplied(w, matches) => if w == wall then Then(before, matches) else before
      case PhotoReplaced(w) => if w == wall then Ok(IC.NOTHING) else before
      case HoldDeleted(_, _, _) => before
  }

  /** What deletions have taken from the replay: the heirs of the deleted holds, carried along. */
  function Lost(wall: WallId, log: seq<Entry>): set<HoldId> {
    if log == [] then {}
    else
      var before := Lost(wall, log[..|log| - 1]);
      match log[|log| - 1]
      case ResetApplied(w, matches) => if w == wall then Carried(matches, before) else before
      case PhotoReplaced(w) => if w == wall then {} else before
      case HoldDeleted(w, _, heirs) => if w == wall then before + heirs else before
  }

  function DeletedIn(log: seq<Entry>): set<HoldId> {
    set e | e in log && e.HoldDeleted? :: e.hold
  }

  /** A route on `image` showing `h`, saved as `saved`: on the active photo it mirrors the replay. */
  ghost predicate Tracks(s: System, wall: WallId, image: ImageId, h: RouteHolds, saved: Saved) {
    && saved.at <= |s.log|
    && forall active :: IsActive(s.db, wall, active) ==>
      Mirrors(Lost(wall, s.log[saved.at..]), IC.Shown(TablesOf(s.db), active, image, h), Replay(wall, s.log[saved.at..], saved.holds))
  }

  ghost predicate RoutesTrack(s: System) {
    forall r :: r in s.db.routes ==>
      r in s.saved && Tracks(s, s.db.routes[r].wall, s.db.routes[r].image, s.db.routes[r].holds, s.saved[r])
  }

  ghost predicate ReadsTrack(s: System) {
    forall r, h :: r in s.seen && r.image in s.db.images && HoldRoles.ValidRoles(h) ==>
      Tracks(s, r.wall, r.image, h, Saved(h, r.at))
  }

  ghost predicate Buried(s: System) {
    forall e :: e in s.log && e.HoldDeleted? ==> e.hold < s.next && e.hold !in s.db.holds
  }

  ghost predicate Displayed(s: System) {
    RoutesTrack(s) && ReadsTrack(s) && Buried(s)
  }

  // ---------------------------------------------------------------- steps that leave the active photos alone

  /** The shelf of a wall is the same, with the same parents and matches. */
  ghost predicate SameShelf(db: Db, after: Db, wall: WallId) {
    forall i :: i in Shelf(db, wall) ==>
      i in after.images && after.images[i].parent == db.images[i].parent && MatchesOf(after, i) == MatchesOf(db, i)
  }

  lemma SameShelfAgrees(db: Db, after: Db, wall: WallId)
    requires Sound(db) && SameShelf(db, after, wall)
    ensures AgreeOn(TablesOf(db), TablesOf(after), Shelf(db, wall))
  {
    forall i | i in Shelf(db, wall)
      ensures IC.ParentOf(TablesOf(db), i) == IC.ParentOf(TablesOf(after), i)
      ensures IC.MatchesInto(TablesOf(db), i) == IC.MatchesInto(TablesOf(after), i)
      ensures IC.ParentOf(TablesOf(db), i).Some? ==> IC.ParentOf(TablesOf(db), i).value in Shelf(db, wall)
    {
      ShelfIsClosed(db, wall, i);
    }
  }

  lemma ActiveIsOnShelf(db: Db, wall: WallId, active: ImageId)
    requires Sound(db) && IsActive(db, wall, active)
    ensures active in Shelf(db, wall)
  {
    ActiveIsNotPending(db, wall, active);
  }

  /** The wall keeps its active photo, its shelf and its part of the log. */
  ghost predicate WallUntouched(s: System, t: System, wall: WallId) {
    && SameShelf(s.db, t.db, wall)
    && (forall i :: IsActive(t.db, wall, i) ==> IsActive(s.db, wall, i))
  }

  lemma UntouchedTracks(s: System, t: System, wall: WallId, image: ImageId, h: RouteHolds, saved: Saved)
    requires Sound(s.db) && WallUntouched(s, t, wall) && t.log == s.log && Tracks(s, wall, image, h, saved)
    ensures Tracks(t, wall, image, h, saved)
  {
    forall active | IsActive(t.db, wall, active)
      ensures IC.Shown(TablesOf(t.db), active, image, h) == IC.Shown(TablesOf(s.db), active, image, h)
      ensures IsActive(s.db, wall, active)
    {
      ActiveIsOnShelf(s.db, wall, active);
      SameShelfAgrees(s.db, t.db, wall);
      ShownAgrees(TablesOf(s.db), TablesOf(t.db), Shelf(s.db, wall), active, image, h);
    }
  }

  // ---------------------------------------------------------------- one more entry in the log

  lemma ReplayOneMore(wall: WallId, log: seq<Entry>, e: Entry, at: nat, h: RouteHolds)
    requires at <= |log|
    ensures (log + [e])[at..] == log[at..] + [e]
    ensures Replay(wall, (log + [e])[at..], h) ==
      match e
      case ResetApplied(w, matches) => if w == wall then Then(Replay(wall, log[at..], h), matches) else Replay(wall, log[at..], h)
      case PhotoReplaced(w) => if w == wall then Ok(IC.NOTHING) else Replay(wall, log[at..], h)
      case HoldDeleted(_, _, _) => Replay(wall, log[at..], h)
  {
    assert (log + [e])[at..] == log[at..] + [e];
    var longer := log[at..] + [e];
    assert longer[..|longer| - 1] == log[at..];
  }

  lemma LostOneMore(wall: WallId, log: seq<Entry>, e: Entry, at: nat)
    requires at <= |log|
    ensures Lost(wall, (log + [e])[at..]) ==
      if e.wall != wall then Lost(wall, log[at..])
      else match e
        case ResetApplied(_, matches) => Carried(matches, Lost(wall, log[at..]))
        case PhotoReplaced(_) => {}
        case HoldDeleted(_, _, heirs) => Lost(wall, log[at..]) + heirs
  {
    var longer := log[at..] + [e];
    assert (log + [e])[at..] == longer && longer[..|longer| - 1] == log[at..];
  }

  lemma DeletedOneMore(log: seq<Entry>, e: Entry, at: nat)
    requires at <= |log|
    ensures DeletedIn((log + [e])[at..]) == DeletedIn(log[at..]) + if e.HoldDeleted? then {e.hold} else {}
  {
    assert (log + [e])[at..] == log[at..] + [e];
    assert forall x :: x in log[at..] + [e] <==> x in log[at..] || x == e;
  }

  /** An entry of another wall. */
  lemma ForeignEntryTracks(s: System, t: System, e: Entry, wall: WallId, image: ImageId, h: RouteHolds, saved: Saved)
    requires Sound(s.db) && WallUntouched(s, t, wall) && t.log == s.log + [e] && Tracks(s, wall, image, h, saved)
    requires e.wall != wall
    ensures Tracks(t, wall, image, h, saved)
  {
    ReplayOneMore(wall, s.log, e, saved.at, saved.holds);
    LostOneMore(wall, s.log, e, saved.at);
    forall active | IsActive(t.db, wall, active)
      ensures Mirrors(Lost(wall, t.log[saved.at..]), IC.Shown(TablesOf(t.db), active, image, h), Replay(wall, t.log[saved.at..], saved.holds))
    {
      ActiveIsOnShelf(s.db, wall, active);
      SameShelfAgrees(s.db, t.db, wall);
      ShownAgrees(TablesOf(s.db), TablesOf(t.db), Shelf(s.db, wall), active, image, h);
    }
  }

  lemma DeadHoldsAreGone(s: System, at: nat)
    requires Buried(s) && at <= |s.log|
    ensures forall x :: x in DeletedIn(s.log[at..]) ==> x < s.next && x !in s.db.holds
  {
    assert forall e :: e in s.log[at..] ==> e in s.log;
  }

  // ---------------------------------------------------------------- applying a reset

  ghost predicate Shows(s: System, active: ImageId, image: ImageId, h: RouteHolds, wall: WallId, saved: Saved) {
    && saved.at <= |s.log|
    && Mirrors(Lost(wall, s.log[saved.at..]), IC.Shown(TablesOf(s.db), active, image, h), Replay(wall, s.log[saved.at..], saved.holds))
  }

  lemma OnlyActiveTracks(s: System, active: ImageId, image: ImageId, h: RouteHolds, wall: WallId, saved: Saved)
    requires Shows(s, active, image, h, wall, saved) && forall a :: IsActive(s.db, wall, a) ==> a == active
    ensures Tracks(s, wall, image, h, saved)
  {
    hide Mirrors;
  }

  lemma ApplyKeepsMaps(db: Db, wall: WallId, image: ImageId)
    requires Sound(db) && ApplyReset(db, wall, image).Ok?
    ensures TablesOf(ApplyReset(db, wall, image).value) == TablesOf(db)
  {
    hide Sound, MovedRoutes, MatchesOf, ApplyRefusal;
    Applicable(db, wall, image);
    var after := ApplyReset(db, wall, image).value;
    forall i ensures MatchesOf(after, i) == MatchesOf(db, i) { MatchesReadRows(after, db, i); }
  }

  lemma ApplyKeepsTables(db: Db, wall: WallId, image: ImageId)
    requires Sound(db) && ApplyReset(db, wall, image).Ok?
    ensures TablesOf(ApplyReset(db, wall, image).value) == TablesOf(db)
    ensures forall a :: IsActive(ApplyReset(db, wall, image).value, wall, a) ==> a == image
    ensures forall w, a :: w != wall ==> (IsActive(ApplyReset(db, wall, image).value, w, a) <==> IsActive(db, w, a))
    ensures forall w :: SameShelf(db, ApplyReset(db, wall, image).value, w)
  {
    hide Sound, MovedRoutes, MatchesOf, ApplyRefusal, TablesOf;
    Applicable(db, wall, image);
    ApplyKeepsMaps(db, wall, image);
    var after := ApplyReset(db, wall, image).value;
    forall i ensures MatchesOf(after, i) == MatchesOf(db, i) { MatchesReadRows(after, db, i); }
  }

  lemma AppliedParent(db: Db, wall: WallId, image: ImageId)
    requires Sound(db) && ApplyReset(db, wall, image).Ok?
    ensures image in db.images && db.images[image].parent.Some? && IsActive(db, wall, db.images[image].parent.value)
    ensures IC.ParentOf(TablesOf(db), image) == db.images[image].parent
    ensures IC.MatchesInto(TablesOf(db), image) == MatchesOf(db, image)
    ensures image !in Shelf(db, wall)
  {
    hide Sound, MatchesOf, ApplyReset;
    Applicable(db, wall, image);
  }

  lemma MapsAvoidTheDead(s: System, at: nat, image: ImageId)
    requires Sound(s.db) && Buried(s) && at <= |s.log|
    ensures MatchesOf(s.db, image).Keys !! DeletedIn(s.log[at..])
  {
    hide Sound, MatchesOf, DeletedIn, Buried;
    DeadHoldsAreGone(s, at);
    MatchesAreAPartialInjection(s.db, image);
  }

  /** On the applied photo every route shows what it showed before, through the reset's matches, in both records. */
  lemma ApplyCarries(s: System, wall: WallId, image: ImageId, route: ImageId, h: RouteHolds, saved: Saved)
    requires Sound(s.db) && ApplyReset(s.db, wall, image).Ok? && route != image
    requires Tracks(s, wall, route, h, saved)
    ensures Shows(ApplyStep(s, wall, image), image, route, h, wall, saved)
    ensures IsActive(s.db, wall, route) && Translated(h, MatchesOf(s.db, image)).Ok? ==>
      Shows(ApplyStep(s, wall, image), image, image, Translated(h, MatchesOf(s.db, image)).value, wall, saved)
  {
    hide Sound, MatchesOf, TablesOf, Mirrors, Lost, ApplyReset, IC.ParentOf, IC.MatchesInto, Replay, IC.Shown;
    AppliedParent(s.db, wall, image);
    var t := ApplyStep(s, wall, image);
    var matches := MatchesOf(s.db, image);
    var parent := s.db.images[image].parent.value;
    var dead := Lost(wall, s.log[saved.at..]);
    ApplyKeepsTables(s.db, wall, image);
    ReplayOneMore(wall, s.log, ResetApplied(wall, matches), saved.at, saved.holds);
    LostOneMore(wall, s.log, ResetApplied(wall, matches), saved.at);
    MatchesAreAPartialInjection(s.db, image);
    MirrorThroughMatches(dead, IC.Shown(TablesOf(s.db), parent, route, h), Replay(wall, s.log[saved.at..], saved.holds), matches);
    ShownThroughParent(TablesOf(s.db), image, parent, route, h);
    if IsActive(s.db, wall, route) && Translated(h, matches).Ok? {
      OneActiveImage(s.db, wall, route, parent);
      ShownInPlace(TablesOf(s.db), parent, h);
      ShownInPlace(TablesOf(s.db), image, Translated(h, matches).value);
    }
  }

  lemma OneActiveImage(db: Db, wall: WallId, a: ImageId, b: ImageId)
    requires Sound(db) && IsActive(db, wall, a) && IsActive(db, wall, b)
    ensures a == b
  {
    hide PartialInjection, DraftsAreEmpty, RoutesPlaced, Shaped, ResetsFollow, EveryWallShows;
  }

  lemma ApplyMovesRoute(s: System, wall: WallId, image: ImageId, r: RouteId)
    requires Fit(s) && Displayed(s) && ApplyReset(s.db, wall, image).Ok? && r in s.db.routes
    ensures
      var t := ApplyStep(s, wall, image);
      r in t.db.routes && Tracks(t, t.db.routes[r].wall, t.db.routes[r].image, t.db.routes[r].holds, t.saved[r])
  {
    var t := ApplyStep(s, wall, image);
    var route := s.db.routes[r];
    var parent := s.db.images[image].parent.value;
    AppliedParent(s.db, wall, image);
    ApplyKeepsTables(s.db, wall, image);
    RouteIsOnShelf(s.db, r);
    AppliedRoute(s.db, wall, image, r);
    hide Sound, IdsBelow, SnapshotsFit, MatchesOf, TablesOf, Mirrors, DeletedIn, ApplyReset, MovedRoute, ReadsTrack, Shows, Tracks, Shelf;
    if route.wall == wall {
      ApplyCarries(s, wall, image, route.image, route.holds, s.saved[r]);
      OnlyActiveTracks(t, image, t.db.routes[r].image, t.db.routes[r].holds, wall, s.saved[r]);
    } else {
      ForeignEntryTracks(s, t, ResetApplied(wall, MatchesOf(s.db, image)), route.wall, route.image, route.holds, s.saved[r]);
    }
  }

  lemma RouteIsOnShelf(db: Db, r: RouteId)
    requires Sound(db) && r in db.routes
    ensures db.routes[r].image in Shelf(db, db.routes[r].wall)
  {
    hide Lifecycle, PartialInjection, DraftsAreEmpty, HoldRoles.ValidRoles;
  }

  /** Either the route stays, or it sat on the parent and every hold was translated. */
  lemma AppliedRoute(db: Db, wall: WallId, image: ImageId, r: RouteId)
    requires Sound(db) && ApplyReset(db, wall, image).Ok? && r in db.routes
    ensures
      var after := ApplyReset(db, wall, image).value;
      && r in after.routes && after.routes[r].wall == db.routes[r].wall
      && (after.routes[r] == db.routes[r]
          || (after.routes[r].image == image && db.routes[r].wall == wall && IsActive(db, wall, db.routes[r].image)
              && Ok(after.routes[r].holds) == Translated(db.routes[r].holds, MatchesOf(db, image))))
  {
    Applicable(db, wall, image);
    RouteIsOnShelf(db, r);
    hide Sound, MatchesOf, Translated, Rewritten;
    RewrittenIsTranslated(db.routes[r].holds, MatchesOf(db, image));
  }

  lemma RewrittenIsTranslated(h: RouteHolds, matches: Matches)
    ensures Rewritten(h, matches).Complete? ==> Ok(Rewritten(h, matches).holds) == Translated(h, matches)
  {
  }

  lemma ReadIsOnShelf(s: System, read: Read)
    requires Fit(s) && read in s.seen && read.image in s.db.images
    ensures read.image in Shelf(s.db, read.wall)
  {
    hide Sound, IdsBelow;
  }

  lemma ApplyKeepsRead(s: System, wall: WallId, image: ImageId, read: Read, h: RouteHolds)
    requires Fit(s) && Displayed(s) && ApplyReset(s.db, wall, image).Ok?
    requires read in s.seen && read.image in s.db.images && HoldRoles.ValidRoles(h)
    ensures Tracks(ApplyStep(s, wall, image), read.wall, read.image, h, Saved(h, read.at))
  {
    var t := ApplyStep(s, wall, image);
    AppliedParent(s.db, wall, image);
    ApplyKeepsTables(s.db, wall, image);
    ReadIsOnShelf(s, read);
    assert Tracks(s, read.wall, read.image, h, Saved(h, read.at)) by { hide Fit, ApplyReset, Tracks, HoldRoles.ValidRoles, RoutesTrack, Buried; }
    hide Sound, IdsBelow, SnapshotsFit, MatchesOf, TablesOf, Mirrors, DeletedIn, ApplyReset, RoutesTrack, ReadsTrack, Shows, Tracks, Shelf;
    if read.wall == wall {
      ApplyCarries(s, wall, image, read.image, h, Saved(h, read.at));
      OnlyActiveTracks(t, image, read.image, h, wall, Saved(h, read.at));
    } else {
      ForeignEntryTracks(s, t, ResetApplied(wall, MatchesOf(s.db, image)), read.wall, read.image, h, Saved(h, read.at));
    }
  }

  lemma ApplyTracksRoutes(s: System, wall: WallId, image: ImageId)
    requires Fit(s) && Displayed(s) && ApplyReset(s.db, wall, image).Ok?
    ensures RoutesTrack(ApplyStep(s, wall, image))
  {
    hide Fit, Displayed, ApplyReset, Tracks, MatchesOf;
    ApplyKeepsKeys(s.db, wall, image);
    forall r | r in s.db.routes
      ensures
        var t := ApplyStep(s, wall, image);
        r in t.saved && Tracks(t, t.db.routes[r].wall, t.db.routes[r].image, t.db.routes[r].holds, t.saved[r])
    {
      ApplyMovesRoute(s, wall, image, r);
      SavedRoutes(s, r);
    }
  }

  lemma SavedRoutes(s: System, r: RouteId)
    requires Displayed(s) && r in s.db.routes
    ensures r in s.saved && Tracks(s, s.db.routes[r].wall, s.db.routes[r].image, s.db.routes[r].holds, s.saved[r])
  {
  }

  lemma ApplyTracksReads(s: System, wall: WallId, image: ImageId)
    requires Fit(s) && Displayed(s) && ApplyReset(s.db, wall, image).Ok?
    ensures ReadsTrack(ApplyStep(s, wall, image))
  {
    hide Fit, Displayed, ApplyReset, Tracks, MatchesOf, HoldRoles.ValidRoles;
    ApplyKeepsKeys(s.db, wall, image);
    forall read, h | read in s.seen && read.image in s.db.images && HoldRoles.ValidRoles(h)
      ensures Tracks(ApplyStep(s, wall, image), read.wall, read.image, h, Saved(h, read.at))
    {
      ApplyKeepsRead(s, wall, image, read, h);
    }
  }

  lemma ApplyDisplays(s: System, wall: WallId, image: ImageId)
    requires Fit(s) && Displayed(s) && ApplyReset(s.db, wall, image).Ok?
    ensures Displayed(ApplyStep(s, wall, image))
  {
    ApplyTracksRoutes(s, wall, image);
    ApplyTracksReads(s, wall, image);
    ApplyKeepsKeys(s.db, wall, image);
    hide Fit, ApplyReset, RoutesTrack, ReadsTrack, MatchesOf, Buried;
    BuriedStays(s, ApplyStep(s, wall, image), ResetApplied(wall, MatchesOf(s.db, image)));
  }

  /** No hold comes back. */
  lemma BuriedStays(s: System, t: System, e: Entry)
    requires Buried(s) && s.next <= t.next && forall h :: h in t.db.holds && h < s.next ==> h in s.db.holds
    requires t.log == s.log || (t.log == s.log + [e] && (e.HoldDeleted? ==> e.hold < t.next && e.hold !in t.db.holds))
    ensures Buried(t)
  {
    assert t.log == s.log + [e] ==> forall x :: x in t.log <==> x in s.log || x == e;
  }

  lemma ApplyKeepsKeys(db: Db, wall: WallId, image: ImageId)
    requires ApplyReset(db, wall, image).Ok?
    ensures ApplyReset(db, wall, image).value.routes.Keys == db.routes.Keys
    ensures ApplyReset(db, wall, image).value.images.Keys == db.images.Keys
    ensures ApplyReset(db, wall, image).value.holds == db.holds
  {
    hide MovedRoute;
  }

  // ---------------------------------------------------------------- a full photo

  lemma NewFullPhoto(db: Db, wall: WallId, snapshot: ImageId, key: Key, next: ImageId)
    requires Sound(db) && CommitUpload(db, wall, Full, snapshot, key, next).Ok? && next !in db.images
    ensures forall a :: IsActive(CommitUpload(db, wall, Full, snapshot, key, next).value, wall, a) ==> a == next
    ensures IC.ParentOf(TablesOf(CommitUpload(db, wall, Full, snapshot, key, next).value), next).None?
  {
    hide Sound, WithoutImages, MatchesOf;
  }

  lemma UploadLeavesWall(s: System, u: Upload, w: WallId)
    requires Fit(s) && CommitUpload(s.db, u.wall, u.kind, u.snapshot, u.key, s.next).Ok?
    requires w != u.wall || u.kind == Partial
    ensures WallUntouched(s, UploadStep(s, u), w)
  {
    hide Sound, SnapshotsFit, MatchesOf, CommitUpload, Shelf;
    SoundNow(s);
    forall i | i in Shelf(s.db, w)
      ensures var after := CommitUpload(s.db, u.wall, u.kind, u.snapshot, u.key, s.next).value;
        && i in s.db.images && i in after.images
        && after.images[i].parent == s.db.images[i].parent && MatchesOf(after, i) == MatchesOf(s.db, i)
    {
      ShelvedIsNotPending(s.db, w, u.wall, i, s.next);
      UploadKeepsAncestry(s.db, u.wall, u.kind, u.snapshot, u.key, s.next, i);
    }
    UploadedActive(s.db, u.wall, u.kind, u.snapshot, u.key, s.next, w);
  }

  lemma ShelvedIsNotPending(db: Db, w: WallId, wall: WallId, i: ImageId, next: nat)
    requires IdsBelow(db, next) && i in Shelf(db, w)
    ensures i in db.images && i < next && i !in PendingImages(db, wall)
  {
  }

  lemma UploadedActive(db: Db, wall: WallId, kind: Kind, snapshot: ImageId, key: Key, next: ImageId, w: WallId)
    requires Sound(db) && CommitUpload(db, wall, kind, snapshot, key, next).Ok?
    requires w != wall || kind == Partial
    ensures forall a :: IsActive(CommitUpload(db, wall, kind, snapshot, key, next).value, w, a) ==> IsActive(db, w, a)
  {
    hide Sound, WithoutImages, PendingImages, Remaining, MatchesOf;
    PendingArePending(db, wall);
    WithoutPendingIsSound(db, PendingImages(db, wall));
    RemainingIsPart(db.images, PendingImages(db, wall));
  }

  lemma PendingArePending(db: Db, wall: WallId)
    ensures forall i :: i in PendingImages(db, wall) ==> i in db.images && IsPending(db.images[i])
  {
  }

  lemma RemainingIsPart(images: map<ImageId, Image>, gone: set<ImageId>)
    ensures forall i :: i in Remaining(images, gone) ==> i in images && Remaining(images, gone)[i] == images[i]
  {
  }

  /** After a full photo both records are empty. */
  lemma FullPhotoEmpties(s: System, u: Upload, route: ImageId, h: RouteHolds, saved: Saved)
    requires Sound(s.db) && u in s.uploads && u.kind == Full && CommitUpload(s.db, u.wall, u.kind, u.snapshot, u.key, s.next).Ok?
    requires s.next !in s.db.images && route != s.next && saved.at <= |s.log|
    ensures Tracks(UploadStep(s, u), u.wall, route, h, saved)
  {
    var t := UploadStep(s, u);
    NewFullPhoto(s.db, u.wall, u.snapshot, u.key, s.next);
    ReplayOneMore(u.wall, s.log, PhotoReplaced(u.wall), saved.at, saved.holds);
    LostOneMore(u.wall, s.log, PhotoReplaced(u.wall), saved.at);
    hide Sound, CommitUpload, TablesOf, Lost;
    FullPhotoShowsNothing(TablesOf(t.db), s.next, route, h);
    OnlyActiveTracks(t, s.next, route, h, u.wall, saved);
  }

  // ---------------------------------------------------------------- deleting a hold of the active photo

  lemma ShelfMember(db: Db, wall: WallId, i: ImageId)
    ensures i in Shelf(db, wall) <==> i in db.images && db.images[i].wall == wall && !IsPending(db.images[i])
  {
  }

  // ---------------------------------------------------------------- whole steps

  /** Whether every route and every snapshot of one wall still tracks after a step. */
  ghost predicate WallKeepsUp(s: System, t: System, wall: WallId) {
    forall image, h, saved :: image in Shelf(s.db, wall) && Tracks(s, wall, image, h, saved) && Listed(h) ==>
      Tracks(t, wall, image, h, saved)
  }

  ghost predicate HasPhotos(db: Db, wall: WallId) {
    exists i :: i in db.images && db.images[i].wall == wall
  }

  /** Routes and snapshots are those of before (some may be gone), and no deleted hold is back. */
  ghost predicate SameRecords(s: System, t: System) {
    && t.saved == s.saved && t.seen == s.seen && Evolves(s.db, t.db, s.next)
    && (forall r :: r in t.db.routes ==> r in s.db.routes && t.db.routes[r] == s.db.routes[r])
  }

  lemma KeepUp(s: System, t: System, wall: WallId, image: ImageId, h: RouteHolds, saved: Saved)
    requires WallKeepsUp(s, t, wall) && image in Shelf(s.db, wall) && Tracks(s, wall, image, h, saved) && Listed(h)
    ensures Tracks(t, wall, image, h, saved)
  {
    hide Tracks, Shelf;
  }

  lemma RoutesKeepUp(s: System, t: System)
    requires Fit(s) && Displayed(s) && Sound(t.db) && SameRecords(s, t)
    requires forall w :: HasPhotos(t.db, w) ==> WallKeepsUp(s, t, w)
    ensures RoutesTrack(t)
  {
    SoundNow(s);
    hide Fit, Displayed, Sound, Evolves, Tracks, Shelf, HasPhotos, WallKeepsUp;
    forall r | r in t.db.routes
      ensures r in t.saved && Tracks(t, t.db.routes[r].wall, t.db.routes[r].image, t.db.routes[r].holds, t.saved[r])
    {
      RouteHasPhotos(t.db, r);
      RouteIsOnShelf(s.db, r);
      SavedRoutes(s, r);
      RouteRolesAreValid(s.db, r);
      ValidRolesAreListed(s.db.routes[r].holds);
      KeepUp(s, t, s.db.routes[r].wall, s.db.routes[r].image, s.db.routes[r].holds, s.saved[r]);
    }
  }

  lemma ReadsKeepUp(s: System, t: System)
    requires Fit(s) && Displayed(s) && SameRecords(s, t)
    requires forall w :: HasPhotos(t.db, w) ==> WallKeepsUp(s, t, w)
    ensures ReadsTrack(t)
  {
    hide Fit, Displayed, Evolves, Tracks, Shelf, HasPhotos, WallKeepsUp, HoldRoles.ValidRoles;
    forall read, h | read in t.seen && read.image in t.db.images && HoldRoles.ValidRoles(h)
      ensures Tracks(t, read.wall, read.image, h, Saved(h, read.at))
    {
      ReadStaysRead(s, t, read);
      ReadIsOnShelf(s, read);
      ReadTracks(s, read, h);
      ValidRolesAreListed(h);
      KeepUp(s, t, read.wall, read.image, h, Saved(h, read.at));
    }
  }

  lemma RouteHasPhotos(db: Db, r: RouteId)
    requires Sound(db) && r in db.routes
    ensures HasPhotos(db, db.routes[r].wall)
  {
    hide Lifecycle, PartialInjection, DraftsAreEmpty, HoldRoles.ValidRoles;
  }

  lemma ReadStaysRead(s: System, t: System, read: Read)
    requires Fit(s) && Evolves(s.db, t.db, s.next) && read in s.seen && read.image in t.db.images
    ensures read.image in s.db.images && HasPhotos(t.db, read.wall)
  {
    hide Sound, IdsBelow;
    assert t.db.images[read.image].wall == read.wall;
  }

  lemma ReadTracks(s: System, read: Read, h: RouteHolds)
    requires Displayed(s) && read in s.seen && read.image in s.db.images && HoldRoles.ValidRoles(h)
    ensures Tracks(s, read.wall, read.image, h, Saved(h, read.at))
  {
    hide Tracks, HoldRoles.ValidRoles, RoutesTrack, Buried;
  }

  /** A step that leaves the shelves of the walls that stay, and the log, alone. */
  ghost predicate Quiet(s: System, t: System) {
    && SameRecords(s, t) && t.log == s.log && s.next <= t.next
    && forall w :: HasPhotos(t.db, w) ==> WallUntouched(s, t, w)
  }

  lemma QuietDisplays(s: System, t: System)
    requires Fit(s) && Displayed(s) && Sound(t.db) && Quiet(s, t)
    ensures Displayed(t)
  {
    hide Fit, Sound, SameRecords, WallUntouched, HasPhotos, Shelf;
    SoundNow(s);
    forall w | HasPhotos(t.db, w) ensures WallKeepsUp(s, t, w) {
      forall image, h, saved | image in Shelf(s.db, w) && Tracks(s, w, image, h, saved) ensures Tracks(t, w, image, h, saved) {
        UntouchedTracks(s, t, w, image, h, saved);
      }
    }
    RoutesKeepUp(s, t);
    ReadsKeepUp(s, t);
    HoldsOnlyLeave(s, t);
    hide RoutesTrack, ReadsTrack, Buried;
    BuriedStays(s, t, PhotoReplaced(0));
  }

  lemma SoundNow(s: System)
    requires Fit(s)
    ensures Sound(s.db) && IdsBelow(s.db, s.next)
  {
  }

  lemma HoldsOnlyLeave(s: System, t: System)
    requires SameRecords(s, t)
    ensures forall h :: h in t.db.holds && h < s.next ==> h in s.db.holds
  {
  }

  lemma UploadKeepsRecords(s: System, u: Upload)
    requires Fit(s) && u in s.uploads && CommitUpload(s.db, u.wall, u.kind, u.snapshot, u.key, s.next).Ok?
    ensures SameRecords(s, UploadStep(s, u)) && Sound(UploadStep(s, u).db)
    ensures CommitUpload(s.db, u.wall, u.kind, u.snapshot, u.key, s.next).value.routes == s.db.routes
  {
    SoundNow(s);
    hide Fit, Sound, Evolves, IdsBelow, WithoutImages, PendingImages;
    UploadEvolves(s.db, u.wall, u.kind, u.snapshot, u.key, s.next);
    ImageIdsBelow(s.db, s.next);
    UploadIsSound(s.db, u.wall, u.kind, u.snapshot, u.key, s.next);
    UploadKeepsRoutes(s.db, u.wall, u.kind, u.snapshot, u.key, s.next);
    hide CommitUpload;
  }

  lemma ImageIdsBelow(db: Db, next: nat)
    requires IdsBelow(db, next)
    ensures forall i :: i in db.images ==> i < next
  {
  }

  lemma UploadKeepsRoutes(db: Db, wall: WallId, kind: Kind, snapshot: ImageId, key: Key, next: ImageId)
    requires CommitUpload(db, wall, kind, snapshot, key, next).Ok?
    ensures CommitUpload(db, wall, kind, snapshot, key, next).value.routes == db.routes
  {
  }

  lemma FullUploadDisplays(s: System, u: Upload)
    requires Fit(s) && Displayed(s) && u in s.uploads && u.kind == Full
    requires CommitUpload(s.db, u.wall, u.kind, u.snapshot, u.key, s.next).Ok?
    ensures Displayed(UploadStep(s, u))
  {
    var t := UploadStep(s, u);
    SoundNow(s);
    UploadKeepsRecords(s, u);
    NextIsUnused(s.db, s.next);
    hide Fit, Sound, SameRecords, Displayed, IdsBelow, Tracks, Shelf, WallUntouched, CommitUpload;
    forall w ensures WallKeepsUp(s, t, w) {
      FullUploadKeepsUp(s, u, w);
    }
    RoutesKeepUp(s, t);
    ReadsKeepUp(s, t);
    HoldsOnlyLeave(s, t);
    IsBuried(s);
    BuriedStays(s, t, PhotoReplaced(u.wall));
    DisplayedFrom(t);
  }

  lemma IsBuried(s: System)
    requires Displayed(s)
    ensures Buried(s)
  {
  }

  lemma DisplayedFrom(s: System)
    requires RoutesTrack(s) && ReadsTrack(s) && Buried(s)
    ensures Displayed(s)
  {
  }

  lemma TracksInLog(s: System, wall: WallId, image: ImageId, h: RouteHolds, saved: Saved)
    requires Tracks(s, wall, image, h, saved)
    ensures saved.at <= |s.log|
  {
  }

  lemma FullUploadKeepsUp(s: System, u: Upload, w: WallId)
    requires Fit(s) && u in s.uploads && u.kind == Full
    requires CommitUpload(s.db, u.wall, u.kind, u.snapshot, u.key, s.next).Ok?
    ensures WallKeepsUp(s, UploadStep(s, u), w)
  {
    var t := UploadStep(s, u);
    SoundNow(s);
    NextIsUnused(s.db, s.next);
    if w != u.wall {
      UploadLeavesWall(s, u, w);
    }
    forall image, h, saved | image in Shelf(s.db, w) && Tracks(s, w, image, h, saved) ensures Tracks(t, w, image, h, saved) {
      hide Fit, Sound, IdsBelow, Tracks, CommitUpload, WallUntouched;
      TracksInLog(s, w, image, h, saved);
      if w == u.wall {
        FullPhotoEmpties(s, u, image, h, saved);
      } else {
        ForeignEntryTracks(s, t, PhotoReplaced(u.wall), w, image, h, saved);
      }
    }
    hide Fit, Sound, IdsBelow, Tracks, CommitUpload, WallUntouched, Shelf;
  }

  lemma PartialUploadDisplays(s: System, u: Upload)
    requires Fit(s) && Displayed(s) && u in s.uploads && u.kind == Partial
    requires CommitUpload(s.db, u.wall, u.kind, u.snapshot, u.key, s.next).Ok?
    ensures Displayed(UploadStep(s, u))
  {
    hide Fit, Sound, SameRecords, Displayed, WallUntouched, CommitUpload, HasPhotos, SnapshotsFit, Evolves;
    var t := UploadStep(s, u);
    UploadKeepsRecords(s, u);
    forall w ensures WallUntouched(s, t, w) { UploadLeavesWall(s, u, w); }
    QuietDisplays(s, t);
  }

  // ---------------------------------------------------------------- deleting a hold

  /** Only the map of a hold's photo and that of the photo's reset can change when it is deleted. */
  lemma MapStays(db: Db, x: HoldId, i: ImageId)
    requires Sound(db) && x in db.holds && i != db.holds[x].image && !ParentIs(db.images, i, db.holds[x].image)
    ensures MatchesOf(WithoutHolds(db, {x}), i) == MatchesOf(db, i)
  {
    hide Sound, MatchesOf, WithoutHolds, HoldRoles.Injective;
    MatchesAreAPartialInjection(db, i);
    DeletionStrikes(db, x, i);
    assert Struck(MatchesOf(db, i), x) == MatchesOf(db, i);
  }

  /** The maps and photos of other walls do not know the hold. */
  lemma DeletionLeavesWall(s: System, t: System, x: HoldId, w: WallId)
    requires Sound(s.db) && x in s.db.holds && s.db.holds[x].image in s.db.images && s.db.images[s.db.holds[x].image].wall != w
    requires t.db == WithoutHolds(s.db, {x})
    ensures WallUntouched(s, t, w)
  {
    hide Sound, MatchesOf, WithoutHolds, TablesOf, IC.ParentOf, IC.MatchesInto, Shelf;
    WithoutHoldsKeepsImages(s.db, {x});
    forall i | i in Shelf(s.db, w)
      ensures i in s.db.images && i in t.db.images
        && t.db.images[i].parent == s.db.images[i].parent && MatchesOf(t.db, i) == MatchesOf(s.db, i)
    {
      ShelfMember(s.db, w, i);
      ShelfIsClosed(s.db, w, i);
      if s.db.images[i].parent.Some? { ShelfMember(s.db, w, s.db.images[i].parent.value); }
      MapStays(s.db, x, i);
    }
  }

  lemma DeletionKeepsUp(s: System, t: System, x: HoldId, wall: WallId, w: WallId)
    requires Fit(s) && x in s.db.holds && s.db.holds[x].image in s.db.images && s.db.images[s.db.holds[x].image].wall == wall
    requires t.db == WithoutHolds(s.db, {x}) && t.log == s.log + [HoldDeleted(wall, x, ActiveHeirs(s.db, wall, x))]
    ensures WallKeepsUp(s, t, w)
  {
    SoundNow(s);
    if w != wall { DeletionLeavesWall(s, t, x, w); }
    forall image, h, saved | image in Shelf(s.db, w) && Tracks(s, w, image, h, saved) && Listed(h) ensures Tracks(t, w, image, h, saved) {
      hide Fit, Sound, WithoutHolds, WallUntouched, Shelf, ActiveHeirs, Tracks;
      if w == wall {
        OneMoreDeletion(s, t, x, wall, image, h, saved);
      } else {
        ForeignEntryTracks(s, t, HoldDeleted(wall, x, ActiveHeirs(s.db, wall, x)), w, image, h, saved);
      }
    }
    hide Fit, Sound, WithoutHolds, WallUntouched, Shelf, Tracks;
  }

  /** Whenever it lands, a deletion takes from what is shown no more than the heirs it is logged with. */
  lemma OneMoreDeletion(s: System, t: System, x: HoldId, wall: WallId, image: ImageId, h: RouteHolds, saved: Saved)
    requires Sound(s.db) && x in s.db.holds && Listed(h)
    requires t.db == WithoutHolds(s.db, {x}) && t.log == s.log + [HoldDeleted(wall, x, ActiveHeirs(s.db, wall, x))]
    requires Tracks(s, wall, image, h, saved)
    ensures Tracks(t, wall, image, h, saved)
  {
    hide Sound, WithoutHolds, Mirrors, TablesOf, Lost, Heirs, ActiveHeirs, IC.Shown, Replay;
    WithoutHoldsKeepsImages(s.db, {x});
    var e := HoldDeleted(wall, x, ActiveHeirs(s.db, wall, x));
    ReplayOneMore(wall, s.log, e, saved.at, saved.holds);
    LostOneMore(wall, s.log, e, saved.at);
    forall a | IsActive(t.db, wall, a)
      ensures Mirrors(Lost(wall, t.log[saved.at..]), IC.Shown(TablesOf(t.db), a, image, h), Replay(wall, t.log[saved.at..], saved.holds))
    {
      DeletionShows(s.db, x, a, image, h, Lost(wall, s.log[saved.at..]), Replay(wall, s.log[saved.at..], saved.holds));
      HeirsAreActiveHeirs(s.db, wall, x, a);
      MirrorWeakens(Lost(wall, s.log[saved.at..]) + Heirs(s.db, a, x), Lost(wall, t.log[saved.at..]),
                    IC.Shown(TablesOf(t.db), a, image, h), Replay(wall, t.log[saved.at..], saved.holds));
    }
  }

  lemma HeirsAreActiveHeirs(db: Db, wall: WallId, x: HoldId, a: ImageId)
    requires x in db.holds && IsActive(db, wall, a)
    ensures Heirs(db, a, x) <= ActiveHeirs(db, wall, x)
    ensures Sound(db) ==> Heirs(db, a, x) == ActiveHeirs(db, wall, x)
  {
    hide Sound, Heirs;
    if Sound(db) {
      forall b | IsActive(db, wall, b) ensures b == a { OneActiveImage(db, wall, a, b); }
    }
  }

  lemma DeleteHoldDisplays(s: System, read: Read, x: HoldId)
    requires Fit(s) && Displayed(s)
    requires read in s.seen && x in s.db.holds && s.db.holds[x].image == read.image
    ensures Displayed(RouteStep(s, DeleteHold(read, x)))
  {
    hide Fit, Sound, Displayed, IdsBelow, Tracks, Shelf, WithoutHolds, Evolves, WallKeepsUp, RoutesTrack, ReadsTrack, Buried, ActiveHeirs;
    var t := RouteStep(s, DeleteHold(read, x));
    SoundNow(s);
    WithoutHoldsIsSound(s.db, {x});
    WithoutHoldsEvolves(s.db, {x}, s.next);
    WithoutHoldsKeepsImages(s.db, {x});
    HoldIdsBelow(s.db, s.next);
    ReadHoldIsOnItsWall(s, read, x);
    forall w ensures WallKeepsUp(s, t, w) {
      DeletionKeepsUp(s, t, x, read.wall, w);
    }
    RoutesKeepUp(s, t);
    ReadsKeepUp(s, t);
    HoldsOnlyLeave(s, t);
    IsBuried(s);
    BuriedStays(s, t, HoldDeleted(read.wall, x, ActiveHeirs(s.db, read.wall, x)));
    DisplayedFrom(t);
  }

  lemma ReadHoldIsOnItsWall(s: System, read: Read, x: HoldId)
    requires Fit(s) && read in s.seen && x in s.db.holds && s.db.holds[x].image == read.image
    ensures read.image in s.db.images && s.db.images[read.image].wall == read.wall
  {
    hide Lifecycle, DraftsAreEmpty, RoutesPlaced, IdsBelow;
  }

  lemma HoldIdsBelow(db: Db, next: nat)
    requires IdsBelow(db, next)
    ensures forall h :: h in db.holds ==> h < next
  {
  }

  // ---------------------------------------------------------------- saving a route, reading the active photo

  lemma TracksReadsTables(s: System, t: System, wall: WallId, image: ImageId, h: RouteHolds, saved: Saved)
    requires Tracks(s, wall, image, h, saved) && t.log == s.log && t.db.images == s.db.images && t.db.matches == s.db.matches
    ensures Tracks(t, wall, image, h, saved)
  {
    assert TablesOf(t.db) == TablesOf(s.db) by {
      forall i ensures MatchesOf(t.db, i) == MatchesOf(s.db, i) { MatchesReadRows(t.db, s.db, i); }
      hide MatchesOf;
    }
    hide TablesOf;
  }

  lemma PlacingTracks(s: System, t: System, id: RouteId, read: Read, holds: RouteHolds)
    requires Fit(s) && Displayed(s) && MaySave(s, read, holds)
    requires t == PlaceRoute(s, id, read, holds).(next := t.next) && s.next <= t.next
    ensures Displayed(t)
  {
    hide Fit, Tracks, HoldRoles.ValidRoles;
    forall r | r in t.db.routes
      ensures r in t.saved && Tracks(t, t.db.routes[r].wall, t.db.routes[r].image, t.db.routes[r].holds, t.saved[r])
    {
      if r == id {
        TracksReadsTables(s, t, read.wall, read.image, holds, Saved(holds, read.at));
      } else {
        TracksReadsTables(s, t, s.db.routes[r].wall, s.db.routes[r].image, s.db.routes[r].holds, s.saved[r]);
      }
    }
    forall r, h | r in t.seen && r.image in t.db.images && HoldRoles.ValidRoles(h) ensures Tracks(t, r.wall, r.image, h, Saved(h, r.at)) {
      TracksReadsTables(s, t, r.wall, r.image, h, Saved(h, r.at));
    }
    assert Buried(t) by { hide RoutesTrack, ReadsTrack; }
  }

  lemma NewReadTracks(s: System, wall: WallId, image: ImageId, h: RouteHolds)
    requires Sound(s.db) && IsActive(s.db, wall, image) && HoldRoles.ValidRoles(h)
    ensures Tracks(s, wall, image, h, Saved(h, |s.log|))
  {
    assert s.log[|s.log|..] == [];
    HoldRoles.ValidRolesDecode(h);
    forall a | IsActive(s.db, wall, a) ensures a == image { OneActiveImage(s.db, wall, a, image); }
    hide Sound, HoldRoles.ValidRoles, TablesOf;
    ShownInPlace(TablesOf(s.db), image, h);
  }

  lemma ReadDisplays(s: System, wall: WallId, image: ImageId)
    requires Fit(s) && Displayed(s) && IsActive(s.db, wall, image)
    ensures Displayed(s.(seen := s.seen + {Read(wall, image, |s.log|)}))
  {
    hide Sound, IdsBelow, SnapshotsFit, Tracks, HoldRoles.ValidRoles;
    var t := s.(seen := s.seen + {Read(wall, image, |s.log|)});
    forall r | r in t.db.routes
      ensures r in t.saved && Tracks(t, t.db.routes[r].wall, t.db.routes[r].image, t.db.routes[r].holds, t.saved[r])
    {
      TracksReadsTables(s, t, s.db.routes[r].wall, s.db.routes[r].image, s.db.routes[r].holds, s.saved[r]);
    }
    forall r, h | r in t.seen && r.image in t.db.images && HoldRoles.ValidRoles(h) ensures Tracks(t, r.wall, r.image, h, Saved(h, r.at)) {
      if r in s.seen {
        TracksReadsTables(s, t, r.wall, r.image, h, Saved(h, r.at));
      } else {
        NewReadTracks(t, wall, image, h);
      }
    }
    assert Buried(t) by { hide RoutesTrack, ReadsTrack; }
  }

  // ---------------------------------------------------------------- quiet steps

  ghost predicate SamePhotos(db: Db, after: Db) {
    && after.images.Keys == db.images.Keys && after.routes == db.routes
    && forall i :: i in db.images ==>
      after.images[i].parent == db.images[i].parent && after.images[i].wall == db.images[i].wall && after.images[i].active == db.images[i].active
  }

  /** Only the matches of `image` may have changed. */
  ghost predicate OtherMapsKept(db: Db, after: Db, image: ImageId) {
    forall i :: i != image ==> MatchesOf(after, i) == MatchesOf(db, i)
  }

  lemma SamePhotosUntouched(s: System, t: System, image: ImageId)
    requires SamePhotos(s.db, t.db) && OtherMapsKept(s.db, t.db, image)
    requires image !in s.db.images || IsPending(s.db.images[image])
    ensures forall w :: WallUntouched(s, t, w)
  {
    hide MatchesOf;
  }

  lemma SameRowsKeepMaps(db: Db, after: Db, image: ImageId)
    requires after.matches == db.matches
    ensures OtherMapsKept(db, after, image)
  {
    forall i ensures MatchesOf(after, i) == MatchesOf(db, i) { MatchesReadRows(after, db, i); }
  }

  lemma QuietFrom(s: System, t: System, image: ImageId)
    requires Moves(s, t) && SamePhotos(s.db, t.db) && OtherMapsKept(s.db, t.db, image)
    requires image !in s.db.images || IsPending(s.db.images[image])
    requires t.saved == s.saved && t.seen == s.seen && t.log == s.log
    ensures Quiet(s, t)
  {
    SamePhotosUntouched(s, t, image);
    hide SamePhotos, OtherMapsKept, WallUntouched, Evolves, IdsBelow, HasPhotos;
    SamePhotosKeepRoutes(s.db, t.db);
  }

  lemma SamePhotosKeepRoutes(db: Db, after: Db)
    requires SamePhotos(db, after)
    ensures after.routes == db.routes
  {
  }

  lemma NewRowsKeepMaps(db: Db, image: ImageId, first: HoldId, olds: seq<HoldId>, ms: seq<GreedyMatch.Match>, i: ImageId)
    requires Untouched(db.matches, first, olds) && forall m :: m in ms ==> m.oldIndex < |olds|
    requires i != image
    ensures MatchesOf(db.(matches := db.matches + NewRows(image, first, olds, ms)), i) == MatchesOf(db, i)
  {
    var rows := NewRows(image, first, olds, ms);
    forall o | o in rows ensures rows[o].image == image && o !in db.matches {
      RowsAreNew(image, first, olds, ms, o);
    }
    hide NewRows;
  }

  lemma WriteKeepsMaps(s: System, load: Load, boxes: seq<Box>, alignment: Matrix, ms: seq<GreedyMatch.Match>)
    requires Fit(s) && MayWrite(s, load, boxes, ms) && load.image in s.db.images
    requires WriteResults(s.db, load.image, s.next, boxes, alignment, load.olds, ms).Ok?
    ensures OtherMapsKept(s.db, WriteResults(s.db, load.image, s.next, boxes, alignment, load.olds, ms).value, load.image)
  {
    var after := WriteResults(s.db, load.image, s.next, boxes, alignment, load.olds, ms).value;
    WriteIsReady(s, load, boxes, ms);
    if s.db.images[load.image].kind == Full {
      SameRowsKeepMaps(s.db, after, load.image);
    } else {
      SoundHasLifecycle(s.db);
      IndicesFit(s, load, boxes, ms);
      hide Sound, IdsBelow, SnapshotsFit, MatchesOf, NewRows, Untouched, Loaded, WellIndexed, MayWrite;
      PartialWrite(s.db, load.image, s.next, boxes, alignment, load.olds, ms);
      LoadedHoldsAreFree(s.db, load.image, s.next, load.olds);
      hide WriteResults;
      forall i | i != load.image ensures MatchesOf(after, i) == MatchesOf(s.db, i) {
        NewRowsKeepMaps(s.db, load.image, s.next, load.olds, ms, i);
        MatchesReadRows(after, s.db.(matches := s.db.matches + NewRows(load.image, s.next, load.olds, ms)), i);
      }
    }
  }

  lemma WriteKeepsPhotos(db: Db, image: ImageId, first: HoldId, boxes: seq<Box>, alignment: Matrix, olds: seq<HoldId>, ms: seq<GreedyMatch.Match>)
    requires forall m :: m in ms ==> m.oldIndex < |olds|
    requires WriteResults(db, image, first, boxes, alignment, olds, ms).Ok?
    ensures SamePhotos(db, WriteResults(db, image, first, boxes, alignment, olds, ms).value)
    ensures db.images[image].kind == Full ==> WriteResults(db, image, first, boxes, alignment, olds, ms).value.matches == db.matches
    ensures image in db.images && image in db.jobs && db.jobs[image] == Processing
  {
    InsertMatchesOnlyAddsRows(Found(db, image, first, boxes).(images := Aligned(db.images, image, alignment)), image, first, olds, ms);
    hide InsertMatches;
  }

  lemma WriteIsQuiet(s: System, load: Load, boxes: seq<Box>, alignment: Matrix, ms: seq<GreedyMatch.Match>)
    requires Safe(s) && MayWrite(s, load, boxes, ms)
    requires WriteResults(s.db, load.image, s.next, boxes, alignment, load.olds, ms).Ok?
    ensures Quiet(s, WriteStep(s, load, boxes, alignment, ms))
  {
    hide Safe, Fit, Sound, SamePhotos, OtherMapsKept, MayWrite, WriteResults, Moves, IdsBelow, Quiet;
    var t := WriteStep(s, load, boxes, alignment, ms);
    ReviewStepMoves(s, Write(load, boxes, alignment, ms));
    IndicesFit(s, load, boxes, ms);
    WriteKeepsPhotos(s.db, load.image, s.next, boxes, alignment, load.olds, ms);
    SafeFits(s);
    SoundNow(s);
    NextIsUnused(s.db, s.next);
    ProcessingIsPending(s.db, load.image);
    if s.db.images[load.image].kind == Full {
      SameRowsKeepMaps(s.db, t.db, s.next);
      QuietFrom(s, t, s.next);
    } else {
      WriteKeepsMaps(s, load, boxes, alignment, ms);
      QuietFrom(s, t, load.image);
    }
  }

  lemma ProcessingIsPending(db: Db, image: ImageId)
    requires Sound(db)
    ensures image in db.images && image in db.jobs && db.jobs[image] != Done && db.images[image].kind == Partial ==> IsPending(db.images[image])
  {
    hide Lifecycle, PartialInjection, RoutesPlaced;
  }

  /** Only one pending reset's matches changed, no photo and no route. */
  ghost predicate OnlyOneMap(db: Db, after: Db, image: ImageId) {
    SamePhotos(db, after) && OtherMapsKept(db, after, image) && image in db.images && IsPending(db.images[image])
  }

  lemma LockedIsPending(db: Db, wall: WallId, image: ImageId)
    requires LockPendingReset(db, wall, image).Some?
    ensures image in db.images && IsPending(db.images[image])
  {
  }

  lemma RematchIsLocal(db: Db, wall: WallId, image: ImageId, oldHold: HoldId, newHold: Option<HoldId>)
    requires Sound(db) && UpdateResetMatch(db, wall, image, oldHold, newHold).Ok?
    ensures OnlyOneMap(db, UpdateResetMatch(db, wall, image, oldHold, newHold).value, image)
  {
    hide UpdateResetMatch, Sound, MatchesOf, LockPendingReset;
    RematchIsSound(db, wall, image, oldHold, newHold);
    RematchLocks(db, wall, image, oldHold, newHold);
    LockedIsPending(db, wall, image);
  }

  lemma RematchLocks(db: Db, wall: WallId, image: ImageId, oldHold: HoldId, newHold: Option<HoldId>)
    requires UpdateResetMatch(db, wall, image, oldHold, newHold).Ok?
    ensures LockPendingReset(db, wall, image).Some?
  {
    hide LockPendingReset, UpsertMatch;
  }

  lemma PendingIsNobodysParent(db: Db, image: ImageId, i: ImageId)
    requires Sound(db) && image in db.images && IsPending(db.images[image])
    ensures !ParentIs(db.images, i, image)
  {
    hide PartialInjection, DraftsAreEmpty, RoutesPlaced, AtMostOneActive, EveryWallShows;
  }

  lemma PendingMapOnly(db: Db, wall: WallId, image: ImageId, hold: HoldId)
    requires Sound(db) && LockPendingReset(db, wall, image).Some? && hold in db.holds && db.holds[hold].image == image
    ensures OtherMapsKept(db, WithoutHolds(db, {hold}), image)
    ensures SamePhotos(db, WithoutHolds(db, {hold}))
    ensures image in db.images && IsPending(db.images[image])
  {
    WithoutHoldsKeepsImages(db, {hold});
    hide Sound, MatchesOf, WithoutHolds;
    forall i | i != image ensures MatchesOf(WithoutHolds(db, {hold}), i) == MatchesOf(db, i) {
      PendingIsNobodysParent(db, image, i);
      MapStays(db, hold, i);
    }
  }

  lemma RemoveHoldIsLocal(db: Db, wall: WallId, image: ImageId, hold: HoldId)
    requires Sound(db) && DeleteResetHold(db, wall, image, hold).Ok?
    ensures OnlyOneMap(db, DeleteResetHold(db, wall, image, hold).value, image)
  {
    hide Sound, LockPendingReset, SamePhotos, OtherMapsKept, WithoutHolds;
    PendingMapOnly(db, wall, image, hold);
  }

  lemma RestoreIsLocal(db: Db, wall: WallId, image: ImageId, oldHold: HoldId, newHold: HoldId, box: Box)
    requires Sound(db) && RestoreRefusal(db, wall, image, oldHold).None? && newHold !in db.holds
    ensures RestoreHold(db, image, oldHold, newHold, box).Ok?
    ensures OnlyOneMap(db, RestoreHold(db, image, oldHold, newHold, box).value, image)
  {
    hide Sound, LockPendingReset, RestoreRefusal, RestoreHold, MatchesOf, Rematched;
    RestoreChecks(db, wall, image, oldHold);
    LockedIsPending(db, wall, image);
    RestoreIsSound(db, wall, image, oldHold, newHold, box);
  }

  lemma LocalIsQuiet(s: System, t: System, image: ImageId)
    requires Moves(s, t) && OnlyOneMap(s.db, t.db, image) && t.saved == s.saved && t.seen == s.seen && t.log == s.log
    ensures Quiet(s, t)
  {
    hide Moves, SamePhotos, OtherMapsKept, Quiet;
    QuietFrom(s, t, image);
  }

  lemma LocalReviewDisplays(s: System, e: ReviewEvent)
    requires Safe(s) && Displayed(s)
    requires e.Rematch? || e.RemoveResetHold? || e.Restore?
    ensures Displayed(ReviewStep(s, e))
  {
    hide Safe, Fit, Sound, Displayed, IdsBelow, Moves, Quiet, OnlyOneMap, SnapshotsFit;
    hide UpdateResetMatch, DeleteResetHold, RestoreHold, RestoreRefusal;
    var t := ReviewStep(s, e);
    SafeFits(s);
    SoundNow(s);
    NextIsUnused(s.db, s.next);
    ReviewStepMoves(s, e);
    ReviewStepIsSound(s, e);
    match e {
      case Rematch(wall, image, oldHold, newHold) =>
        if UpdateResetMatch(s.db, wall, image, oldHold, newHold).Ok? {
          RematchIsLocal(s.db, wall, image, oldHold, newHold);
          LocalIsQuiet(s, t, image);
          QuietDisplays(s, t);
        }
      case RemoveResetHold(wall, image, hold) =>
        if DeleteResetHold(s.db, wall, image, hold).Ok? {
          RemoveHoldIsLocal(s.db, wall, image, hold);
          LocalIsQuiet(s, t, image);
          QuietDisplays(s, t);
        }
      case Restore(wall, image, oldHold, projected) =>
        if RestoreRefusal(s.db, wall, image, oldHold).None? {
          RestoreIsLocal(s.db, wall, image, oldHold, s.next, projected);
          LocalIsQuiet(s, t, image);
          QuietDisplays(s, t);
        }
    }
  }

  lemma ReviewStepDisplays(s: System, e: ReviewEvent)
    requires Safe(s) && Displayed(s)
    ensures Displayed(ReviewStep(s, e))
  {
    hide Safe, Fit, Sound, Displayed, IdsBelow, Moves, Quiet, MayWrite, IsLoad, SnapshotsFit;
    hide WriteResults, UpdateResetMatch, DeleteResetHold, RestoreStep, ApplyReset;
    var t := ReviewStep(s, e);
    SafeFits(s);
    SoundNow(s);
    ReviewStepMoves(s, e);
    ReviewStepIsSound(s, e);
    match e {
      case MoveJob(image, status) => StaysPut(s, t);
      case LoadParent(load) => StaysPut(s, t);
      case Write(load, boxes, alignment, ms) =>
        if MayWrite(s, load, boxes, ms) {
          IndicesFit(s, load, boxes, ms);
          if WriteResults(s.db, load.image, s.next, boxes, alignment, load.olds, ms).Ok? {
            WriteIsQuiet(s, load, boxes, alignment, ms);
            QuietDisplays(s, t);
          }
        }
      case Apply(wall, image) =>
        if ApplyReset(s.db, wall, image).Ok? { ApplyDisplays(s, wall, image); }
      case _ => LocalReviewDisplays(s, e);
    }
  }

  /** A step that touches neither photos, matches, routes nor the log. */
  lemma StaysPut(s: System, t: System)
    requires Fit(s) && Displayed(s) && Moves(s, t) && Sound(t.db)
    requires t.db.images == s.db.images && t.db.matches == s.db.matches && t.db.routes == s.db.routes
    requires t.saved == s.saved && t.seen == s.seen && t.log == s.log
    ensures Displayed(t)
  {
    SoundNow(s);
    NextIsUnused(s.db, s.next);
    SameRowsKeepMaps(s.db, t.db, s.next);
    hide Fit, Displayed, Sound, Moves, OtherMapsKept, Quiet;
    QuietFrom(s, t, s.next);
    QuietDisplays(s, t);
  }

  lemma WithoutImagesUntouched(s: System, t: System, gone: set<ImageId>, w: WallId)
    requires Sound(s.db) && Unparented(s.db.images, gone)
    requires t.db.images == WithoutImages(s.db, gone).images && t.db.matches == WithoutImages(s.db, gone).matches
    requires forall i :: i in Shelf(s.db, w) ==> i !in gone
    ensures WallUntouched(s, t, w)
  {
    SoundHasLifecycle(s.db);
    NothingIsOrphaned(s.db, gone);
    RemainingKeepsMatches(s.db, gone);
    hide Sound, PartialInjection, Lifecycle, WithoutImages, MatchesOf;
    forall i | i in Shelf(s.db, w) ensures MatchesOf(t.db, i) == MatchesOf(s.db, i) {
      MatchesReadRows(t.db, WithoutImages(s.db, gone), i);
    }
  }

  lemma DiscardIsQuiet(s: System, wall: WallId, image: ImageId)
    requires Safe(s) && DiscardReset(s.db, wall, image).Some?
    ensures Quiet(s, PhotoStep(s, Discard(wall, image)))
  {
    hide Safe, Fit, Sound, PartialInjection, Lifecycle, Evolves, IdsBelow, WithoutImages, WallUntouched, HasPhotos, Shaped, ResetsFollow, Unparented;
    var t := PhotoStep(s, Discard(wall, image));
    PhotoStepMoves(s, Discard(wall, image));
    SafeFits(s);
    SoundNow(s);
    SoundHasLifecycle(s.db);
    PendingHasNoReset(s.db.images, {image});
    forall w ensures WallUntouched(s, t, w) {
      assert image !in Shelf(s.db, w);
      WithoutImagesUntouched(s, t, {image}, w);
    }
    WithoutImagesKeepsRoutes(s.db, {image});
  }

  lemma WithoutImagesKeepsRoutes(db: Db, gone: set<ImageId>)
    ensures WithoutImages(db, gone).routes == db.routes
  {
  }

  lemma RemoveWallIsQuiet(s: System, wall: WallId)
    requires Safe(s) && DeleteWall(s.db, wall).Some?
    ensures Quiet(s, PhotoStep(s, RemoveWall(wall)))
  {
    hide Safe, Fit, Sound, PartialInjection, Lifecycle, Evolves, IdsBelow, WithoutImages, WallUntouched, Shaped, ResetsFollow, Unparented;
    var t := PhotoStep(s, RemoveWall(wall));
    var gone := ImagesOf(s.db, wall);
    PhotoStepMoves(s, RemoveWall(wall));
    SafeFits(s);
    SoundNow(s);
    SoundHasLifecycle(s.db);
    WithoutWallKeepsLifecycle(s.db.images, s.db.walls, wall, gone);
    WithoutImagesAddsNone(s.db, gone);
    forall w | HasPhotos(t.db, w) ensures WallUntouched(s, t, w) {
      LeftWallsAreOthers(s.db, t.db, wall, w);
      WithoutImagesUntouched(s, t, gone, w);
    }
  }

  /** After the wall is gone, photos are on other walls, whose shelves it did not hold. */
  lemma LeftWallsAreOthers(db: Db, after: Db, wall: WallId, w: WallId)
    requires Unparented(db.images, ImagesOf(db, wall)) && HasPhotos(after, w)
    requires after.images == WithoutImages(db, ImagesOf(db, wall)).images
    ensures forall i :: i in Shelf(db, w) ==> i !in ImagesOf(db, wall)
  {
    NothingIsOrphaned(db, ImagesOf(db, wall));
    hide WithoutImages, Unparented;
    var i :| i in after.images && after.images[i].wall == w;
  }

  lemma PhotoStepDisplays(s: System, e: PhotoEvent)
    requires Safe(s) && Displayed(s)
    ensures Displayed(PhotoStep(s, e))
  {
    hide Safe, Fit, Sound, Displayed, IdsBelow, Moves, Quiet, SnapshotsFit, CommitUpload, DiscardReset, DeleteWall, IsActive;
    var t := PhotoStep(s, e);
    SafeFits(s);
    SoundNow(s);
    PhotoStepMoves(s, e);
    PhotoStepIsSound(s, e);
    match e {
      case ReadActive(wall, image) => if IsActive(s.db, wall, image) { ReadDisplays(s, wall, image); }
      case FinishUpload(u) =>
        if u in s.uploads {
          if CommitUpload(s.db, u.wall, u.kind, u.snapshot, u.key, s.next).Err? {
            StaysPut(s, t);
          } else if u.kind == Full {
            FullUploadDisplays(s, u);
          } else {
            PartialUploadDisplays(s, u);
          }
        }
      case Discard(wall, image) =>
        if DiscardReset(s.db, wall, image).Some? { DiscardIsQuiet(s, wall, image); QuietDisplays(s, t); }
      case RemoveWall(wall) =>
        if DeleteWall(s.db, wall).Some? { RemoveWallIsQuiet(s, wall); QuietDisplays(s, t); }
      case _ => StaysPut(s, t);
    }
  }

  lemma DropRouteDisplays(s: System, route: RouteId)
    requires Safe(s) && Displayed(s)
    ensures Displayed(RouteStep(s, DeleteRoute(route)))
  {
    var t := RouteStep(s, DeleteRoute(route));
    hide Safe, Tracks, HoldRoles.ValidRoles;
    forall r | r in t.db.routes
      ensures r in t.saved && Tracks(t, t.db.routes[r].wall, t.db.routes[r].image, t.db.routes[r].holds, t.saved[r])
    {
      TracksReadsTables(s, t, s.db.routes[r].wall, s.db.routes[r].image, s.db.routes[r].holds, s.saved[r]);
    }
    forall r, h | r in t.seen && r.image in t.db.images && HoldRoles.ValidRoles(h) ensures Tracks(t, r.wall, r.image, h, Saved(h, r.at)) {
      TracksReadsTables(s, t, r.wall, r.image, h, Saved(h, r.at));
    }
  }

  lemma RouteStepDisplays(s: System, e: RouteEvent)
    requires Safe(s) && Displayed(s)
    ensures Displayed(RouteStep(s, e))
  {
    hide Safe, Fit, Sound, Displayed, IdsBelow, Moves, SnapshotsFit, MaySave, WithoutHolds, WithoutRoute, ActiveHeirs;
    var t := RouteStep(s, e);
    SafeFits(s);
    RouteStepMoves(s, e);
    RouteStepIsSound(s, e);
    match e {
      case AddHold(read, box) => StaysPut(s, t);
      case DeleteHold(read, hold) =>
        if read in s.seen && hold in s.db.holds && s.db.holds[hold].image == read.image { DeleteHoldDisplays(s, read, hold); }
      case SaveNewRoute(read, holds) => if MaySave(s, read, holds) { PlacingTracks(s, t, s.next, read, holds); }
      case SaveRoute(read, route, holds) =>
        if MaySave(s, read, holds) && route in s.db.routes && s.db.routes[route].wall == read.wall {
          PlacingTracks(s, t, route, read, holds);
        }
      case DeleteRoute(route) => DropRouteDisplays(s, route);
    }
  }

  // ---------------------------------------------------------------- the theorem

  /** Every route, and every photo read but not yet saved onto, shows the replay but for what deletions took. */
  lemma {:induction false} EveryRunDisplays(events: seq<Event>)
    ensures Displayed(After(events))
  {
    if events != [] {
      hide Safe, Displayed, PhotoStep, ReviewStep, RouteStep;
      var (before, e) := (After(events[..|events| - 1]), events[|events| - 1]);
      EveryRunDisplays(events[..|events| - 1]);
      EveryRunIsSafe(events[..|events| - 1]);
      match e {
        case OnPhotos(p) => PhotoStepDisplays(before, p);
        case OnReset(r) => ReviewStepDisplays(before, r);
        case OnRoutes(c) => RouteStepDisplays(before, c);
      }
    } else {
      StartDisplays();
    }
  }

  lemma StartDisplays()
    ensures Displayed(START)
  {
  }

  // ---------------------------------------------------------------- equality when nothing was deleted

  lemma {:induction false} ReplayIsListed(wall: WallId, log: seq<Entry>, h: RouteHolds)
    requires Listed(h)
    ensures Replay(wall, log, h).Ok? && Listed(Replay(wall, log, h).value)
  {
    if log != [] {
      ReplayIsListed(wall, log[..|log| - 1], h);
      var e := log[|log| - 1];
      if e.ResetApplied? { TranslatedIsListed(Replay(wall, log[..|log| - 1], h).value, e.matches); }
    }
  }

  ghost predicate SavedValid(s: System) {
    forall r :: r in s.saved ==> HoldRoles.ValidRoles(s.saved[r].holds)
  }

  lemma {:induction false} SavedHoldsAreValid(events: seq<Event>)
    ensures SavedValid(After(events))
  {
    if events != [] {
      var (before, e) := (After(events[..|events| - 1]), events[|events| - 1]);
      SavedHoldsAreValid(events[..|events| - 1]);
      hide HoldRoles.ValidRoles, CommitUpload, DiscardReset, DeleteWall, WriteResults, UpdateResetMatch, DeleteResetHold, RestoreHold, RestoreRefusal, ApplyReset;
      if e.OnRoutes? {
      } else if e.OnPhotos? {
        assert Step(before, e).saved == before.saved;
      } else {
        assert Step(before, e).saved == before.saved;
      }
    }
  }

  /**
   After any run, a route on the active photo of its wall shows its saved holds through every match
   map applied since it was saved, in order, whether resets rewrote it or left it archived, once the
   holds that deletions took are left out of both; and exactly if they took none that is still there.
   */
  lemma RoutesShowTheReplay(events: seq<Event>, r: RouteId, active: ImageId)
    requires r in After(events).db.routes && IsActive(After(events).db, After(events).db.routes[r].wall, active)
    ensures
      var s := After(events);
      && r in s.saved && s.saved[r].at <= |s.log|
      && var since := s.log[s.saved[r].at..];
      && var shown := IC.Shown(TablesOf(s.db), active, s.db.routes[r].image, s.db.routes[r].holds);
      && var replay := Replay(s.db.routes[r].wall, since, s.saved[r].holds);
      && Mirrors(Lost(s.db.routes[r].wall, since), shown, replay)
      && (Lost(s.db.routes[r].wall, since) == {} ==> shown == replay)
  {
    var s := After(events);
    EveryRunDisplays(events);
    EveryRunIsSafe(events);
    SavedHoldsAreValid(events);
    SavedRoutes(s, r);
    var since := s.log[s.saved[r].at..];
    var route := s.db.routes[r];
    hide After, Displayed, AgreeBut, PartOf, Lost, HoldRoles.ValidRoles;
    SafeFits(s);
    SoundNow(s);
    RouteRolesAreValid(s.db, r);
    hide Safe, Fit, Sound, IdsBelow, SnapshotsFit;
    ValidRolesAreListed(route.holds);
    ValidRolesAreListed(s.saved[r].holds);
    ShownIsListed(TablesOf(s.db), active, route.image, route.holds);
    ReplayIsListed(route.wall, since, s.saved[r].holds);
    if Lost(route.wall, since) == {} {
      AgreementIsEquality(IC.Shown(TablesOf(s.db), active, route.image, route.holds).value, Replay(route.wall, since, s.saved[r].holds).value);
    }
  }

  // ---------------------------------------------------------------- hold by hold

  /** What the match maps applied on the wall have made of a hold. */
  function Became(wall: WallId, log: seq<Entry>, x: HoldId): Option<HoldId> {
    if log == [] then Some(x)
    else
      var before := Became(wall, log[..|log| - 1], x);
      match log[|log| - 1]
      case ResetApplied(w, matches) =>
        if w != wall then before
        else if before.Some? && before.value in matches then Some(matches[before.value])
        else None
      case PhotoReplaced(w) => if w == wall then None else before
      case HoldDeleted(_, _, _) => before
  }

  ghost predicate MapsInjectively(log: seq<Entry>) {
    forall e :: e in log && e.ResetApplied? ==> HoldRoles.Injective(e.matches)
  }

  /** No two holds become one. */
  lemma {:induction false} BecameIsInjective(wall: WallId, log: seq<Entry>, x: HoldId, z: HoldId)
    requires MapsInjectively(log) && Became(wall, log, x).Some? && Became(wall, log, x) == Became(wall, log, z)
    ensures x == z
  {
    if log != [] {
      var rest := log[..|log| - 1];
      assert forall e :: e in rest ==> e in log;
      assert log[|log| - 1] in log;
      BecameIsInjective(wall, rest, x, z);
    }
  }

  lemma StepMapsInjectively(s: System, e: Event)
    requires Safe(s) && MapsInjectively(s.log)
    ensures MapsInjectively(Step(s, e).log)
  {
    hide Safe, Fit, Sound, IdsBelow, Step, MatchesOf, Deletes, HoldRoles.Injective;
    SafeFits(s);
    SoundNow(s);
    var more := StepLogs(s, e);
    if e.OnReset? && e.review.Apply? { MatchesAreAPartialInjection(s.db, e.review.image); }
    assert more != [] ==> forall f :: f in more ==> f == more[0];
  }

  lemma {:induction false} LogsMapInjectively(events: seq<Event>)
    ensures MapsInjectively(After(events).log)
  {
    if events != [] {
      hide Safe, Step, MapsInjectively;
      LogsMapInjectively(events[..|events| - 1]);
      EveryRunIsSafe(events[..|events| - 1]);
      StepMapsInjectively(After(events[..|events| - 1]), events[|events| - 1]);
    } else {
      assert After(events).log == [];
    }
  }

  ghost predicate Traces(wall: WallId, log: seq<Entry>, h: RouteHolds, replay: RouteHolds, y: HoldId) {
    && (y in replay.ids <==> exists x :: x in h.ids && Became(wall, log, x) == Some(y))
    && (forall k :: HasRole(replay, k, y) <==> exists x :: HasRole(h, k, x) && Became(wall, log, x) == Some(y))
  }

  /** Hold by hold and role by role, the replay is what the saved holds have become. */
  lemma {:induction false} ReplayTraces(wall: WallId, log: seq<Entry>, h: RouteHolds, y: HoldId)
    requires Listed(h)
    ensures Replay(wall, log, h).Ok? && Traces(wall, log, h, Replay(wall, log, h).value, y)
  {
    hide HasRole, Translated, Listed;
    ReplayIsListed(wall, log, h);
    if log != [] {
      var (rest, e) := (log[..|log| - 1], log[|log| - 1]);
      ReplayIsListed(wall, rest, h);
      var before := Replay(wall, rest, h).value;
      forall z ensures Traces(wall, rest, h, before, z) { ReplayTraces(wall, rest, h, z); }
      if e.ResetApplied? && e.wall == wall {
        OneMoreMapTraces(wall, rest, e, h, before, y);
        assert log == rest + [e];
      } else if e.PhotoReplaced? && e.wall == wall {
        NothingHasRoles(y);
      } else {
        OtherEntryTraces(wall, rest, e, h, before, y);
        assert log == rest + [e];
      }
    }
  }

  lemma OtherEntryTraces(wall: WallId, rest: seq<Entry>, e: Entry, h: RouteHolds, before: RouteHolds, y: HoldId)
    requires Traces(wall, rest, h, before, y) && (e.wall != wall || e.HoldDeleted?)
    ensures Traces(wall, rest + [e], h, before, y)
  {
    hide HasRole;
    assert (rest + [e])[..|rest|] == rest;
    assert forall x :: Became(wall, rest + [e], x) == Became(wall, rest, x);
  }

  lemma NothingHasRoles(y: HoldId)
    ensures forall k :: !HasRole(IC.NOTHING, k, y)
  {
  }

  lemma OneMoreMapTraces(wall: WallId, rest: seq<Entry>, e: Entry, h: RouteHolds, before: RouteHolds, y: HoldId)
    requires Listed(before) && (forall z :: Traces(wall, rest, h, before, z)) && e.ResetApplied? && e.wall == wall
    ensures Translated(before, e.matches).Ok?
    ensures Traces(wall, rest + [e], h, Translated(before, e.matches).value, y)
  {
    var m := e.matches;
    ListedDecodes(before);
    assert (rest + [e])[..|rest|] == rest;
    forall x ensures Became(wall, rest + [e], x) == Some(y) <==>
      (Became(wall, rest, x).Some? && Became(wall, rest, x).value in m && m[Became(wall, rest, x).value] == y) {}
    hide HasRole, Translated, Listed, Became;
    TranslatedHolds(before, m, "", y);
    var after := Translated(before, m).value;
    assert y in after.ids <==> exists x :: x in h.ids && Became(wall, rest + [e], x) == Some(y) by {
      if z :| z in before.ids && z in m && m[z] == y {
        assert Traces(wall, rest, h, before, z);
        var x :| x in h.ids && Became(wall, rest, x) == Some(z);
        assert Became(wall, rest + [e], x) == Some(y);
      }
      if x :| x in h.ids && Became(wall, rest + [e], x) == Some(y) {
        assert Traces(wall, rest, h, before, Became(wall, rest, x).value);
      }
    }
    forall k ensures HasRole(after, k, y) <==> exists x :: HasRole(h, k, x) && Became(wall, rest + [e], x) == Some(y) {
      TranslatedHolds(before, m, k, y);
      if z :| HasRole(before, k, z) && z in m && m[z] == y {
        assert Traces(wall, rest, h, before, z);
        var x :| HasRole(h, k, x) && Became(wall, rest, x) == Some(z);
        assert Became(wall, rest + [e], x) == Some(y);
      }
      if x :| HasRole(h, k, x) && Became(wall, rest + [e], x) == Some(y) {
        assert Traces(wall, rest, h, before, Became(wall, rest, x).value);
      }
    }
  }

  /** `y` has taken the place of `x`, and of no other hold, with all its roles and no others. */
  ghost predicate Succeeds(wall: WallId, log: seq<Entry>, saved: RouteHolds, shown: RouteHolds, x: HoldId, y: HoldId) {
    && x in saved.ids && Became(wall, log, x) == Some(y)
    && (forall z :: Became(wall, log, z) == Some(y) ==> z == x)
    && (forall k :: HasRole(shown, k, y) <==> HasRole(saved, k, x))
  }

  lemma MirroredHold(wall: WallId, log: seq<Entry>, lost: set<HoldId>, saved: RouteHolds, shown: RouteHolds, y: HoldId)
    requires Listed(saved) && MapsInjectively(log) && Mirrors(lost, Ok(shown), Replay(wall, log, saved))
    ensures y in shown.ids ==> exists x :: Succeeds(wall, log, saved, shown, x, y)
    ensures y !in lost && (exists x :: x in saved.ids && Became(wall, log, x) == Some(y)) ==> y in shown.ids
  {
    ReplayTraces(wall, log, saved, y);
    hide HasRole, Listed, Became, AgreeBut, RolesDecode, Replay, MapsInjectively;
    var replay := Replay(wall, log, saved).value;
    if y in shown.ids {
      assert SharedHold(shown, replay, y);
      var x :| x in saved.ids && Became(wall, log, x) == Some(y);
      forall z | Became(wall, log, z) == Some(y) ensures z == x { BecameIsInjective(wall, log, x, z); }
      assert Succeeds(wall, log, saved, shown, x, y);
    }
    if y !in lost { AgreementShares(lost, Ok(shown), Ok(replay), y); }
  }

  /**
   After any run, every hold that a route shows on the active photo stands for exactly one saved hold,
   the one the applied maps have made it from, and has a role exactly if that one was saved with it; and
   every saved hold that has become something there is shown, unless a deletion took it.
   */
  lemma ShownHoldsKeepTheirRoles(events: seq<Event>, r: RouteId, active: ImageId, y: HoldId)
    requires r in After(events).db.routes && IsActive(After(events).db, After(events).db.routes[r].wall, active)
    ensures
      var s := After(events);
      && r in s.saved && s.saved[r].at <= |s.log|
      && var (wall, since, saved) := (s.db.routes[r].wall, s.log[s.saved[r].at..], s.saved[r].holds);
      && var shown := IC.Shown(TablesOf(s.db), active, s.db.routes[r].image, s.db.routes[r].holds);
      && shown.Ok?
      && (y in shown.value.ids ==> exists x :: Succeeds(wall, since, saved, shown.value, x, y))
      && (y !in Lost(wall, since) && (exists x :: x in saved.ids && Became(wall, since, x) == Some(y)) ==> y in shown.value.ids)
  {
    hide After, SavedValid, Mirrors, MapsInjectively, Succeeds, Became, Lost, Replay, IC.Shown, TablesOf;
    RoutesShowTheReplay(events, r, active);
    LogsMapInjectively(events);
    SavedHoldsAreValid(events);
    SavedIsListed(After(events), r);
    MirroredRoute(After(events), r, active, y);
  }

  lemma SavedIsListed(s: System, r: RouteId)
    requires SavedValid(s) && r in s.saved
    ensures Listed(s.saved[r].holds)
  {
    ValidRolesAreListed(s.saved[r].holds);
  }

  lemma MirroredRoute(s: System, r: RouteId, active: ImageId, y: HoldId)
    requires r in s.db.routes && r in s.saved && s.saved[r].at <= |s.log| && MapsInjectively(s.log) && Listed(s.saved[r].holds)
    requires
      var (wall, since) := (s.db.routes[r].wall, s.log[s.saved[r].at..]);
      Mirrors(Lost(wall, since), IC.Shown(TablesOf(s.db), active, s.db.routes[r].image, s.db.routes[r].holds), Replay(wall, since, s.saved[r].holds))
    ensures
      var (wall, since, saved) := (s.db.routes[r].wall, s.log[s.saved[r].at..], s.saved[r].holds);
      var shown := IC.Shown(TablesOf(s.db), active, s.db.routes[r].image, s.db.routes[r].holds);
      && shown.Ok?
      && (y in shown.value.ids ==> exists x :: Succeeds(wall, since, saved, shown.value, x, y))
      && (y !in Lost(wall, since) && (exists x :: x in saved.ids && Became(wall, since, x) == Some(y)) ==> y in shown.value.ids)
  {
    hide Mirrors, Succeeds, Became, Lost, Replay, IC.Shown, TablesOf, Listed;
    var (wall, since, saved) := (s.db.routes[r].wall, s.log[s.saved[r].at..], s.saved[r].holds);
    assert forall e :: e in since ==> e in s.log;
    var shown := IC.Shown(TablesOf(s.db), active, s.db.routes[r].image, s.db.routes[r].holds);
    MirrorDecodes(Lost(wall, since), shown, Replay(wall, since, saved));
    assert shown == Ok(shown.value);
    MirroredHold(wall, since, Lost(wall, since), saved, shown.value, y);
  }

  lemma MirrorDecodes(lost: set<HoldId>, a: Outcome, b: Outcome)
    requires Mirrors(lost, a, b)
    ensures a.Ok? && b.Ok?
  {
  }

  /** After any run, what any photo shows of any route has valid roles: within the shown holds, one role a hold. */
  lemma ShownRolesStayValid(events: seq<Event>, r: RouteId, on: ImageId)
    requires r in After(events).db.routes
    ensures
      var s := After(events);
      var shown := IC.Shown(TablesOf(s.db), on, s.db.routes[r].image, s.db.routes[r].holds);
      shown.Ok? && HoldRoles.ValidRoles(shown.value)
  {
    var s := After(events);
    EveryRunIsSafe(events);
    hide After, HoldRoles.ValidRoles;
    SafeFits(s);
    SoundNow(s);
    hide Safe, Fit, Sound, IdsBelow, SnapshotsFit;
    RouteRolesAreValid(s.db, r);
    ShownRolesAreValid(s.db, on, s.db.routes[r].image, s.db.routes[r].holds);
  }

  /** Once a full upload commits, no route saved before it shows anything. */
  lemma FullUploadEmptiesTheDisplay(events: seq<Event>, u: Upload, r: RouteId)
    requires var s := After(events);
      && u in s.uploads && u.kind == Full && CommitUpload(s.db, u.wall, u.kind, u.snapshot, u.key, s.next).Ok?
      && r in s.db.routes && s.db.routes[r].wall == u.wall
    ensures
      var (s, t) := (After(events), After(events + [OnPhotos(FinishUpload(u))]));
      && r in t.db.routes && t.db.routes[r] == s.db.routes[r] && (forall a :: IsActive(t.db, u.wall, a) ==> a == s.next)
      && IC.Shown(TablesOf(t.db), s.next, t.db.routes[r].image, t.db.routes[r].holds) == Ok(IC.NOTHING)
  {
    hide Safe, CommitUpload, IC.Shown, UploadStep;
    EveryRunIsSafe(events);
    AfterOneMore(events, OnPhotos(FinishUpload(u)));
    FullUploadStep(After(events), u, r);
  }

  lemma AfterOneMore(events: seq<Event>, e: Event)
    ensures After(events + [e]) == Step(After(events), e)
  {
    assert (events + [e])[..|events|] == events;
  }

  lemma FullUploadStep(s: System, u: Upload, r: RouteId)
    requires Safe(s) && u.kind == Full && CommitUpload(s.db, u.wall, u.kind, u.snapshot, u.key, s.next).Ok?
    requires r in s.db.routes && s.db.routes[r].wall == u.wall
    ensures
      var t := UploadStep(s, u);
      && r in t.db.routes && t.db.routes[r] == s.db.routes[r] && (forall a :: IsActive(t.db, u.wall, a) ==> a == s.next)
      && IC.Shown(TablesOf(t.db), s.next, t.db.routes[r].image, t.db.routes[r].holds) == Ok(IC.NOTHING)
  {
    hide Safe, Fit, Sound, IdsBelow, SnapshotsFit, CommitUpload, TablesOf, IC.Shown, IC.ParentOf, Shelf;
    SafeFits(s);
    SoundNow(s);
    NextIsUnused(s.db, s.next);
    RouteIsOnShelf(s.db, r);
    ShelfMember(s.db, u.wall, s.db.routes[r].image);
    UploadKeepsRoutes(s.db, u.wall, u.kind, u.snapshot, u.key, s.next);
    NewFullPhoto(s.db, u.wall, u.snapshot, u.key, s.next);
    FullPhotoShowsNothing(TablesOf(UploadStep(s, u).db), s.next, s.db.routes[r].image, s.db.routes[r].holds);
  }

  lemma RouteRolesAreValid(db: Db, r: RouteId)
    requires Sound(db) && r in db.routes
    ensures HoldRoles.ValidRoles(db.routes[r].holds)
  {
    hide Lifecycle, PartialInjection, DraftsAreEmpty, HoldRoles.ValidRoles;
  }


  // ---------------------------------------------------------------- runs whose deletions lose nothing more

  ghost predicate Deletes(s: System, e: Event) {
    && e.OnRoutes? && e.change.DeleteHold? && e.change.read in s.seen
    && e.change.hold in s.db.holds && s.db.holds[e.change.hold].image == e.change.read.image
  }

  /** The deletion lands while the photo it read is active, or when its hold has become nothing there. */
  ghost predicate HarmlessDelete(s: System, e: Event)
    requires Deletes(s, e)
  {
    forall a :: IsActive(s.db, e.change.read.wall, a) ==> a == e.change.read.image || Heirs(s.db, a, e.change.hold) == {}
  }

  ghost predicate HarmlessRun(events: seq<Event>) {
    forall k :: 0 <= k < |events| && Deletes(After(events[..k]), events[k]) ==> HarmlessDelete(After(events[..k]), events[k])
  }

  ghost predicate LosesOnlyItself(e: Entry) {
    e.HoldDeleted? ==> e.heirs <= {e.hold}
  }

  /** Resets were applied with holds that had not been deleted. */
  ghost predicate AvoidsTheDead(log: seq<Entry>, k: nat)
    requires k < |log|
  {
    log[k].ResetApplied? ==> log[k].matches.Keys !! DeletedIn(log[..k])
  }

  /** What a step adds to the log. */
  lemma StepLogs(s: System, e: Event) returns (more: seq<Entry>)
    ensures Step(s, e).log == s.log + more && |more| <= 1
    ensures more != [] && more[0].ResetApplied? ==> e.OnReset? && e.review.Apply? && more[0].matches == MatchesOf(s.db, e.review.image)
    ensures more != [] && more[0].HoldDeleted? ==>
      Deletes(s, e) && more[0] == HoldDeleted(e.change.read.wall, e.change.hold, ActiveHeirs(s.db, e.change.read.wall, e.change.hold))
  {
    hide CommitUpload, DiscardReset, DeleteWall, WriteResults, UpdateResetMatch, DeleteResetHold, RestoreHold, RestoreRefusal, ApplyReset, MatchesOf, WithoutHolds, ActiveHeirs, IsActive;
    more := [];
    match e {
      case OnPhotos(p) => if p.FinishUpload? && Step(s, e).log != s.log { more := [PhotoReplaced(p.upload.wall)]; }
      case OnReset(r) => if r.Apply? && Step(s, e).log != s.log { more := [ResetApplied(r.wall, MatchesOf(s.db, r.image))]; }
      case OnRoutes(c) =>
        if Deletes(s, e) { more := [HoldDeleted(c.read.wall, c.hold, ActiveHeirs(s.db, c.read.wall, c.hold))]; }
    }
  }

  lemma {:induction false} LogsAvoidTheDead(events: seq<Event>)
    ensures forall k :: 0 <= k < |After(events).log| ==> AvoidsTheDead(After(events).log, k)
  {
    if events != [] {
      var (s, e) := (After(events[..|events| - 1]), events[|events| - 1]);
      LogsAvoidTheDead(events[..|events| - 1]);
      EveryRunDisplays(events[..|events| - 1]);
      EveryRunIsSafe(events[..|events| - 1]);
      SafeFits(s);
      SoundNow(s);
      IsBuried(s);
      hide Safe, Fit, Sound, IdsBelow, SnapshotsFit, Displayed, Buried, Step, DeletedIn, MatchesOf, Deletes;
      var more := StepLogs(s, e);
      var log := s.log + more;
      forall k | 0 <= k < |log| ensures AvoidsTheDead(log, k) {
        if k < |s.log| {
          assert log[..k] == s.log[..k] && AvoidsTheDead(s.log, k);
        } else {
          assert log[..k] == s.log && s.log[0..] == s.log;
          if more[0].ResetApplied? { MapsAvoidTheDead(s, 0, e.review.image); }
        }
      }
    }
  }

  lemma HarmlessDeletionsLoseThemselves(s: System, e: Event)
    requires Sound(s.db) && Deletes(s, e) && HarmlessDelete(s, e)
    ensures ActiveHeirs(s.db, e.change.read.wall, e.change.hold) <= {e.change.hold}
  {
    hide Sound, Heirs;
    HeirsAtHome(s.db, e.change.hold);
  }

  lemma HarmlessPrefix(events: seq<Event>)
    requires HarmlessRun(events) && events != []
    ensures HarmlessRun(events[..|events| - 1])
    ensures var (s, e) := (After(events[..|events| - 1]), events[|events| - 1]); Deletes(s, e) ==> HarmlessDelete(s, e)
  {
    hide HarmlessDelete, Deletes, After;
    var shorter := events[..|events| - 1];
    forall k | 0 <= k < |shorter| && Deletes(After(shorter[..k]), shorter[k]) ensures HarmlessDelete(After(shorter[..k]), shorter[k]) {
      assert shorter[..k] == events[..k];
    }
  }

  ghost predicate LogsThemselves(log: seq<Entry>) {
    forall e :: e in log ==> LosesOnlyItself(e)
  }

  lemma HarmlessStepLogsItself(s: System, e: Event)
    requires Safe(s) && LogsThemselves(s.log) && (Deletes(s, e) ==> HarmlessDelete(s, e))
    ensures LogsThemselves(Step(s, e).log)
  {
    hide Safe, Fit, Sound, HarmlessDelete, Deletes, ActiveHeirs, Step;
    SafeFits(s);
    SoundNow(s);
    var more := StepLogs(s, e);
    if more != [] && more[0].HoldDeleted? { HarmlessDeletionsLoseThemselves(s, e); }
  }

  lemma {:induction false} HarmlessRunsLogThemselves(events: seq<Event>)
    requires HarmlessRun(events)
    ensures LogsThemselves(After(events).log)
  {
    if events != [] {
      hide Safe, HarmlessRun, HarmlessDelete, Deletes, LogsThemselves, Step;
      HarmlessPrefix(events);
      HarmlessRunsLogThemselves(events[..|events| - 1]);
      EveryRunIsSafe(events[..|events| - 1]);
      HarmlessStepLogsItself(After(events[..|events| - 1]), events[|events| - 1]);
    }
  }

  lemma {:induction false} LostIsDeleted(wall: WallId, log: seq<Entry>, at: nat)
    requires at <= |log| && LogsThemselves(log) && forall k :: 0 <= k < |log| ==> AvoidsTheDead(log, k)
    ensures Lost(wall, log[at..]) <= DeletedIn(log[at..])
  {
    if at == |log| {
      assert log[at..] == [];
    } else {
      hide Lost, DeletedIn;
      var (rest, e) := (log[..|log| - 1], log[|log| - 1]);
      assert log == rest + [e] && e in log;
      forall k | 0 <= k < |rest| ensures AvoidsTheDead(rest, k) { assert AvoidsTheDead(log, k) && rest[..k] == log[..k]; }
      assert forall x :: x in rest ==> x in log;
      LostIsDeleted(wall, rest, at);
      LostOneMore(wall, rest, e, at);
      DeletedOneMore(rest, e, at);
      assert AvoidsTheDead(log, |rest|) && LosesOnlyItself(e);
      DeletedEarlier(rest, at);
    }
  }

  lemma DeletedEarlier(log: seq<Entry>, at: nat)
    requires at <= |log|
    ensures DeletedIn(log[at..]) <= DeletedIn(log)
  {
  }

  /**
   If every deletion landed while its photo was active, or when its hold had become nothing on the
   active one, routes show their replay exactly unless holds were deleted since they were saved, and
   but for those holds then.
   */
  lemma HarmlessRunsShowTheReplay(events: seq<Event>, r: RouteId, active: ImageId)
    requires HarmlessRun(events)
    requires r in After(events).db.routes && IsActive(After(events).db, After(events).db.routes[r].wall, active)
    ensures
      var s := After(events);
      && r in s.saved && s.saved[r].at <= |s.log|
      && var since := s.log[s.saved[r].at..];
      && var shown := IC.Shown(TablesOf(s.db), active, s.db.routes[r].image, s.db.routes[r].holds);
      && var replay := Replay(s.db.routes[r].wall, since, s.saved[r].holds);
      && Mirrors(DeletedIn(since), shown, replay)
      && (DeletedIn(since) == {} ==> shown == replay)
  {
    var s := After(events);
    RoutesShowTheReplay(events, r, active);
    HarmlessRunsLogThemselves(events);
    LogsAvoidTheDead(events);
    hide After, HarmlessRun, Mirrors, Lost, DeletedIn;
    var wall := s.db.routes[r].wall;
    LostIsDeleted(wall, s.log, s.saved[r].at);
    var since := s.log[s.saved[r].at..];
    MirrorWeakens(Lost(wall, since), DeletedIn(since),
                  IC.Shown(TablesOf(s.db), active, s.db.routes[r].image, s.db.routes[r].holds), Replay(wall, since, s.saved[r].holds));
  }
}
