/**
 The review screen of a pending reset (server/internal/wall/reset.go, GetReset) and
 why its count of kept routes is the one applying the reset reports.
 */
module ResetPreview {
  import opened Wrappers
  import opened HoldRemap
  import opened Homography
  import opened HoldOutline
  import opened WallTables
  import opened WallInvariant
  import HoldRoles

  /** New holds with the old hold each is matched to, old holds without a match, and routes that would be archived. */
  datatype Preview = Preview(newHolds: map<HoldId, Option<HoldId>>, removed: map<HoldId, Box>,
                             affected: map<RouteId, seq<HoldId>>, kept: nat)

  function HoldsOn(db: Db, image: ImageId): set<HoldId> {
    set h | h in db.holds && db.holds[h].image == image
  }

  function Missing(ids: seq<HoldId>, matches: Matches): seq<HoldId> {
    if ids == [] then []
    else (if ids[0] in matches then [] else [ids[0]]) + Missing(ids[1..], matches)
  }

  lemma {:induction false} MissingAppend(a: seq<HoldId>, b: seq<HoldId>, matches: Matches)
    ensures Missing(a + b, matches) == Missing(a, matches) + Missing(b, matches)
  {
    if a == [] {
      assert a + b == b;
    } else {
      assert (a + b)[1..] == a[1..] + b;
      MissingAppend(a[1..], b, matches);
    }
  }

  /** What is missing and what is kept partition a route's holds; nothing is missing exactly when all are matched. */
  lemma {:induction false} MissingAndKept(ids: seq<HoldId>, matches: Matches)
    ensures |Missing(ids, matches)| + |Kept(ids, matches)| == |ids|
    ensures Missing(ids, matches) == [] <==> AllMatched(ids, matches)
    ensures forall x :: x in Missing(ids, matches) <==> x in ids && x !in matches
  {
    if ids != [] {
      MissingAndKept(ids[1..], matches);
      assert forall x :: x in ids <==> x == ids[0] || x in ids[1..];
    }
  }

  ghost predicate MatchedRight(newHolds: map<HoldId, Option<HoldId>>, n: HoldId, matches: Matches)
    requires n in newHolds
  {
    match newHolds[n]
    case Some(o) => o in matches && matches[o] == n
    case None => forall o :: o in matches ==> matches[o] != n
  }

  method NewHolds(db: Db, image: ImageId, matches: Matches) returns (newHolds: map<HoldId, Option<HoldId>>)
    ensures newHolds.Keys == HoldsOn(db, image)
    ensures forall n :: n in newHolds ==> MatchedRight(newHolds, n, matches)
  {
    newHolds := map[];
    var rest := HoldsOn(db, image);
    while rest != {}
      invariant newHolds.Keys + rest == HoldsOn(db, image) && newHolds.Keys !! rest
      invariant forall n :: n in newHolds ==> MatchedRight(newHolds, n, matches)
    {
      var n :| n in rest;
      var matched: Option<HoldId> := None;
      var olds := matches.Keys;
      while olds != {} && matched.None?
        invariant olds <= matches.Keys
        invariant matched.None? ==> forall o :: o in matches && o !in olds ==> matches[o] != n
        invariant matched.Some? ==> matched.value in matches && matches[matched.value] == n
        decreases olds, matched.None?
      {
        var o :| o in olds;
        if matches[o] == n {
          matched := Some(o);
        }
        olds := olds - {o};
      }
      newHolds := newHolds[n := matched];
      rest := rest - {n};
    }
  }

  /** A removed hold is drawn through the inverse alignment when that projects, and where it was otherwise. */
  ghost predicate DrawnRight(box: Box, shown: Box, inverse: Option<Matrix>) {
    if inverse.Some? && AllProject(Corners(box), inverse.value)
    then IsHull(shown, Images(Corners(box), inverse.value))
    else shown == box
  }

  method RemovedHolds(db: Db, parent: ImageId, matches: Matches, inverse: Option<Matrix>) returns (removed: map<HoldId, Box>)
    ensures removed.Keys == HoldsOn(db, parent) - matches.Keys
    ensures forall h :: h in removed ==> DrawnRight(db.holds[h].box, removed[h], inverse)
  {
    hide AllProject, IsHull, Images, Corners;
    removed := map[];
    var rest := HoldsOn(db, parent);
    while rest != {}
      invariant rest <= HoldsOn(db, parent)
      invariant removed.Keys == HoldsOn(db, parent) - rest - matches.Keys
      invariant forall h :: h in removed ==> DrawnRight(db.holds[h].box, removed[h], inverse)
    {
      var h :| h in rest;
      rest := rest - {h};
      if h !in matches {
        var shown := db.holds[h].box;
        if inverse.Some? {
          var projected := ProjectBBox(db.holds[h].box, inverse.value);
          if projected.Some? {
            shown := projected.value;
          }
        }
        removed := removed[h := shown];
      }
    }
  }

  method MissingHolds(ids: seq<HoldId>, matches: Matches) returns (missing: seq<HoldId>)
    ensures missing == Missing(ids, matches)
  {
    missing := [];
    for i := 0 to |ids|
      invariant missing == Missing(ids[..i], matches)
    {
      assert ids[..i + 1] == ids[..i] + [ids[i]];
      MissingAppend(ids[..i], [ids[i]], matches);
      if ids[i] !in matches {
        missing := missing + [ids[i]];
      }
    }
    assert ids[..|ids|] == ids;
  }

  /** The routes on the parent all of whose holds are matched. */
  function KeptIds(db: Db, parent: ImageId, matches: Matches): set<RouteId> {
    set r | r in db.routes && db.routes[r].image == parent && AllMatched(db.routes[r].holds.ids, matches)
  }

  /** The routes in `done` have been sorted into affected and kept. */
  ghost predicate Sorting(db: Db, keep: set<RouteId>, matches: Matches, done: set<RouteId>, affected: map<RouteId, seq<HoldId>>, kept: nat) {
    && affected.Keys == done - keep
    && (forall r :: r in affected && r in db.routes ==> affected[r] == Missing(db.routes[r].holds.ids, matches))
    && kept == |done * keep|
  }

  lemma SortOne(db: Db, keep: set<RouteId>, matches: Matches, done: set<RouteId>, affected: map<RouteId, seq<HoldId>>, kept: nat,
                r: RouteId, missing: seq<HoldId>)
    requires Sorting(db, keep, matches, done, affected, kept) && r !in done
    requires r in db.routes && missing == Missing(db.routes[r].holds.ids, matches)
    ensures r in keep ==> Sorting(db, keep, matches, done + {r}, affected, kept + 1)
    ensures r !in keep ==> Sorting(db, keep, matches, done + {r}, affected[r := missing], kept)
  {
    hide Missing;
    if r in keep {
      assert (done + {r}) * keep == done * keep + {r};
      assert (done + {r}) - keep == done - keep;
    } else {
      assert (done + {r}) * keep == done * keep;
    }
  }

  lemma KeptOrMissing(db: Db, parent: ImageId, matches: Matches, r: RouteId)
    requires r in RoutesOn(db, parent)
    ensures r in db.routes && (r in KeptIds(db, parent, matches) <==> Missing(db.routes[r].holds.ids, matches) == [])
  {
    MissingAndKept(db.routes[r].holds.ids, matches);
    hide Missing, Kept, AllMatched;
  }

  lemma SortingStarts(db: Db, keep: set<RouteId>, matches: Matches)
    ensures Sorting(db, keep, matches, {}, map[], 0)
  {
    assert {} * keep == {};
  }

  lemma SortingEnds(db: Db, parent: ImageId, matches: Matches, affected: map<RouteId, seq<HoldId>>, kept: nat)
    requires Sorting(db, KeptIds(db, parent, matches), matches, RoutesOn(db, parent), affected, kept)
    ensures AreAffected(db, parent, matches, affected)
    ensures kept == |KeptIds(db, parent, matches)|
  {
    assert RoutesOn(db, parent) * KeptIds(db, parent, matches) == KeptIds(db, parent, matches);
  }

  /** Every route of the parent that is not kept, with the holds it misses. */
  ghost predicate AreAffected(db: Db, parent: ImageId, matches: Matches, affected: map<RouteId, seq<HoldId>>) {
    && affected.Keys == RoutesOn(db, parent) - KeptIds(db, parent, matches)
    && forall r :: r in affected && r in db.routes ==> affected[r] == Missing(db.routes[r].holds.ids, matches)
  }

  ghost predicate Split(all: set<RouteId>, done: set<RouteId>, rest: set<RouteId>) {
    done + rest == all && done !! rest
  }

  lemma SplitStarts(all: set<RouteId>)
    ensures Split(all, {}, all)
  {
  }

  lemma SplitMoves(all: set<RouteId>, done: set<RouteId>, rest: set<RouteId>, r: RouteId)
    requires Split(all, done, rest) && r in rest
    ensures Split(all, done + {r}, rest - {r}) && r in all && r !in done
  {
  }

  lemma SplitEnds(all: set<RouteId>, done: set<RouteId>)
    requires Split(all, done, {})
    ensures done == all
  {
  }

  method AffectedRoutes(db: Db, parent: ImageId, matches: Matches) returns (affected: map<RouteId, seq<HoldId>>, kept: nat)
    ensures AreAffected(db, parent, matches, affected)
    ensures kept == |KeptIds(db, parent, matches)|
  {
    hide *;
    affected, kept := map[], 0;
    ghost var keep := KeptIds(db, parent, matches);
    var rest := RoutesOn(db, parent);
    ghost var done: set<RouteId> := {};
    SortingStarts(db, keep, matches);
    SplitStarts(RoutesOn(db, parent));
    while rest != {}
      invariant Split(RoutesOn(db, parent), done, rest)
      invariant Sorting(db, keep, matches, done, affected, kept)
    {
      var r :| r in rest;
      SplitMoves(RoutesOn(db, parent), done, rest, r);
      KeptOrMissing(db, parent, matches, r);
      var missing := MissingHolds(db.routes[r].holds.ids, matches);
      SortOne(db, keep, matches, done, affected, kept, r, missing);
      if missing == [] {
        kept := kept + 1;
      } else {
        affected := affected[r := missing];
      }
      rest, done := rest - {r}, done + {r};
    }
    SplitEnds(RoutesOn(db, parent), done);
    SortingEnds(db, parent, matches, affected, kept);
  }

  method GetReset(db: Db, wall: WallId, image: ImageId) returns (r: Option<Preview>)
    ensures r.Some? <==> image in PendingImages(db, wall) && db.images[image].parent.Some?
    ensures r.Some? ==>
      && var (parent, matches) := (db.images[image].parent.value, MatchesOf(db, image));
      && r.value.newHolds.Keys == HoldsOn(db, image)
      && (forall n :: n in r.value.newHolds ==> MatchedRight(r.value.newHolds, n, matches))
      && r.value.removed.Keys == HoldsOn(db, parent) - matches.Keys
      && (forall h :: h in r.value.removed ==> DrawnRight(db.holds[h].box, r.value.removed[h],
            if db.images[image].alignment.None? then None else InverseHomography(db.images[image].alignment.value)))
      && AreAffected(db, parent, matches, r.value.affected)
      && r.value.kept == |KeptIds(db, parent, matches)|
  {
    hide DrawnRight, MatchedRight, InverseHomography, MatchesOf, Missing, AreAffected, KeptIds;
    if image !in db.images || db.images[image].wall != wall || !IsPending(db.images[image]) || db.images[image].parent.None? {
      return None;
    }
    var parent, matches := db.images[image].parent.value, MatchesOf(db, image);
    var inverse: Option<Matrix> := None;
    if db.images[image].alignment.Some? {
      inverse := InverseHomography(db.images[image].alignment.value);
    }
    var newHolds := NewHolds(db, image, matches);
    var removed := RemovedHolds(db, parent, matches, inverse);
    var affected, kept := AffectedRoutes(db, parent, matches);
    return Some(Preview(newHolds, removed, affected, kept));
  }

  /**
   On the same tables the preview's kept routes are exactly those applying the reset keeps, and no
   route can make applying fail on its roles: validated roles decode and stay within the holds.
   */
  lemma PreviewIsWhatApplyKeeps(db: Db, wall: WallId, image: ImageId)
    requires Sound(db) && image in PendingImages(db, wall)
    ensures db.images[image].parent.Some?
    ensures KeptIds(db, db.images[image].parent.value, MatchesOf(db, image)) == KeptRoutes(db, db.images[image].parent.value, MatchesOf(db, image))
    ensures ApplyReset(db, wall, image).Ok? <==> db.jobs[image] == Done
    ensures ApplyReset(db, wall, image) != Err(InvalidRouteRoles)
  {
    var matches := MatchesOf(db, image);
    assert ParentIs(db.images, image, db.images[image].parent.value);
    hide PartialInjection, MatchesOf, Rewritten, HoldRoles.ValidRoles, AppliedReset, AtMostOneActive, EveryWallShows;
    forall r | r in db.routes
      ensures Rewritten(db.routes[r].holds, matches).Complete? <==> AllMatched(db.routes[r].holds.ids, matches)
      ensures !Rewritten(db.routes[r].holds, matches).BadRoles?
    {
      HoldRoles.CompleteHoldsMeanCompleteRoles(db.routes[r].holds, matches);
    }
  }
}
