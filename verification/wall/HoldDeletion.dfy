/**
 What deleting a hold (server/internal/wall/handler.go, DeleteHold) does to what routes
 show (server/internal/route/legacy_remap.go), on any photo, in any sound state: it takes
 away exactly what the hold had become there, from the routes it came from.
 */
module HoldDeletion {
  import opened Wrappers
  import opened HoldRemap
  import opened Homography
  import opened HoldOutline
  import opened WallTables
  import opened WallInvariant
  import opened WallRuns
  import opened WallSafety
  import opened LazyDisplay
  import HoldRoles
  import IC = ImageChain

  // ---------------------------------------------------------------- the tables after a deletion

  /** A map without the rows that use a hold on either side. */
  function Struck(m: Matches, x: HoldId): Matches {
    map o | o in m && o != x && m[o] != x :: m[o]
  }

  lemma DeletionStrikes(db: Db, x: HoldId, i: ImageId)
    ensures MatchesOf(WithoutHolds(db, {x}), i) == Struck(MatchesOf(db, i), x)
  {
  }

  lemma WithoutHoldsKeepsImages(db: Db, gone: set<HoldId>)
    ensures WithoutHolds(db, gone) == db.(holds := WithoutHolds(db, gone).holds, matches := WithoutHolds(db, gone).matches)
    ensures forall h :: h in WithoutHolds(db, gone).holds ==> h in db.holds && h !in gone
  {
  }

  lemma TablesAfterDeletion(db: Db, x: HoldId, i: ImageId)
    ensures var (before, after) := (TablesOf(db), TablesOf(WithoutHolds(db, {x})));
      && IC.ParentOf(after, i) == IC.ParentOf(before, i)
      && IC.MatchesInto(after, i) == Struck(IC.MatchesInto(before, i), x)
  {
    hide MatchesOf, WithoutHolds;
    DeletionStrikes(db, x, i);
    WithoutHoldsKeepsImages(db, {x});
    assert Struck(map[], x) == map[];
  }

  /** A hold is an old hold only in the map of its photo's reset, and a new one only in its photo's own. */
  lemma RowsKnowTheirPhotos(db: Db, x: HoldId, i: ImageId)
    requires Sound(db) && x in db.holds
    ensures var (m, photo) := (IC.MatchesInto(TablesOf(db), i), db.holds[x].image);
      && (x in m ==> IC.ParentOf(TablesOf(db), i) == Some(photo))
      && (forall o :: o in m && m[o] == x ==> i == photo)
  {
    hide Sound, MatchesOf, HoldRoles.Injective;
    if i in db.images {
      TablesAt(db, i);
      MatchesAreAPartialInjection(db, i);
    }
  }

  // ---------------------------------------------------------------- heirs

  lemma BareIsShown(t: IC.Tables, on: ImageId, image: ImageId, ids: seq<HoldId>)
    ensures IC.Shown(t, on, image, Bare(ids)).Ok?
  {
    ShownIsListed(t, on, image, Bare(ids));
  }

  lemma HeirsAtHome(db: Db, x: HoldId)
    requires x in db.holds
    ensures Heirs(db, db.holds[x].image, x) == {x}
  {
    ShownInPlace(TablesOf(db), db.holds[x].image, Bare([x]));
  }

  lemma HeirsThroughParent(db: Db, on: ImageId, x: HoldId, parent: ImageId)
    requires x in db.holds && IC.ParentOf(TablesOf(db), on) == Some(parent) && on != db.holds[x].image
    ensures Heirs(db, on, x) == Carried(IC.MatchesInto(TablesOf(db), on), Heirs(db, parent, x))
  {
    hide IC.ParentOf, IC.MatchesInto, TablesOf, IC.Shown;
    var (t, photo) := (TablesOf(db), db.holds[x].image);
    var m := IC.MatchesInto(t, on);
    BareIsShown(t, on, photo, [x]);
    BareIsShown(t, parent, photo, [x]);
    ShownThroughParent(t, on, parent, photo, Bare([x]));
    var ids := IC.Shown(t, parent, photo, Bare([x])).value.ids;
    forall y ensures y in Kept(ids, m) <==> exists k :: k in ids && k in m && m[k] == y { KeptMembers(ids, m, y); }
    TranslatedIds(IC.Shown(t, parent, photo, Bare([x])).value, m);
  }

  lemma TranslatedIds(h: RouteHolds, m: Matches)
    ensures Translated(h, m).Ok? ==> Translated(h, m).value.ids == Kept(h.ids, m)
  {
  }

  lemma NoHeirsOnFullPhotos(db: Db, on: ImageId, x: HoldId)
    requires x in db.holds && IC.ParentOf(TablesOf(db), on).None? && on != db.holds[x].image
    ensures Heirs(db, on, x) == {}
  {
    FullPhotoShowsNothing(TablesOf(db), on, db.holds[x].image, Bare([x]));
  }

  /** Earlier photos show nothing of later ones. */
  lemma {:induction false} NothingOfLaterPhotos(db: Db, on: ImageId, image: ImageId, h: RouteHolds)
    requires Sound(db) && on < image
    ensures IC.Shown(TablesOf(db), on, image, h) == Ok(IC.NOTHING)
  {
    hide Sound, TablesOf, IC.Up;
    forall n: nat ensures !IC.AtDepth(TablesOf(db), on, image, n) {
      if IC.AtDepth(TablesOf(db), on, image, n) {
        if n > 0 { AncestorsAreEarlier(db, on, n); } else { UpZero(TablesOf(db), on); }
      }
    }
  }

  lemma UpZero(t: IC.Tables, on: ImageId)
    ensures IC.Up(t, on, 0) == Some(on)
  {
  }

  // ---------------------------------------------------------------- nothing but the heirs is lost

  /** One step down the ancestry, across the deletion. */
  lemma StruckStep(dead: set<HoldId>, next: set<HoldId>, a: Outcome, b: Outcome, m: Matches, x: HoldId)
    requires AgreeBut(dead, a, b) && Carried(m, dead) <= next
    requires x in m ==> x in dead
    requires forall o :: o in m && m[o] == x ==> x in next
    ensures AgreeBut(next, Then(a, m), Then(b, Struck(m, x)))
  {
    ThenDecodes(a, m);
    ThenDecodes(b, Struck(m, x));
    forall ids | ids !! next ensures Then(Then(a, m), Identity(ids)) == Then(Then(b, Struck(m, x)), Identity(ids)) {
      ThenComposes(a, m, Identity(ids));
      ThenComposes(b, Struck(m, x), Identity(ids));
      assert Compose(Struck(m, x), Identity(ids)) == Compose(m, Identity(ids));
      AgreementCarries(dead, a, b, Compose(m, Identity(ids)));
    }
  }

  lemma AgreesWithItself(dead: set<HoldId>, a: Outcome)
    requires Decodes(a)
    ensures AgreeBut(dead, a, a)
  {
  }

  /** What any photo shows of any route is the same before and after, once the heirs of the hold are left out. */
  lemma {:induction false} DeletionReachesOnlyHeirs(db: Db, x: HoldId, on: ImageId, route: ImageId, h: RouteHolds)
    requires Sound(db) && x in db.holds && RolesDecode(h.roles)
    ensures AgreeBut(Heirs(db, on, x), IC.Shown(TablesOf(db), on, route, h), IC.Shown(TablesOf(WithoutHolds(db, {x})), on, route, h))
    decreases on
  {
    hide Sound, TablesOf, IC.ParentOf, IC.MatchesInto, IC.Shown, AgreeBut, Heirs, WithoutHolds, Struck, Then, Carried;
    var (before, after) := (TablesOf(db), TablesOf(WithoutHolds(db, {x})));
    TablesAfterDeletion(db, x, on);
    if on == route {
      ShownInPlace(before, on, h);
      ShownInPlace(after, on, h);
      AgreesWithItself(Heirs(db, on, x), Ok(h));
    } else if IC.ParentOf(before, on).None? {
      FullPhotoShowsNothing(before, on, route, h);
      FullPhotoShowsNothing(after, on, route, h);
      AgreesWithItself(Heirs(db, on, x), Ok(IC.NOTHING));
    } else {
      var parent := IC.ParentOf(before, on).value;
      ParentIsEarlier(db, on);
      DeletionReachesOnlyHeirs(db, x, parent, route, h);
      ShownThroughParent(before, on, parent, route, h);
      ShownThroughParent(after, on, parent, route, h);
      RowsKnowTheirPhotos(db, x, on);
      HeirsPassOn(db, x, on, parent);
      StruckStep(Heirs(db, parent, x), Heirs(db, on, x), IC.Shown(before, parent, route, h), IC.Shown(after, parent, route, h),
                 IC.MatchesInto(before, on), x);
    }
  }

  /** What the map of a photo makes of the heirs on its parent are heirs, and on its own photo the hold is its only heir. */
  lemma HeirsPassOn(db: Db, x: HoldId, on: ImageId, parent: ImageId)
    requires Sound(db) && x in db.holds && IC.ParentOf(TablesOf(db), on) == Some(parent)
    ensures Carried(IC.MatchesInto(TablesOf(db), on), Heirs(db, parent, x)) <= Heirs(db, on, x)
    ensures parent == db.holds[x].image ==> x in Heirs(db, parent, x)
    ensures on == db.holds[x].image ==> x in Heirs(db, on, x)
  {
    hide Sound, TablesOf, IC.ParentOf, IC.MatchesInto, IC.Shown;
    HeirsAtHome(db, x);
    if on == db.holds[x].image {
      ParentIsEarlier(db, on);
      NothingOfLaterPhotos(db, parent, on, Bare([x]));
    } else {
      HeirsThroughParent(db, on, x, parent);
    }
  }

  // ---------------------------------------------------------------- exactly when a route changes

  ghost predicate Descends(db: Db, i: ImageId, ancestor: ImageId) {
    exists n: nat :: n > 0 && IC.Up(TablesOf(db), i, n) == Some(ancestor)
  }

  /** A hold has heirs only on its own photo and those that descend from it. */
  lemma HeirsLiveBelow(db: Db, on: ImageId, x: HoldId)
    requires x in db.holds && Heirs(db, on, x) != {}
    ensures on == db.holds[x].image || Descends(db, on, db.holds[x].image)
  {
    var photo := db.holds[x].image;
    if n: nat :| IC.AtDepth(TablesOf(db), on, photo, n) {
      if n == 0 { UpZero(TablesOf(db), on); }
    }
  }

  /** The ids shown after the deletion were shown before. */
  lemma {:induction false} NothingAppears(db: Db, x: HoldId, on: ImageId, route: ImageId, h: RouteHolds)
    requires Sound(db) && Listed(h)
    ensures var (before, after) := (IC.Shown(TablesOf(db), on, route, h), IC.Shown(TablesOf(WithoutHolds(db, {x})), on, route, h));
      before.Ok? && after.Ok? && forall y :: y in after.value.ids ==> y in before.value.ids
    decreases on
  {
    hide Sound, TablesOf, IC.ParentOf, IC.MatchesInto, IC.Shown, WithoutHolds, Listed;
    var (before, after) := (TablesOf(db), TablesOf(WithoutHolds(db, {x})));
    ShownIsListed(before, on, route, h);
    ShownIsListed(after, on, route, h);
    TablesAfterDeletion(db, x, on);
    if on == route {
      ShownInPlace(before, on, h);
      ShownInPlace(after, on, h);
    } else if IC.ParentOf(before, on).None? {
      FullPhotoShowsNothing(after, on, route, h);
    } else {
      var parent := IC.ParentOf(before, on).value;
      ParentIsEarlier(db, on);
      NothingAppears(db, x, parent, route, h);
      ShownThroughParent(before, on, parent, route, h);
      ShownThroughParent(after, on, parent, route, h);
      var (a, b) := (IC.Shown(before, parent, route, h).value, IC.Shown(after, parent, route, h).value);
      var m := IC.MatchesInto(before, on);
      TranslatedIds(a, m);
      TranslatedIds(b, Struck(m, x));
      forall y | y in Kept(b.ids, Struck(m, x)) ensures y in Kept(a.ids, m) {
        KeptMembers(b.ids, Struck(m, x), y);
        KeptMembers(a.ids, m, y);
      }
    }
  }

  /** A route saved on a photo below the hold's own never went through the hold. */
  lemma {:induction false} LaterRoutesStay(db: Db, x: HoldId, on: ImageId, route: ImageId, h: RouteHolds)
    requires Sound(db) && x in db.holds && db.holds[x].image < route
    ensures IC.Shown(TablesOf(WithoutHolds(db, {x})), on, route, h) == IC.Shown(TablesOf(db), on, route, h)
    decreases on
  {
    hide Sound, TablesOf, IC.ParentOf, IC.MatchesInto, IC.Shown, WithoutHolds;
    var (before, after) := (TablesOf(db), TablesOf(WithoutHolds(db, {x})));
    if on < route {
      NothingOfLaterPhotos(db, on, route, h);
      WithoutHoldsIsSound(db, {x});
      NothingOfLaterPhotos(WithoutHolds(db, {x}), on, route, h);
    } else if on == route {
      ShownInPlace(before, on, h);
      ShownInPlace(after, on, h);
    } else {
      TablesAfterDeletion(db, x, on);
      if IC.ParentOf(before, on).None? {
        FullPhotoShowsNothing(before, on, route, h);
        FullPhotoShowsNothing(after, on, route, h);
      } else {
        var parent := IC.ParentOf(before, on).value;
        ParentIsEarlier(db, on);
        LaterRoutesStay(db, x, parent, route, h);
        ShownThroughParent(before, on, parent, route, h);
        ShownThroughParent(after, on, parent, route, h);
        if parent < route {
          NothingOfLaterPhotos(db, parent, route, h);
          assert Then(Ok(IC.NOTHING), IC.MatchesInto(before, on)) == Then(Ok(IC.NOTHING), IC.MatchesInto(after, on));
        } else {
          RowsKnowTheirPhotos(db, x, on);
          assert Struck(IC.MatchesInto(before, on), x) == IC.MatchesInto(before, on);
        }
      }
    }
  }

  /** No other route keeps an heir. */
  lemma {:induction false} HeirsAreLost(db: Db, x: HoldId, on: ImageId, route: ImageId, h: RouteHolds)
    requires Sound(db) && x in db.holds && Listed(h) && route != on && !Descends(db, route, db.holds[x].image)
    ensures IC.Shown(TablesOf(WithoutHolds(db, {x})), on, route, h).Ok?
    ensures forall y :: y in IC.Shown(TablesOf(WithoutHolds(db, {x})), on, route, h).value.ids ==> y !in Heirs(db, on, x)
    decreases on, 0
  {
    hide Sound, TablesOf, IC.ParentOf, IC.MatchesInto, IC.Shown, WithoutHolds, Listed, Heirs, HoldRoles.Injective, Descends;
    var (after, photo) := (TablesOf(WithoutHolds(db, {x})), db.holds[x].image);
    ShownIsListed(after, on, route, h);
    TablesAfterDeletion(db, x, on);
    if IC.ParentOf(after, on).None? {
      FullPhotoShowsNothing(after, on, route, h);
    } else {
      var parent := IC.ParentOf(after, on).value;
      ParentIsEarlier(db, on);
      ShownIsListed(after, parent, route, h);
      ShownThroughParent(after, on, parent, route, h);
      var b := IC.Shown(after, parent, route, h).value;
      TranslatedIds(b, Struck(IC.MatchesInto(TablesOf(db), on), x));
      ParentKeepsNone(db, x, parent, route, h);
      StruckLosesHeirs(db, x, on, parent, b.ids);
    }
  }

  /** On the parent no heir but the hold itself is left. */
  lemma ParentKeepsNone(db: Db, x: HoldId, parent: ImageId, route: ImageId, h: RouteHolds)
    requires Sound(db) && x in db.holds && Listed(h) && !Descends(db, route, db.holds[x].image)
    ensures IC.Shown(TablesOf(WithoutHolds(db, {x})), parent, route, h).Ok?
    ensures forall y :: y in IC.Shown(TablesOf(WithoutHolds(db, {x})), parent, route, h).value.ids && y in Heirs(db, parent, x) ==> y == x
    decreases parent, 1
  {
    hide Sound, TablesOf, IC.Shown, WithoutHolds, Listed, Descends, Heirs;
    if parent == route {
      ShownInPlace(TablesOf(WithoutHolds(db, {x})), parent, h);
      if Heirs(db, parent, x) != {} {
        HeirsLiveBelow(db, parent, x);
        HeirsAtHome(db, x);
      }
    } else {
      HeirsAreLost(db, x, parent, route, h);
    }
  }

  lemma StruckLosesHeirs(db: Db, x: HoldId, on: ImageId, parent: ImageId, ids: seq<HoldId>)
    requires Sound(db) && x in db.holds && IC.ParentOf(TablesOf(db), on) == Some(parent)
    requires forall y :: y in ids && y in Heirs(db, parent, x) ==> y == x
    ensures forall y :: y in Kept(ids, Struck(IC.MatchesInto(TablesOf(db), on), x)) ==> y !in Heirs(db, on, x)
  {
    hide Sound, TablesOf, IC.ParentOf, IC.MatchesInto, IC.Shown, Heirs;
    var m := IC.MatchesInto(TablesOf(db), on);
    MapsAreInjective(db, on);
    HeirsAtHome(db, x);
    if on != db.holds[x].image { HeirsThroughParent(db, on, x, parent); }
    forall y | y in Kept(ids, Struck(m, x)) ensures y !in Heirs(db, on, x) {
      KeptMembers(ids, Struck(m, x), y);
    }
  }

  lemma AgreementWithoutIsEquality(dead: set<HoldId>, a: RouteHolds, b: RouteHolds)
    requires AgreeBut(dead, Ok(a), Ok(b)) && Listed(a) && Listed(b) && Mentioned(a) !! dead && Mentioned(b) !! dead
    ensures a == b
  {
    var all := Mentioned(a) + Mentioned(b);
    IdentityKeeps(a, all);
    IdentityKeeps(b, all);
    assert all !! dead;
    assert Then(Ok(a), Identity(all)) == Then(Ok(b), Identity(all));
  }

  lemma ValidRolesMentionIds(h: RouteHolds)
    requires HoldRoles.ValidRoles(h)
    ensures Listed(h) && Mentioned(h) == set x | x in h.ids
  {
  }

  /** What is left was there before, in the same roles. */
  lemma DeletionAddsNothing(db: Db, x: HoldId, on: ImageId, route: ImageId, h: RouteHolds)
    requires Sound(db) && x in db.holds && Listed(h)
    ensures PartOf(IC.Shown(TablesOf(WithoutHolds(db, {x})), on, route, h), IC.Shown(TablesOf(db), on, route, h))
  {
    hide Sound, TablesOf, IC.Shown, WithoutHolds, Heirs, Descends, Listed, AgreeBut, HasRole;
    var (before, after) := (IC.Shown(TablesOf(db), on, route, h), IC.Shown(TablesOf(WithoutHolds(db, {x})), on, route, h));
    ListedDecodes(h);
    DeletionReachesOnlyHeirs(db, x, on, route, h);
    AgreementDecodes(Heirs(db, on, x), before, after);
    if route == on || Descends(db, route, db.holds[x].image) {
      DescendantsStay(db, x, on, route, h);
      PartOfItself(before);
    } else {
      HeirsAreLost(db, x, on, route, h);
      forall y | y in after.value.ids ensures SharedHold(after.value, before.value, y) {
        AgreementShares(Heirs(db, on, x), before, after, y);
      }
    }
  }

  lemma ListedDecodes(h: RouteHolds)
    requires Listed(h)
    ensures RolesDecode(h.roles)
  {
  }

  lemma AgreementDecodes(dead: set<HoldId>, a: Outcome, b: Outcome)
    requires AgreeBut(dead, a, b)
    ensures Decodes(a) && Decodes(b)
  {
  }

  lemma DescendantsStay(db: Db, x: HoldId, on: ImageId, route: ImageId, h: RouteHolds)
    requires Sound(db) && x in db.holds && (route == on || Descends(db, route, db.holds[x].image))
    ensures IC.Shown(TablesOf(WithoutHolds(db, {x})), on, route, h) == IC.Shown(TablesOf(db), on, route, h)
  {
    hide Sound, TablesOf, IC.Shown, WithoutHolds, Descends;
    if route == on {
      ShownInPlace(TablesOf(db), on, h);
      ShownInPlace(TablesOf(WithoutHolds(db, {x})), on, h);
    } else {
      DescendantsAreLater(db, route, db.holds[x].image);
      LaterRoutesStay(db, x, on, route, h);
    }
  }

  lemma MirrorAfterDeletion(dead: set<HoldId>, heirs: set<HoldId>, a: Outcome, b: Outcome, replay: Outcome)
    requires Mirrors(dead, a, replay) && AgreeBut(heirs, a, b) && PartOf(b, a)
    ensures Mirrors(dead + heirs, b, replay)
  {
    PartOfPart(b, a, replay);
    hide PartOf;
  }

  /** The same against any list the shown one mirrored before: a deletion costs no more than the heirs. */
  lemma DeletionShows(db: Db, x: HoldId, on: ImageId, route: ImageId, h: RouteHolds, dead: set<HoldId>, replay: Outcome)
    requires Sound(db) && x in db.holds && Listed(h)
    requires Mirrors(dead, IC.Shown(TablesOf(db), on, route, h), replay)
    ensures Mirrors(dead + Heirs(db, on, x), IC.Shown(TablesOf(WithoutHolds(db, {x})), on, route, h), replay)
  {
    hide Sound, TablesOf, IC.Shown, Heirs, WithoutHolds, Listed, Mirrors, PartOf, AgreeBut;
    ListedDecodes(h);
    DeletionReachesOnlyHeirs(db, x, on, route, h);
    DeletionAddsNothing(db, x, on, route, h);
    MirrorAfterDeletion(dead, Heirs(db, on, x), IC.Shown(TablesOf(db), on, route, h), IC.Shown(TablesOf(WithoutHolds(db, {x})), on, route, h), replay);
  }

  /**
   Whatever photo the hold was on, what a photo shows of a route stays the same if and only if the
   route is saved on that very photo, or on one descending from the hold's, or shows no heir of it.
   */
  lemma ShownStaysExactlyWhen(db: Db, x: HoldId, on: ImageId, route: ImageId, h: RouteHolds)
    requires Sound(db) && x in db.holds && HoldRoles.ValidRoles(h)
    ensures var (before, after) := (IC.Shown(TablesOf(db), on, route, h), IC.Shown(TablesOf(WithoutHolds(db, {x})), on, route, h));
      && before.Ok?
      && (after == before <==>
           route == on || Descends(db, route, db.holds[x].image) || forall y :: y in before.value.ids ==> y !in Heirs(db, on, x))
  {
    hide Sound, TablesOf, IC.Shown, WithoutHolds, Heirs, HoldRoles.ValidRoles, Descends, Listed, Mentioned, AgreeBut;
    var (before, after) := (TablesOf(db), TablesOf(WithoutHolds(db, {x})));
    ValidRolesMentionIds(h);
    NothingAppears(db, x, on, route, h);
    var (a, b) := (IC.Shown(before, on, route, h).value, IC.Shown(after, on, route, h).value);
    if route == on || Descends(db, route, db.holds[x].image) {
      DescendantsStay(db, x, on, route, h);
    } else {
      HeirsAreLost(db, x, on, route, h);
      if forall y :: y in a.ids ==> y !in Heirs(db, on, x) {
        WithoutHoldsIsSound(db, {x});
        ShownRolesAreValid(db, on, route, h);
        ShownRolesAreValid(WithoutHolds(db, {x}), on, route, h);
        ValidRolesMentionIds(a);
        ValidRolesMentionIds(b);
        ListedDecodes(h);
        DeletionReachesOnlyHeirs(db, x, on, route, h);
        AgreementWithoutIsEquality(Heirs(db, on, x), a, b);
      }
    }
  }

  lemma ValidRolesDecodeNow(h: RouteHolds)
    requires HoldRoles.ValidRoles(h)
    ensures RolesDecode(h.roles)
  {
    HoldRoles.ValidRolesDecode(h);
  }

  lemma DescendantsAreLater(db: Db, i: ImageId, ancestor: ImageId)
    requires Sound(db) && Descends(db, i, ancestor)
    ensures ancestor < i
  {
    hide Sound, TablesOf;
    var n: nat :| n > 0 && IC.Up(TablesOf(db), i, n) == Some(ancestor);
    AncestorsAreEarlier(db, i, n);
  }

  // ---------------------------------------------------------------- late and timely deletions

  ghost predicate NoRouteChanges(db: Db, x: HoldId, on: ImageId, wall: WallId) {
    forall route, h :: route in Shelf(db, wall) && HoldRoles.ValidRoles(h) ==>
      IC.Shown(TablesOf(WithoutHolds(db, {x})), on, route, h) == IC.Shown(TablesOf(db), on, route, h)
  }

  ghost predicate RoutesAgreeBut(db: Db, x: HoldId, on: ImageId, wall: WallId) {
    forall route, h :: route in Shelf(db, wall) && HoldRoles.ValidRoles(h) ==>
      AgreeBut({x}, IC.Shown(TablesOf(db), on, route, h), IC.Shown(TablesOf(WithoutHolds(db, {x})), on, route, h))
  }

  /**
   A deletion that lands after its photo was replaced harms no route that there could be, not even
   up to the deleted hold, exactly if a route of that hold alone shows nothing on the active photo.
   */
  lemma LateDeletionIsHarmlessExactlyWhen(db: Db, x: HoldId, wall: WallId, active: ImageId)
    requires Sound(db) && IsActive(db, wall, active)
    requires x in db.holds && db.holds[x].image in Shelf(db, wall) && db.holds[x].image != active
    ensures
      var nothing := IC.Shown(TablesOf(db), active, db.holds[x].image, Bare([x])) == Ok(IC.NOTHING);
      && (NoRouteChanges(db, x, active, wall) <==> nothing)
      && (RoutesAgreeBut(db, x, active, wall) <==> nothing)
  {
    hide Sound, TablesOf, IC.Shown, WithoutHolds, Heirs, HoldRoles.ValidRoles, Descends, AgreeBut, Shelf, IsActive;
    NoHeirsMeansNothing(db, active, x);
    if Heirs(db, active, x) == {} {
      forall route, h | route in Shelf(db, wall) && HoldRoles.ValidRoles(h)
        ensures IC.Shown(TablesOf(WithoutHolds(db, {x})), active, route, h) == IC.Shown(TablesOf(db), active, route, h)
        ensures AgreeBut({x}, IC.Shown(TablesOf(db), active, route, h), IC.Shown(TablesOf(WithoutHolds(db, {x})), active, route, h))
      {
        ShownStaysExactlyWhen(db, x, active, route, h);
        ShownRolesAreValid(db, active, route, h);
        ValidRolesDecodeNow(IC.Shown(TablesOf(db), active, route, h).value);
        AgreesWithItself({x}, IC.Shown(TablesOf(db), active, route, h));
      }
    } else {
      LostHeirShows(db, x, active);
      BareIsValid([x]);
    }
  }

  lemma BareIsValid(ids: seq<HoldId>)
    ensures HoldRoles.ValidRoles(Bare(ids))
  {
  }

  lemma NoHeirsMeansNothing(db: Db, on: ImageId, x: HoldId)
    requires x in db.holds
    ensures Heirs(db, on, x) == {} <==> IC.Shown(TablesOf(db), on, db.holds[x].image, Bare([x])) == Ok(IC.NOTHING)
  {
    var (t, photo) := (TablesOf(db), db.holds[x].image);
    hide TablesOf, IC.Shown;
    BareIsShown(t, on, photo, [x]);
    BareStaysBare(t, on, photo, [x]);
    var ids := IC.Shown(t, on, photo, Bare([x])).value.ids;
    if ids != [] { assert ids[0] in Heirs(db, on, x); }
  }

  lemma {:induction false} BareDescends(t: IC.Tables, on: ImageId, n: nat, ids: seq<HoldId>)
    ensures IC.Descend(t, on, n, Bare(ids)).Ok? && IC.Descend(t, on, n, Bare(ids)).value.roles == Absent
    decreases n
  {
    if n > 0 && IC.Up(t, on, n - 1).Some? {
      BareDescends(t, on, n - 1, Kept(ids, IC.MatchesInto(t, IC.Up(t, on, n - 1).value)));
    }
  }

  lemma BareStaysBare(t: IC.Tables, on: ImageId, image: ImageId, ids: seq<HoldId>)
    ensures IC.Shown(t, on, image, Bare(ids)).Ok? && IC.Shown(t, on, image, Bare(ids)).value.roles == Absent
  {
    if n: nat :| IC.AtDepth(t, on, image, n) {
      IC.ShownAtDepth(t, on, image, Bare(ids), n);
      BareDescends(t, on, n, ids);
    }
  }

  lemma OneSideLacks(a: RouteHolds, b: RouteHolds, x: HoldId, y: HoldId)
    requires y in a.ids && y !in b.ids && y != x
    ensures !AgreeBut({x}, Ok(a), Ok(b))
  {
    if AgreeBut({x}, Ok(a), Ok(b)) {
      assert {y} !! {x};
      assert Then(Ok(a), Identity({y})) == Then(Ok(b), Identity({y}));
      TranslatedDecodes(a, Identity({y}));
      TranslatedDecodes(b, Identity({y}));
      TranslatedIds(a, Identity({y}));
      TranslatedIds(b, Identity({y}));
      KeptMembers(a.ids, Identity({y}), y);
      KeptMembers(b.ids, Identity({y}), y);
    }
  }

  /** A route of the hold alone loses its heir, which is another hold. */
  lemma LostHeirShows(db: Db, x: HoldId, on: ImageId)
    requires Sound(db) && x in db.holds && on != db.holds[x].image && Heirs(db, on, x) != {}
    ensures var (before, after) := (IC.Shown(TablesOf(db), on, db.holds[x].image, Bare([x])),
                                    IC.Shown(TablesOf(WithoutHolds(db, {x})), on, db.holds[x].image, Bare([x])));
      after != before && !AgreeBut({x}, before, after)
  {
    hide Sound, TablesOf, IC.Shown, WithoutHolds, Heirs, Listed, Descends, AgreeBut;
    var photo := db.holds[x].image;
    var (before, after) := (IC.Shown(TablesOf(db), on, photo, Bare([x])), IC.Shown(TablesOf(WithoutHolds(db, {x})), on, photo, Bare([x])));
    var y :| y in Heirs(db, on, x);
    HeirIsShown(db, on, x, y);
    assert !Descends(db, photo, photo) by { if Descends(db, photo, photo) { DescendantsAreLater(db, photo, photo); } }
    ValidRolesMentionIds(Bare([x]));
    HeirsAreLost(db, x, on, photo, Bare([x]));
    HeirsAreOthers(db, x, on, y);
    OneSideLacks(before.value, after.value, x, y);
  }

  lemma HeirIsShown(db: Db, on: ImageId, x: HoldId, y: HoldId)
    requires x in db.holds && y in Heirs(db, on, x)
    ensures var shown := IC.Shown(TablesOf(db), on, db.holds[x].image, Bare([x])); shown.Ok? && y in shown.value.ids
  {
  }

  lemma HeirsAreOthers(db: Db, x: HoldId, on: ImageId, y: HoldId)
    requires Sound(db) && x in db.holds && on != db.holds[x].image && y in Heirs(db, on, x)
    ensures y != x
  {
    hide Sound, TablesOf, IC.Shown, IC.ParentOf, IC.MatchesInto, Heirs;
    if IC.ParentOf(TablesOf(db), on).None? {
      NoHeirsOnFullPhotos(db, on, x);
    } else {
      HeirsThroughParent(db, on, x, IC.ParentOf(TablesOf(db), on).value);
      RowsKnowTheirPhotos(db, x, on);
    }
  }

  /**
   A deletion that lands while the photo is active leaves a route that showed its replay showing it
   exactly if the route is saved on the active photo, or the hold is not among what it showed.
   */
  lemma TimelyDeletionKeepsExactlyWhen(db: Db, x: HoldId, wall: WallId, route: ImageId, h: RouteHolds, replay: Outcome)
    requires Sound(db) && x in db.holds && IsActive(db, wall, db.holds[x].image) && route in Shelf(db, wall) && HoldRoles.ValidRoles(h)
    requires IC.Shown(TablesOf(db), db.holds[x].image, route, h) == replay
    ensures replay.Ok?
    ensures IC.Shown(TablesOf(WithoutHolds(db, {x})), db.holds[x].image, route, h) == replay
      <==> route == db.holds[x].image || x !in replay.value.ids
  {
    hide Sound, TablesOf, IC.Shown, WithoutHolds, Heirs, HoldRoles.ValidRoles, Descends;
    var active := db.holds[x].image;
    ShownStaysExactlyWhen(db, x, active, route, h);
    HeirsAtHome(db, x);
    if Descends(db, route, active) { ShelfEndsAtActive(db, wall, active, route); }
  }

  /** No shelved photo descends from the active one. */
  lemma ShelfEndsAtActive(db: Db, wall: WallId, active: ImageId, i: ImageId)
    requires Sound(db) && IsActive(db, wall, active) && i in Shelf(db, wall)
    ensures !Descends(db, i, active)
  {
    hide Sound, TablesOf, IC.ParentOf;
    forall n: nat | n > 0 ensures IC.Up(TablesOf(db), i, n) != Some(active) {
      if IC.Up(TablesOf(db), i, n) == Some(active) {
        var child := IC.Up(TablesOf(db), i, n - 1).value;
        AncestorsAreShelved(db, wall, i, n - 1);
        ActiveHasNoShelvedReset(db, wall, active, child);
      }
    }
  }

  lemma {:induction false} AncestorsAreShelved(db: Db, wall: WallId, i: ImageId, n: nat)
    requires Sound(db) && i in Shelf(db, wall) && IC.Up(TablesOf(db), i, n).Some?
    ensures IC.Up(TablesOf(db), i, n).value in Shelf(db, wall)
  {
    hide Sound, TablesOf, IC.ParentOf, Shelf;
    if n > 0 {
      AncestorsAreShelved(db, wall, i, n - 1);
      ShelfIsClosed(db, wall, IC.Up(TablesOf(db), i, n - 1).value);
    }
  }

  lemma ActiveHasNoShelvedReset(db: Db, wall: WallId, active: ImageId, i: ImageId)
    requires Sound(db) && IsActive(db, wall, active) && i in Shelf(db, wall)
    ensures IC.ParentOf(TablesOf(db), i) != Some(active)
  {
    SoundHasLifecycle(db);
    hide Sound, PartialInjection, MatchesOf;
    assert IC.ParentOf(TablesOf(db), i) == Some(active) ==> ParentIs(db.images, i, active);
  }
}
