/**
 What a route shows on another photo (server/internal/route/legacy_remap.go), one
 reset after another, and when two hold lists agree up to some holds.
 */
module LazyDisplay {
  import opened Wrappers
  import opened HoldRemap
  import opened Homography
  import opened HoldOutline
  import opened WallTables
  import opened WallInvariant
  import opened WallRuns
  import opened WallSafety
  import HoldRoles
  import IC = ImageChain

  type Outcome = Result<RouteHolds, RemapError>

  // ---------------------------------------------------------------- one translation after another

  function Then(r: Outcome, m: Matches): Outcome {
    match r
    case Err(e) => Err(e)
    case Ok(h) => Translated(h, m)
  }

  ghost predicate Decodes(r: Outcome) {
    r.Ok? && RolesDecode(r.value.roles)
  }

  lemma ThenDecodes(r: Outcome, m: Matches)
    requires Decodes(r)
    ensures Decodes(Then(r, m))
  {
    TranslatedDecodes(r.value, m);
  }

  lemma ThenComposes(r: Outcome, first: Matches, second: Matches)
    requires Decodes(r)
    ensures Then(Then(r, first), second) == Then(r, Compose(first, second))
  {
    TranslationsCompose(r.value, first, second);
  }

  function Identity(ids: set<HoldId>): Matches {
    map x | x in ids :: x
  }

  /** The same holds and roles, once the holds in `dead` are left out of both. */
  ghost predicate AgreeBut(dead: set<HoldId>, a: Outcome, b: Outcome) {
    && Decodes(a) && Decodes(b)
    && forall ids :: ids !! dead ==> Then(a, Identity(ids)) == Then(b, Identity(ids))
  }

  /** A map over holds that are not dead cannot tell the two apart. */
  lemma AgreementCarries(dead: set<HoldId>, a: Outcome, b: Outcome, m: Matches)
    requires AgreeBut(dead, a, b) && m.Keys !! dead
    ensures Then(a, m) == Then(b, m)
  {
    ThenComposes(a, Identity(m.Keys), m);
    ThenComposes(b, Identity(m.Keys), m);
    assert Compose(Identity(m.Keys), m) == m;
  }

  /** What a map makes of some holds. */
  function Carried(m: Matches, ids: set<HoldId>): set<HoldId> {
    set x | x in ids && x in m :: m[x]
  }

  /** Lists that agree but for some holds agree after a map but for what it makes of those. */
  lemma AgreementThroughMatches(dead: set<HoldId>, a: Outcome, b: Outcome, m: Matches)
    requires AgreeBut(dead, a, b)
    ensures AgreeBut(Carried(m, dead), Then(a, m), Then(b, m))
  {
    ThenDecodes(a, m);
    ThenDecodes(b, m);
    forall ids | ids !! Carried(m, dead) ensures Then(Then(a, m), Identity(ids)) == Then(Then(b, m), Identity(ids)) {
      ThenComposes(a, m, Identity(ids));
      ThenComposes(b, m, Identity(ids));
      AgreementCarries(dead, a, b, Compose(m, Identity(ids)));
    }
  }

  lemma AgreementWeakens(dead: set<HoldId>, more: set<HoldId>, a: Outcome, b: Outcome)
    requires AgreeBut(dead, a, b) && dead <= more
    ensures AgreeBut(more, a, b)
  {
  }

  // ---------------------------------------------------------------- nothing shown that was not there

  /** The hold is in both lists, in the same roles. */
  ghost predicate SharedHold(a: RouteHolds, b: RouteHolds, y: HoldId) {
    y in b.ids && forall k :: HasRole(a, k, y) <==> HasRole(b, k, y)
  }

  /** Every hold of the one list is in the other, in the same roles. */
  ghost predicate PartOf(a: Outcome, b: Outcome) {
    Decodes(a) && Decodes(b) && forall y :: y in a.value.ids ==> SharedHold(a.value, b.value, y)
  }

  /** All that is shown comes from the other list, and nothing is missing but holds in `lost`. */
  ghost predicate Mirrors(lost: set<HoldId>, a: Outcome, b: Outcome) {
    AgreeBut(lost, a, b) && PartOf(a, b)
  }

  lemma PartOfItself(a: Outcome)
    requires Decodes(a)
    ensures PartOf(a, a)
  {
    hide HasRole;
  }

  lemma PartOfPart(a: Outcome, b: Outcome, c: Outcome)
    requires PartOf(a, b) && PartOf(b, c)
    ensures PartOf(a, c)
  {
    hide HasRole;
    forall y | y in a.value.ids ensures SharedHold(a.value, c.value, y) {
      assert SharedHold(a.value, b.value, y) && SharedHold(b.value, c.value, y);
    }
  }

  /** Where the map gives `y` for one hold only, `y` takes over the roles of that hold. */
  lemma RoleThroughMatches(h: RouteHolds, m: Matches, k: string, x: HoldId)
    requires RolesDecode(h.roles) && HoldRoles.Injective(m) && x in m
    ensures Translated(h, m).Ok?
    ensures HasRole(Translated(h, m).value, k, m[x]) <==> HasRole(h, k, x)
  {
    hide HasRole, Translated, RolesDecode;
    TranslatedHolds(h, m, k, m[x]);
  }

  lemma SharedThroughMatches(a: RouteHolds, b: RouteHolds, m: Matches, x: HoldId)
    requires RolesDecode(a.roles) && RolesDecode(b.roles) && HoldRoles.Injective(m) && x in m && SharedHold(a, b, x)
    ensures Translated(a, m).Ok? && Translated(b, m).Ok?
    ensures SharedHold(Translated(a, m).value, Translated(b, m).value, m[x])
  {
    hide HasRole, Translated, RolesDecode, HoldRoles.Injective;
    TranslatedHolds(b, m, "", m[x]);
    TranslatedHolds(a, m, "", m[x]);
    forall k ensures HasRole(Translated(a, m).value, k, m[x]) <==> HasRole(Translated(b, m).value, k, m[x]) {
      RoleThroughMatches(a, m, k, x);
      RoleThroughMatches(b, m, k, x);
    }
  }

  /** A map under which no two holds become one carries a part into a part. */
  lemma PartThroughMatches(a: Outcome, b: Outcome, m: Matches)
    requires PartOf(a, b) && HoldRoles.Injective(m)
    ensures PartOf(Then(a, m), Then(b, m))
  {
    ThenDecodes(a, m);
    ThenDecodes(b, m);
    hide HasRole, Translated, RolesDecode, HoldRoles.Injective, SharedHold;
    forall y | y in Then(a, m).value.ids ensures SharedHold(Then(a, m).value, Then(b, m).value, y) {
      TranslatedHolds(a.value, m, "", y);
      var x :| x in a.value.ids && x in m && m[x] == y;
      SharedThroughMatches(a.value, b.value, m, x);
    }
  }

  lemma MirrorThroughMatches(lost: set<HoldId>, a: Outcome, b: Outcome, m: Matches)
    requires Mirrors(lost, a, b) && HoldRoles.Injective(m)
    ensures Mirrors(Carried(m, lost), Then(a, m), Then(b, m))
  {
    AgreementThroughMatches(lost, a, b, m);
    PartThroughMatches(a, b, m);
  }

  lemma MirrorWeakens(lost: set<HoldId>, more: set<HoldId>, a: Outcome, b: Outcome)
    requires Mirrors(lost, a, b) && lost <= more
    ensures Mirrors(more, a, b)
  {
    AgreementWeakens(lost, more, a, b);
  }

  /** Outside the lost holds both lists show the same, in the same roles. */
  lemma AgreementShares(lost: set<HoldId>, a: Outcome, b: Outcome, y: HoldId)
    requires AgreeBut(lost, a, b) && y !in lost
    ensures y in a.value.ids <==> y in b.value.ids
    ensures forall k :: HasRole(a.value, k, y) <==> HasRole(b.value, k, y)
  {
    assert {y} !! lost;
    assert Then(a, Identity({y})) == Then(b, Identity({y}));
    hide AgreeBut, HasRole, Translated, RolesDecode;
    forall k ensures (y in a.value.ids <==> y in b.value.ids) && (HasRole(a.value, k, y) <==> HasRole(b.value, k, y)) {
      TranslatedHolds(a.value, Identity({y}), k, y);
      TranslatedHolds(b.value, Identity({y}), k, y);
      assert y in Identity({y}) && Identity({y})[y] == y;
    }
    assert HasRole(a.value, "", y) <==> HasRole(b.value, "", y);
  }

  // ---------------------------------------------------------------- the walk

  ghost predicate AgreeOn(t: IC.Tables, u: IC.Tables, near: set<ImageId>) {
    forall i :: i in near ==>
      && IC.ParentOf(t, i) == IC.ParentOf(u, i) && IC.MatchesInto(t, i) == IC.MatchesInto(u, i)
      && (IC.ParentOf(t, i).Some? ==> IC.ParentOf(t, i).value in near)
  }

  lemma {:induction false} UpAgrees(t: IC.Tables, u: IC.Tables, near: set<ImageId>, active: ImageId, n: nat)
    requires AgreeOn(t, u, near) && active in near
    ensures IC.Up(t, active, n) == IC.Up(u, active, n)
    ensures IC.Up(t, active, n).Some? ==> IC.Up(t, active, n).value in near
  {
    if n > 0 { UpAgrees(t, u, near, active, n - 1); }
  }

  lemma {:induction false} DescendAgrees(t: IC.Tables, u: IC.Tables, near: set<ImageId>, active: ImageId, n: nat, h: RouteHolds)
    requires AgreeOn(t, u, near) && active in near
    ensures IC.Descend(t, active, n, h) == IC.Descend(u, active, n, h)
    decreases n
  {
    if n > 0 {
      UpAgrees(t, u, near, active, n - 1);
      if IC.Up(t, active, n - 1).Some? {
        var step := Translated(h, IC.MatchesInto(t, IC.Up(t, active, n - 1).value));
        if step.Ok? { DescendAgrees(t, u, near, active, n - 1, step.value); }
      }
    }
  }

  lemma ShownAgrees(t: IC.Tables, u: IC.Tables, near: set<ImageId>, active: ImageId, image: ImageId, h: RouteHolds)
    requires AgreeOn(t, u, near) && active in near
    ensures IC.Shown(t, active, image, h) == IC.Shown(u, active, image, h)
  {
    forall n: nat
      ensures IC.Up(t, active, n) == IC.Up(u, active, n)
      ensures IC.Descend(t, active, n, h) == IC.Descend(u, active, n, h)
    {
      UpAgrees(t, u, near, active, n);
      DescendAgrees(t, u, near, active, n, h);
    }
    if n: nat :| IC.AtDepth(t, active, image, n) {
      assert IC.AtDepth(u, active, image, n);
      IC.ShownAtDepth(t, active, image, h, n);
      IC.ShownAtDepth(u, active, image, h, n);
    } else {
      assert forall n: nat :: !IC.AtDepth(u, active, image, n) by {
        forall n: nat ensures !IC.AtDepth(u, active, image, n) { assert !IC.AtDepth(t, active, image, n); }
      }
    }
  }

  lemma {:induction false} UpThroughParent(t: IC.Tables, child: ImageId, parent: ImageId, n: nat)
    requires IC.ParentOf(t, child) == Some(parent)
    ensures IC.Up(t, child, n + 1) == IC.Up(t, parent, n)
  {
    if n > 0 { UpThroughParent(t, child, parent, n - 1); } else { assert IC.Up(t, child, 0) == Some(child); }
  }

  lemma {:induction false} DescendThroughParent(t: IC.Tables, child: ImageId, parent: ImageId, n: nat, h: RouteHolds)
    requires IC.ParentOf(t, child) == Some(parent) && IC.Up(t, parent, n).Some?
    ensures IC.Descend(t, child, n + 1, h) == Then(IC.Descend(t, parent, n, h), IC.MatchesInto(t, child))
    decreases n
  {
    if n == 0 {
      assert IC.Up(t, child, 0) == Some(child);
    } else {
      UpThroughParent(t, child, parent, n - 1);
      var step := Translated(h, IC.MatchesInto(t, IC.Up(t, parent, n - 1).value));
      if step.Ok? { DescendThroughParent(t, child, parent, n - 1, step.value); }
    }
  }

  /** Showing on a reset photo is showing on its parent, then through the reset's matches. */
  lemma ShownThroughParent(t: IC.Tables, child: ImageId, parent: ImageId, image: ImageId, h: RouteHolds)
    requires IC.ParentOf(t, child) == Some(parent) && image != child
    ensures IC.Shown(t, child, image, h) == Then(IC.Shown(t, parent, image, h), IC.MatchesInto(t, child))
  {
    forall n: nat ensures IC.Up(t, child, n + 1) == IC.Up(t, parent, n) { UpThroughParent(t, child, parent, n); }
    assert IC.Up(t, child, 0) == Some(child);
    if n: nat :| IC.AtDepth(t, parent, image, n) {
      assert IC.AtDepth(t, child, image, n + 1) by {
        forall k: nat | k < n + 1 ensures IC.Up(t, child, k) != Some(image) {
          if k > 0 { assert IC.Up(t, child, (k - 1) + 1) == IC.Up(t, parent, k - 1); }
        }
      }
      IC.ShownAtDepth(t, parent, image, h, n);
      IC.ShownAtDepth(t, child, image, h, n + 1);
      DescendThroughParent(t, child, parent, n, h);
    } else {
      forall n: nat ensures !IC.AtDepth(t, child, image, n) {
        if IC.AtDepth(t, child, image, n) {
          assert n > 0 && IC.Up(t, child, (n - 1) + 1) == IC.Up(t, parent, n - 1);
          assert forall k: nat :: k < n - 1 ==> IC.Up(t, parent, k) == IC.Up(t, child, k + 1);
          assert IC.AtDepth(t, parent, image, n - 1);
        }
      }
      assert Translated(IC.NOTHING, IC.MatchesInto(t, child)) == Ok(IC.NOTHING);
    }
  }

  lemma {:induction false} NothingAboveFullPhoto(t: IC.Tables, active: ImageId, n: nat)
    requires IC.ParentOf(t, active).None? && n > 0
    ensures IC.Up(t, active, n).None?
  {
    if n == 1 { assert IC.Up(t, active, 0) == Some(active); } else { NothingAboveFullPhoto(t, active, n - 1); }
  }

  /** A photo without a parent shows nothing of the routes of other photos. */
  lemma FullPhotoShowsNothing(t: IC.Tables, active: ImageId, image: ImageId, h: RouteHolds)
    requires IC.ParentOf(t, active).None? && image != active
    ensures IC.Shown(t, active, image, h) == Ok(IC.NOTHING)
  {
    forall n: nat ensures !IC.AtDepth(t, active, image, n) {
      if n > 0 { NothingAboveFullPhoto(t, active, n); }
    }
  }

  lemma ShownInPlace(t: IC.Tables, active: ImageId, h: RouteHolds)
    ensures IC.Shown(t, active, active, h) == Ok(h)
  {
    IC.ShownAtDepth(t, active, active, h, 0);
  }

  lemma TablesAt(db: Db, i: ImageId)
    requires i in db.images
    ensures IC.ParentOf(TablesOf(db), i) == db.images[i].parent && IC.MatchesInto(TablesOf(db), i) == MatchesOf(db, i)
  {
    hide MatchesOf;
  }

  lemma ParentIsEarlier(db: Db, i: ImageId)
    requires Sound(db) && IC.ParentOf(TablesOf(db), i).Some?
    ensures IC.ParentOf(TablesOf(db), i).value < i
  {
    SoundHasLifecycle(db);
    hide Sound, PartialInjection, Lifecycle, ResetsFollow, MatchesOf;
    assert ParentIs(db.images, i, IC.ParentOf(TablesOf(db), i).value);
  }

  lemma {:induction false} AncestorsAreEarlier(db: Db, i: ImageId, n: nat)
    requires Sound(db) && n > 0 && IC.Up(TablesOf(db), i, n).Some?
    ensures IC.Up(TablesOf(db), i, n).value < i
  {
    hide Sound, TablesOf, IC.ParentOf;
    if n > 1 { AncestorsAreEarlier(db, i, n - 1); }
    ParentIsEarlier(db, IC.Up(TablesOf(db), i, n - 1).value);
  }

  /** No photo is its own ancestor. */
  lemma AncestryIsAcyclic(db: Db, i: ImageId, n: nat)
    requires Sound(db) && IC.Up(TablesOf(db), i, n) == Some(i)
    ensures n == 0
  {
    if n > 0 { AncestorsAreEarlier(db, i, n); }
  }

  /** Non-pending photos of one wall: where a walk from its active photo stays. */
  function Shelf(db: Db, wall: WallId): set<ImageId> {
    set i | i in db.images && db.images[i].wall == wall && !IsPending(db.images[i])
  }

  lemma ParentIsOnShelf(images: map<ImageId, Image>, i: ImageId)
    requires Shaped(images) && ResetsFollow(images) && i in images && images[i].parent.Some?
    ensures images[i].parent.value in images && images[images[i].parent.value].wall == images[i].wall
    ensures !IsPending(images[images[i].parent.value])
  {
    assert ParentIs(images, i, images[i].parent.value);
  }

  lemma ShelfIsClosed(db: Db, wall: WallId, i: ImageId)
    requires Sound(db) && i in Shelf(db, wall)
    ensures IC.ParentOf(TablesOf(db), i) == db.images[i].parent && IC.MatchesInto(TablesOf(db), i) == MatchesOf(db, i)
    ensures db.images[i].parent.Some? ==> db.images[i].parent.value in Shelf(db, wall)
  {
    hide Sound, MatchesOf, IsPending, Shaped, ResetsFollow;
    SoundHasLifecycle(db);
    if db.images[i].parent.Some? { ParentIsOnShelf(db.images, i); }
  }

  // ---------------------------------------------------------------- agreement and equality

  ghost predicate Listed(h: RouteHolds) {
    RolesDecode(h.roles) && (h.roles.Object? ==> forall k :: k in h.roles.roles ==> h.roles.roles[k].List?)
  }

  ghost function Mentioned(h: RouteHolds): set<HoldId>
    requires RolesDecode(h.roles)
  {
    (set x | x in h.ids) + if h.roles.Object? then (set k, x | k in h.roles.roles && x in Ids(h.roles.roles[k]) :: x) else {}
  }

  lemma {:induction false} KeptByIdentity(ids: seq<HoldId>, all: set<HoldId>)
    requires forall x :: x in ids ==> x in all
    ensures Kept(ids, Identity(all)) == ids
  {
    if ids != [] { KeptByIdentity(ids[1..], all); }
  }

  lemma RoleKeptByIdentity(v: RoleValue, all: set<HoldId>)
    requires v.List? && ValueDecodes(v) && forall x :: x in Ids(v) ==> x in all
    ensures Encoded(Kept(Ids(v), Identity(all))) == v
  {
    KeptByIdentity(Ids(v), all);
    var entries := Encoded(Ids(v)).entries;
    forall i | 0 <= i < |v.entries| ensures entries[i] == v.entries[i] { assert v.entries[i] in v.entries; }
    assert entries == v.entries;
  }

  lemma IdentityKeeps(h: RouteHolds, all: set<HoldId>)
    requires Listed(h) && Mentioned(h) <= all
    ensures Translated(h, Identity(all)) == Ok(h)
  {
    KeptByIdentity(h.ids, all);
    if h.roles.Object? {
      var roles := h.roles.roles;
      hide Ids, Kept, Identity, ValueDecodes, Encoded;
      forall k | k in roles ensures KeptRoles(roles, Identity(all))[k] == roles[k] {
        forall x | x in Ids(roles[k]) ensures x in all { assert x in Mentioned(h); }
        RoleKeptByIdentity(roles[k], all);
      }
      assert KeptRoles(roles, Identity(all)) == roles;
    }
  }

  lemma AgreementIsEquality(a: RouteHolds, b: RouteHolds)
    requires AgreeBut({}, Ok(a), Ok(b)) && Listed(a) && Listed(b)
    ensures a == b
  {
    var all := Mentioned(a) + Mentioned(b);
    IdentityKeeps(a, all);
    IdentityKeeps(b, all);
    assert all !! {};
    assert Then(Ok(a), Identity(all)) == Then(Ok(b), Identity(all));
  }

  lemma TranslatedIsListed(h: RouteHolds, m: Matches)
    requires RolesDecode(h.roles)
    ensures Translated(h, m).Ok? && Listed(Translated(h, m).value)
  {
    TranslatedDecodes(h, m);
  }

  lemma {:induction false} DescendIsListed(t: IC.Tables, active: ImageId, n: nat, h: RouteHolds)
    requires Listed(h)
    ensures IC.Descend(t, active, n, h).Ok? && Listed(IC.Descend(t, active, n, h).value)
    decreases n
  {
    if n > 0 && IC.Up(t, active, n - 1).Some? {
      var m := IC.MatchesInto(t, IC.Up(t, active, n - 1).value);
      TranslatedIsListed(h, m);
      DescendIsListed(t, active, n - 1, Translated(h, m).value);
    }
  }

  lemma ShownIsListed(t: IC.Tables, active: ImageId, image: ImageId, h: RouteHolds)
    requires Listed(h)
    ensures IC.Shown(t, active, image, h).Ok? && Listed(IC.Shown(t, active, image, h).value)
  {
    if n: nat :| IC.AtDepth(t, active, image, n) {
      IC.ShownAtDepth(t, active, image, h, n);
      DescendIsListed(t, active, n, h);
    }
  }

  lemma ValidRolesAreListed(h: RouteHolds)
    requires HoldRoles.ValidRoles(h)
    ensures Listed(h)
  {
  }

  // ---------------------------------------------------------------- roles

  lemma MapsAreInjective(db: Db, i: ImageId)
    requires Sound(db)
    ensures HoldRoles.Injective(IC.MatchesInto(TablesOf(db), i))
  {
    hide Sound, MatchesOf;
    if i in db.images {
      TablesAt(db, i);
      MatchesAreAPartialInjection(db, i);
    }
  }

  /** Along any chain of resets roles stay valid: within the shown holds, one role a hold. */
  lemma {:induction false} ShownRolesAreValid(db: Db, on: ImageId, image: ImageId, h: RouteHolds)
    requires Sound(db) && HoldRoles.ValidRoles(h)
    ensures IC.Shown(TablesOf(db), on, image, h).Ok?
    ensures HoldRoles.ValidRoles(IC.Shown(TablesOf(db), on, image, h).value)
    decreases on
  {
    hide Sound, HoldRoles.ValidRoles, HoldRoles.Injective, TablesOf, IC.ParentOf, IC.MatchesInto, IC.Shown;
    var t := TablesOf(db);
    if on == image {
      ShownInPlace(t, on, h);
    } else if IC.ParentOf(t, on).None? {
      FullPhotoShowsNothing(t, on, image, h);
      NothingIsValid();
    } else {
      var parent := IC.ParentOf(t, on).value;
      ParentIsEarlier(db, on);
      ShownRolesAreValid(db, parent, image, h);
      MapsAreInjective(db, on);
      HoldRoles.TranslationKeepsRolesValid(IC.Shown(t, parent, image, h).value, IC.MatchesInto(t, on));
      ShownThroughParent(t, on, parent, image, h);
    }
  }

  lemma NothingIsValid()
    ensures HoldRoles.ValidRoles(IC.NOTHING)
  {
  }
}
