/**
 Translating a route's holds through one set of matches, in the two forms the
 server uses: the lossy form that drops unmatched holds
 (server/internal/route/legacy_remap.go) and the all-or-nothing form that rewrites
 a route when a reset is applied (server/internal/wall/reset_mapper.go).
 */
module HoldRemap {
  import opened Wrappers

  type HoldId = nat

  /** A stored JSON value under one role name; `None` is a string that is not a UUID. */
  datatype RoleValue = NotAList | NullList | List(entries: seq<Option<HoldId>>)

  /** The stored JSON of a route's roles; `Absent` is SQL NULL or the JSON null. */
  datatype RawRoles = Absent | NotAnObject | Object(roles: map<string, RoleValue>)

  datatype RouteHolds = RouteHolds(ids: seq<HoldId>, roles: RawRoles)

  datatype RemapError = UndecodableRoles

  type Matches = map<HoldId, HoldId>

  predicate ValueDecodes(v: RoleValue) {
    match v
    case NotAList => false
    case NullList => true
    case List(entries) => forall e :: e in entries ==> e.Some?
  }

  function Ids(v: RoleValue): seq<HoldId>
    requires ValueDecodes(v)
  {
    match v
    case NullList => []
    case List(entries) => seq(|entries|, i requires 0 <= i < |entries| => (assert entries[i] in entries; entries[i].value))
  }

  predicate RolesDecode(raw: RawRoles) {
    match raw
    case Absent => true
    case NotAnObject => false
    case Object(roles) => forall k :: k in roles ==> ValueDecodes(roles[k])
  }

  function Encoded(ids: seq<HoldId>): RoleValue {
    List(seq(|ids|, i requires 0 <= i < |ids| => Some(ids[i])))
  }

  /** The ids that have a match, translated, in their order. */
  function Kept(ids: seq<HoldId>, matches: Matches): seq<HoldId> {
    if ids == [] then []
    else if ids[0] in matches then [matches[ids[0]]] + Kept(ids[1..], matches)
    else Kept(ids[1..], matches)
  }

  predicate AllMatched(ids: seq<HoldId>, matches: Matches) {
    forall id :: id in ids ==> id in matches
  }

  function KeptRoles(roles: map<string, RoleValue>, matches: Matches): map<string, RoleValue>
    requires RolesDecode(Object(roles))
  {
    map k | k in roles :: Encoded(Kept(Ids(roles[k]), matches))
  }

  /** The lossy translation. */
  function Translated(h: RouteHolds, matches: Matches): Result<RouteHolds, RemapError> {
    if h.roles.Absent? then Ok(RouteHolds(Kept(h.ids, matches), Absent))
    else if !RolesDecode(h.roles) then Err(UndecodableRoles)
    else Ok(RouteHolds(Kept(h.ids, matches), Object(KeptRoles(h.roles.roles, matches))))
  }

  // ---------------------------------------------------------------- what Kept means

  lemma {:induction false} KeptMembers(ids: seq<HoldId>, matches: Matches, y: HoldId)
    ensures y in Kept(ids, matches) <==> exists x :: x in ids && x in matches && matches[x] == y
  {
    if ids != [] {
      KeptMembers(ids[1..], matches, y);
      assert forall x :: x in ids <==> x == ids[0] || x in ids[1..];
    }
  }

  lemma {:induction false} KeptAppend(a: seq<HoldId>, b: seq<HoldId>, matches: Matches)
    ensures Kept(a + b, matches) == Kept(a, matches) + Kept(b, matches)
  {
    if a == [] {
      assert a + b == b;
    } else {
      assert (a + b)[1..] == a[1..] + b;
      KeptAppend(a[1..], b, matches);
    }
  }

  /** Nothing is dropped exactly when every id has a match, and then position by position. */
  lemma {:induction false} KeptWhole(ids: seq<HoldId>, matches: Matches)
    ensures |Kept(ids, matches)| <= |ids|
    ensures |Kept(ids, matches)| == |ids| <==> AllMatched(ids, matches)
    ensures AllMatched(ids, matches) ==> forall i :: 0 <= i < |ids| ==> Kept(ids, matches)[i] == matches[ids[i]]
  {
    if ids != [] {
      KeptWhole(ids[1..], matches);
      assert forall x :: x in ids <==> x == ids[0] || x in ids[1..];
    }
  }

  function Compose(first: Matches, second: Matches): Matches {
    map x | x in first && first[x] in second :: second[first[x]]
  }

  /** Translating twice is translating once through the composed matches. */
  lemma {:induction false} KeptComposes(ids: seq<HoldId>, first: Matches, second: Matches)
    ensures Kept(Kept(ids, first), second) == Kept(ids, Compose(first, second))
  {
    if ids != [] {
      KeptComposes(ids[1..], first, second);
      if ids[0] in first {
        KeptAppend([first[ids[0]]], Kept(ids[1..], first), second);
      }
    }
  }

  lemma IdsOfEncoded(ids: seq<HoldId>)
    ensures ValueDecodes(Encoded(ids)) && Ids(Encoded(ids)) == ids
  {
  }

  lemma TranslatedDecodes(h: RouteHolds, matches: Matches)
    ensures Translated(h, matches).Ok? <==> RolesDecode(h.roles)
    ensures Translated(h, matches).Ok? ==> RolesDecode(Translated(h, matches).value.roles)
  {
    if RolesDecode(h.roles) && h.roles.Object? {
      forall k | k in h.roles.roles ensures ValueDecodes(KeptRoles(h.roles.roles, matches)[k]) {
        IdsOfEncoded(Kept(Ids(h.roles.roles[k]), matches));
      }
    }
  }

  /** Ids and roles alike: two lossy steps are one step through the composition. */
  lemma TranslationsCompose(h: RouteHolds, first: Matches, second: Matches)
    requires RolesDecode(h.roles)
    ensures Translated(h, first).Ok?
    ensures Translated(Translated(h, first).value, second) == Translated(h, Compose(first, second))
  {
    TranslatedDecodes(h, first);
    KeptComposes(h.ids, first, second);
    if h.roles.Object? {
      var roles := h.roles.roles;
      forall k | k in roles
        ensures ValueDecodes(KeptRoles(roles, first)[k])
        ensures Kept(Ids(KeptRoles(roles, first)[k]), second) == Kept(Ids(roles[k]), Compose(first, second))
      {
        IdsOfEncoded(Kept(Ids(roles[k]), first));
        KeptComposes(Ids(roles[k]), first, second);
      }
      assert KeptRoles(KeptRoles(roles, first), second) == KeptRoles(roles, Compose(first, second));
    }
  }

  // ---------------------------------------------------------------- what a translation keeps

  /** The places of the ids with a match, in order, and what the match makes of each. */
  ghost predicate PicksFrom(out: seq<HoldId>, ids: seq<HoldId>, matches: Matches, places: seq<nat>) {
    && |places| == |out|
    && (forall i, j :: 0 <= i < j < |places| ==> places[i] < places[j])
    && (forall i :: 0 <= i < |places| ==> places[i] < |ids| && ids[places[i]] in matches && out[i] == matches[ids[places[i]]])
    && (forall p: nat :: p < |ids| && ids[p] in matches ==> p in places)
  }

  /** `out` is what the matches make of the matched ids, each of them, in their old order. */
  ghost predicate CarriesOver(out: seq<HoldId>, ids: seq<HoldId>, matches: Matches) {
    exists places :: PicksFrom(out, ids, matches, places)
  }

  lemma PicksOneMore(out: seq<HoldId>, ids: seq<HoldId>, matches: Matches, places: seq<nat>, last: HoldId)
    requires PicksFrom(out, ids, matches, places)
    ensures last !in matches ==> PicksFrom(out, ids + [last], matches, places)
    ensures last in matches ==> PicksFrom(out + [matches[last]], ids + [last], matches, places + [|ids|])
  {
  }

  lemma {:induction false} KeptCarriesOver(ids: seq<HoldId>, matches: Matches)
    ensures CarriesOver(Kept(ids, matches), ids, matches)
  {
    if ids == [] {
      assert PicksFrom([], ids, matches, []);
    } else {
      var (front, last) := (ids[..|ids| - 1], ids[|ids| - 1]);
      assert ids == front + [last];
      KeptCarriesOver(front, matches);
      KeptAppend(front, [last], matches);
      var places: seq<nat> :| PicksFrom(Kept(front, matches), front, matches, places);
      PicksOneMore(Kept(front, matches), front, matches, places, last);
      assert Kept([last], matches) == if last in matches then [matches[last]] else [];
      if last !in matches {
        assert Kept(ids, matches) == Kept(front, matches);
      }
    }
  }

  /** Holds and roles carry over alike, role by role under the same names. */
  ghost predicate HoldsCarryOver(after: RouteHolds, before: RouteHolds, matches: Matches) {
    && CarriesOver(after.ids, before.ids, matches)
    && RolesDecode(before.roles) && RolesDecode(after.roles)
    && (after.roles.Object? <==> before.roles.Object?)
    && (before.roles.Object? ==>
         && after.roles.roles.Keys == before.roles.roles.Keys
         && forall k :: k in before.roles.roles ==> CarriesOver(Ids(after.roles.roles[k]), Ids(before.roles.roles[k]), matches))
  }

  lemma TranslationCarriesOver(h: RouteHolds, matches: Matches)
    requires RolesDecode(h.roles)
    ensures Translated(h, matches).Ok? && HoldsCarryOver(Translated(h, matches).value, h, matches)
  {
    TranslatedDecodes(h, matches);
    KeptCarriesOver(h.ids, matches);
    if h.roles.Object? {
      forall k | k in h.roles.roles
        ensures ValueDecodes(KeptRoles(h.roles.roles, matches)[k])
        ensures CarriesOver(Ids(KeptRoles(h.roles.roles, matches)[k]), Ids(h.roles.roles[k]), matches)
      {
        IdsOfEncoded(Kept(Ids(h.roles.roles[k]), matches));
        KeptCarriesOver(Ids(h.roles.roles[k]), matches);
      }
    }
  }

  ghost predicate HasRole(h: RouteHolds, k: string, x: HoldId) {
    RolesDecode(h.roles) && h.roles.Object? && k in h.roles.roles && x in Ids(h.roles.roles[k])
  }

  lemma CarriedMembers(out: seq<HoldId>, ids: seq<HoldId>, matches: Matches, y: HoldId)
    requires CarriesOver(out, ids, matches)
    ensures y in out <==> exists x :: x in ids && x in matches && matches[x] == y
  {
    var places: seq<nat> :| PicksFrom(out, ids, matches, places);
    if y in out {
      var i :| 0 <= i < |out| && out[i] == y;
      assert ids[places[i]] in ids;
    }
    if x :| x in ids && x in matches && matches[x] == y {
      var p: nat :| p < |ids| && ids[p] == x;
      var i :| 0 <= i < |places| && places[i] == p;
      assert out[i] == y;
    }
  }

  /** A translated list shows a hold, or has it in a role, exactly if it showed, or had in that role, one matched to it. */
  lemma TranslatedHolds(h: RouteHolds, matches: Matches, k: string, y: HoldId)
    requires RolesDecode(h.roles)
    ensures Translated(h, matches).Ok?
    ensures y in Translated(h, matches).value.ids <==> exists x :: x in h.ids && x in matches && matches[x] == y
    ensures HasRole(Translated(h, matches).value, k, y) <==> exists x :: HasRole(h, k, x) && x in matches && matches[x] == y
  {
    TranslationCarriesOver(h, matches);
    hide Translated, CarriesOver, RolesDecode;
    var after := Translated(h, matches).value;
    CarriedMembers(after.ids, h.ids, matches, y);
    if h.roles.Object? && k in h.roles.roles {
      RoleDecodes(h, k);
      RoleDecodes(after, k);
      CarriedMembers(Ids(after.roles.roles[k]), Ids(h.roles.roles[k]), matches, y);
    }
  }

  lemma RoleDecodes(h: RouteHolds, k: string)
    requires RolesDecode(h.roles) && h.roles.Object? && k in h.roles.roles
    ensures ValueDecodes(h.roles.roles[k])
  {
  }

  // ---------------------------------------------------------------- the two methods

  method KeepMatched(ids: seq<HoldId>, matches: Matches) returns (mapped: seq<HoldId>)
    ensures mapped == Kept(ids, matches)
  {
    mapped := [];
    for i := 0 to |ids|
      invariant mapped == Kept(ids[..i], matches)
    {
      assert ids[..i + 1] == ids[..i] + [ids[i]];
      KeptAppend(ids[..i], [ids[i]], matches);
      if ids[i] in matches {
        mapped := mapped + [matches[ids[i]]];
      }
    }
    assert ids[..|ids|] == ids;
  }

  method RemapPartialHolds(ids: seq<HoldId>, roles: RawRoles, matches: Matches) returns (r: Result<RouteHolds, RemapError>)
    ensures r == Translated(RouteHolds(ids, roles), matches)
    ensures r.Ok? <==> RolesDecode(roles)
    ensures r.Ok? ==> HoldsCarryOver(r.value, RouteHolds(ids, roles), matches)
  {
    hide HoldsCarryOver, CarriesOver;
    ghost var whole := RouteHolds(ids, roles);
    if RolesDecode(whole.roles) {
      TranslationCarriesOver(whole, matches);
    }
    var mapped := KeepMatched(ids, matches);
    if roles.Absent? {
      return Ok(RouteHolds(mapped, roles));
    }
    if !RolesDecode(roles) {
      return Err(UndecodableRoles);
    }
    var roleMap := roles.roles;
    var keys := roleMap.Keys;
    while keys != {}
      invariant keys <= roleMap.Keys == roles.roles.Keys
      invariant forall k :: k in keys ==> roleMap[k] == roles.roles[k]
      invariant forall k :: k in roleMap && k !in keys ==> roleMap[k] == Encoded(Kept(Ids(roles.roles[k]), matches))
    {
      var key :| key in keys;
      var mappedRole := KeepMatched(Ids(roleMap[key]), matches);
      roleMap := roleMap[key := Encoded(mappedRole)];
      keys := keys - {key};
    }
    assert roleMap == KeptRoles(roles.roles, matches);
    r := Ok(RouteHolds(mapped, Object(roleMap)));
  }

  /** What the all-or-nothing form reports. */
  datatype Rewrite = Complete(holds: RouteHolds) | Incomplete | BadRoles

  ghost predicate AllRolesMatched(raw: RawRoles, matches: Matches)
    requires RolesDecode(raw)
  {
    raw.Object? ==> forall k :: k in raw.roles ==> AllMatched(Ids(raw.roles[k]), matches)
  }

  /** Replaces each id of one role list in place, or gives up at the first without a match. */
  method RewriteRole(ids: seq<HoldId>, matches: Matches) returns (mapped: seq<HoldId>, complete: bool)
    ensures complete <==> AllMatched(ids, matches)
    ensures complete ==> mapped == Kept(ids, matches)
  {
    mapped := ids;
    for i := 0 to |ids|
      invariant |mapped| == |ids|
      invariant AllMatched(ids[..i], matches)
      invariant mapped[..i] == Kept(ids[..i], matches)
    {
      assert ids[i] in ids;
      if ids[i] !in matches {
        return ids, false;
      }
      assert ids[..i + 1] == ids[..i] + [ids[i]];
      KeptAppend(ids[..i], [ids[i]], matches);
      mapped := mapped[i := matches[ids[i]]];
      assert mapped[..i + 1] == mapped[..i] + [mapped[i]];
    }
    assert ids[..|ids|] == ids && mapped[..|mapped|] == mapped;
    return mapped, true;
  }

  /**
   Rewrites a route only if every hold and every role entry has a match. A missing
   hold is reported before the roles are decoded.
   */
  method RemapRouteHolds(ids: seq<HoldId>, roles: RawRoles, matches: Matches) returns (r: Rewrite)
    ensures r.BadRoles? <==> AllMatched(ids, matches) && !RolesDecode(roles)
    ensures r.Complete? <==> AllMatched(ids, matches) && RolesDecode(roles) && AllRolesMatched(roles, matches)
    ensures r.Complete? ==> Ok(r.holds) == Translated(RouteHolds(ids, roles), matches)
  {
    var mapped, complete := RewriteRole(ids, matches);
    if !complete {
      return Incomplete;
    }
    if roles.Absent? {
      return Complete(RouteHolds(mapped, roles));
    }
    if !RolesDecode(roles) {
      return BadRoles;
    }
    var roleMap := roles.roles;
    var keys := roleMap.Keys;
    while keys != {}
      invariant keys <= roleMap.Keys == roles.roles.Keys
      invariant forall k :: k in keys ==> roleMap[k] == roles.roles[k]
      invariant forall k :: k in roleMap && k !in keys ==>
        && AllMatched(Ids(roles.roles[k]), matches)
        && roleMap[k] == Encoded(Kept(Ids(roles.roles[k]), matches))
    {
      var key :| key in keys;
      var mappedRole, roleComplete := RewriteRole(Ids(roleMap[key]), matches);
      if !roleComplete {
        return Incomplete;
      }
      roleMap := roleMap[key := Encoded(mappedRole)];
      keys := keys - {key};
    }
    assert roleMap == KeptRoles(roles.roles, matches);
    r := Complete(RouteHolds(mapped, Object(roleMap)));
  }

  /** `RemapRouteHolds` as a function of its arguments, for the reset transaction. */
  function Rewritten(h: RouteHolds, matches: Matches): (r: Rewrite)
    ensures r.Complete? ==> Ok(r.holds) == Translated(h, matches)
  {
    if !AllMatched(h.ids, matches) then Incomplete
    else if !RolesDecode(h.roles) then BadRoles
    else if h.roles.Object? && exists k :: k in h.roles.roles && !AllMatched(Ids(h.roles.roles[k]), matches) then Incomplete
    else Complete(Translated(h, matches).value)
  }

  lemma RewriteIsDetermined(h: RouteHolds, matches: Matches, r: Rewrite)
    requires r.BadRoles? <==> AllMatched(h.ids, matches) && !RolesDecode(h.roles)
    requires r.Complete? <==> AllMatched(h.ids, matches) && RolesDecode(h.roles) && AllRolesMatched(h.roles, matches)
    requires r.Complete? ==> Ok(r.holds) == Translated(h, matches)
    ensures r == Rewritten(h, matches)
  {
  }
}
