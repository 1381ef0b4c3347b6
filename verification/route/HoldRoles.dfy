/**
 Role validation at save time (server/internal/route/hold_roles.go) and why no
 remap can break what it established.
 */
module HoldRoles {
  import opened Wrappers
  import opened HoldRemap

  const ROLE_NAMES: set<string> := {"start", "finish", "foot"}

  ghost predicate NoRepeats(ids: seq<HoldId>) {
    forall i, j :: 0 <= i < j < |ids| ==> ids[i] != ids[j]
  }

  ghost predicate Disjoint(a: seq<HoldId>, b: seq<HoldId>) {
    forall x :: x in a ==> x !in b
  }

  ghost predicate Within(a: seq<HoldId>, b: seq<HoldId>) {
    forall x :: x in a ==> x in b
  }

  /** A list of distinct holds of the route. */
  ghost predicate RoleFits(v: RoleValue, holdIds: seq<HoldId>) {
    v.List? && ValueDecodes(v) && Within(Ids(v), holdIds) && NoRepeats(Ids(v))
  }

  /** Known role names, real lists, holds of the route only, and at most one role per hold. */
  ghost predicate ValidRoles(h: RouteHolds) {
    h.roles.Absent? || (
      && h.roles.Object?
      && var roles := h.roles.roles;
      && roles.Keys <= ROLE_NAMES
      && (forall k :: k in roles ==> RoleFits(roles[k], h.ids))
      && (forall k, l :: k in roles && l in roles && k != l ==> Disjoint(Ids(roles[k]), Ids(roles[l]))))
  }

  datatype RoleError =
    | RolesNotAnObject
    | UnknownRole(role: string)
    | RoleNotAList(role: string)
    | InvalidHoldId(role: string)
    | HoldNotInRoute(role: string)
    | HoldHasTwoRoles(previous: string, role: string)

  /** One role list against the holds of the route and the assignments made so far. */
  method CheckRole(role: string, entries: seq<Option<HoldId>>, validHolds: set<HoldId>, before: map<HoldId, string>,
                   ghost holdIds: seq<HoldId>)
    returns (holder: map<HoldId, string>, error: Option<RoleError>)
    requires validHolds == set id | id in holdIds
    ensures error.None? <==>
      RoleFits(List(entries), holdIds) && forall x :: x in Ids(List(entries)) ==> x !in before
    ensures error.None? ==> holder.Keys == before.Keys + set x | x in Ids(List(entries))
  {
    holder := before;
    ghost var ids: seq<HoldId> := [];
    for i := 0 to |entries|
      invariant |ids| == i && forall j :: 0 <= j < i ==> entries[j] == Some(ids[j])
      invariant NoRepeats(ids)
      invariant forall x :: x in ids ==> x in validHolds && x !in before
      invariant holder.Keys == before.Keys + set x | x in ids
    {
      var entry := entries[i];
      assert entry in entries;
      if entry.None? {
        return before, Some(InvalidHoldId(role));
      }
      var id := entry.value;
      if ValueDecodes(List(entries)) {
        assert Ids(List(entries))[i] == id && id in Ids(List(entries));
        assert forall j :: 0 <= j < i ==> Ids(List(entries))[j] == ids[j];
      }
      if id !in validHolds {
        return before, Some(HoldNotInRoute(role));
      }
      if id in holder {
        return before, Some(HoldHasTwoRoles(holder[id], role));
      }
      holder := holder[id := role];
      ids := ids + [id];
    }
    assert Ids(List(entries)) == ids;
    return holder, None;
  }

  /** Accepts exactly the valid roles; the iteration order over the role names is arbitrary. */
  method ValidateHoldRoles(raw: RawRoles, holdIds: seq<HoldId>) returns (error: Option<RoleError>)
    ensures error.None? <==> ValidRoles(RouteHolds(holdIds, raw))
  {
    if raw.Absent? {
      return None;
    }
    if raw.NotAnObject? {
      return Some(RolesNotAnObject);
    }
    hide Within, NoRepeats, Ids, ValueDecodes;
    var roles := raw.roles;
    var validHolds := set id | id in holdIds;
    var holder: map<HoldId, string> := map[];
    var keys := roles.Keys;
    ghost var done: set<string> := {};
    while keys != {}
      invariant keys + done == roles.Keys && keys !! done
      invariant done <= ROLE_NAMES
      invariant forall k :: k in done ==>
        RoleFits(roles[k], holdIds) && forall x :: x in Ids(roles[k]) ==> x in holder
      invariant forall k, l :: k in done && l in done && k != l ==> Disjoint(Ids(roles[k]), Ids(roles[l]))
      invariant forall x :: x in holder ==> exists k :: k in done && x in Ids(roles[k])
    {
      var role :| role in keys;
      if role !in ROLE_NAMES {
        return Some(UnknownRole(role));
      }
      if !roles[role].List? {
        return Some(RoleNotAList(role));
      }
      var next, problem := CheckRole(role, roles[role].entries, validHolds, holder, holdIds);
      if problem.Some? {
        return problem;
      }
      holder := next;
      keys, done := keys - {role}, done + {role};
    }
    return None;
  }

  // ---------------------------------------------------------------- kept by every remap

  ghost predicate Injective(matches: Matches) {
    forall x, y :: x in matches && y in matches && x != y ==> matches[x] != matches[y]
  }

  lemma {:induction false} KeptHasNoRepeats(ids: seq<HoldId>, matches: Matches)
    requires Injective(matches) && NoRepeats(ids)
    ensures NoRepeats(Kept(ids, matches))
  {
    if ids != [] {
      KeptHasNoRepeats(ids[1..], matches);
      if ids[0] in matches {
        var rest := Kept(ids[1..], matches);
        forall j | 0 <= j < |rest| ensures rest[j] != matches[ids[0]] {
          assert rest[j] in rest;
          KeptMembers(ids[1..], matches, rest[j]);
        }
      }
    }
  }

  lemma KeptStaysWithin(a: seq<HoldId>, b: seq<HoldId>, matches: Matches)
    requires Within(a, b)
    ensures Within(Kept(a, matches), Kept(b, matches))
  {
    forall y | y in Kept(a, matches) ensures y in Kept(b, matches) {
      KeptMembers(a, matches, y);
      KeptMembers(b, matches, y);
    }
  }

  lemma KeptStaysDisjoint(a: seq<HoldId>, b: seq<HoldId>, matches: Matches)
    requires Injective(matches) && Disjoint(a, b)
    ensures Disjoint(Kept(a, matches), Kept(b, matches))
  {
    forall y | y in Kept(a, matches) ensures y !in Kept(b, matches) {
      KeptMembers(a, matches, y);
      KeptMembers(b, matches, y);
    }
  }

  lemma ValidRolesDecode(h: RouteHolds)
    requires ValidRoles(h)
    ensures RolesDecode(h.roles)
  {
  }

  /** Roles valid for a route stay valid through injective matches, however many holds are dropped. */
  lemma TranslationKeepsRolesValid(h: RouteHolds, matches: Matches)
    requires ValidRoles(h) && Injective(matches)
    ensures Translated(h, matches).Ok? && ValidRoles(Translated(h, matches).value)
  {
    if h.roles.Object? {
      var roles := h.roles.roles;
      var kept := KeptRoles(roles, matches);
      forall k | k in roles
        ensures ValueDecodes(kept[k]) && Ids(kept[k]) == Kept(Ids(roles[k]), matches)
        ensures RoleFits(kept[k], Kept(h.ids, matches))
      {
        IdsOfEncoded(Kept(Ids(roles[k]), matches));
        KeptStaysWithin(Ids(roles[k]), h.ids, matches);
        KeptHasNoRepeats(Ids(roles[k]), matches);
      }
      forall k, l | k in roles && l in roles && k != l ensures Disjoint(Ids(kept[k]), Ids(kept[l])) {
        KeptStaysDisjoint(Ids(roles[k]), Ids(roles[l]), matches);
      }
    }
  }

  /** Without injectivity the property is lost: two holds merged into one can hold two roles. */
  lemma MergingHoldsBreaksRoles(a: HoldId, b: HoldId, c: HoldId)
    requires a != b
    ensures
      var h := RouteHolds([a, b], Object(map["start" := Encoded([a]), "finish" := Encoded([b])]));
      var matches: Matches := map[a := c, b := c];
      && ValidRoles(h)
      && Translated(h, matches).Ok? && !ValidRoles(Translated(h, matches).value)
  {
    var h := RouteHolds([a, b], Object(map["start" := Encoded([a]), "finish" := Encoded([b])]));
    var matches: Matches := map[a := c, b := c];
    assert "start" != "finish" by { assert |"start"| == 5 && |"finish"| == 6; }
    IdsOfEncoded([a]);
    IdsOfEncoded([b]);
    IdsOfEncoded([c]);
    assert ValidRoles(h);
    var kept := KeptRoles(h.roles.roles, matches);
    assert Kept([a], matches) == [c] && Kept([b], matches) == [c];
    assert kept["start"] == Encoded([c]) && kept["finish"] == Encoded([c]);
    assert c in Ids(kept["start"]) && c in Ids(kept["finish"]);
  }

  /** A valid route with every hold matched has every role entry matched too. */
  lemma CompleteHoldsMeanCompleteRoles(h: RouteHolds, matches: Matches)
    requires ValidRoles(h)
    ensures Rewritten(h, matches).Complete? <==> AllMatched(h.ids, matches)
    ensures !Rewritten(h, matches).BadRoles?
  {
    ValidRolesDecode(h);
  }
}
