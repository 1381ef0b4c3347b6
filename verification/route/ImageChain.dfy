/**
 Showing a route on the wall's active image by walking the image ancestry
 (server/internal/route/legacy_remap.go): one route at a time, and a batch with one
 shared walk. The image table may hold parent cycles and references to missing rows.
 */
module ImageChain {
  import opened Wrappers
  import opened HoldRemap

  type ImageId = nat

  /** The rows the walk reads: parents of existing images, and hold matches by image. */
  datatype Tables = Tables(parent: map<ImageId, Option<ImageId>>, matches: map<ImageId, Matches>)

  function ParentOf(t: Tables, image: ImageId): Option<ImageId> {
    if image in t.parent then t.parent[image] else None
  }

  function MatchesInto(t: Tables, image: ImageId): Matches {
    if image in t.matches then t.matches[image] else map[]
  }

  /** The n-th ancestor. */
  function Up(t: Tables, image: ImageId, n: nat): Option<ImageId> {
    if n == 0 then Some(image)
    else match Up(t, image, n - 1)
      case None => None
      case Some(below) => ParentOf(t, below)
  }

  /** `target` is first met `n` steps above `active`. */
  ghost predicate AtDepth(t: Tables, active: ImageId, target: ImageId, n: nat) {
    Up(t, active, n) == Some(target) && forall k: nat :: k < n ==> Up(t, active, k) != Some(target)
  }

  /** Translates holds of the n-th ancestor down to `active`, oldest matches first. */
  function Descend(t: Tables, active: ImageId, n: nat, h: RouteHolds): Result<RouteHolds, RemapError>
    decreases n
  {
    if n == 0 then Ok(h)
    else match Up(t, active, n - 1)
      case None => Ok(h)
      case Some(child) =>
        match Translated(h, MatchesInto(t, child))
        case Err(e) => Err(e)
        case Ok(next) => Descend(t, active, n - 1, next)
  }

  const NOTHING := RouteHolds([], Absent)

  /** What a route saved on `image` shows on `active`: nothing unless `image` is an ancestor. */
  ghost function Shown(t: Tables, active: ImageId, image: ImageId, h: RouteHolds): Result<RouteHolds, RemapError> {
    if n: nat :| AtDepth(t, active, image, n) then Descend(t, active, n, h) else Ok(NOTHING)
  }

  lemma DepthIsUnique(t: Tables, active: ImageId, target: ImageId, m: nat, n: nat)
    requires AtDepth(t, active, target, m) && AtDepth(t, active, target, n)
    ensures m == n
  {
  }

  lemma ShownAtDepth(t: Tables, active: ImageId, image: ImageId, h: RouteHolds, n: nat)
    requires AtDepth(t, active, image, n)
    ensures Shown(t, active, image, h) == Descend(t, active, n, h)
  {
    var m: nat :| AtDepth(t, active, image, m) && Shown(t, active, image, h) == Descend(t, active, m, h);
    DepthIsUnique(t, active, image, m, n);
  }

  /** `path` is the ancestry from `active`, without repeats. */
  ghost predicate IsPath(t: Tables, active: ImageId, path: seq<ImageId>) {
    && (forall i :: 0 <= i < |path| ==> Up(t, active, i) == Some(path[i]))
    && (forall i, j :: 0 <= i < j < |path| ==> path[i] != path[j])
  }

  /** The walk cannot leave `path`: the next parent is absent or already on it. */
  ghost predicate PathEnds(t: Tables, path: seq<ImageId>) {
    && path != []
    && var next := ParentOf(t, path[|path| - 1]);
    next.None? || next.value in path
  }

  lemma {:induction false} NothingBeyondPath(t: Tables, active: ImageId, path: seq<ImageId>, m: nat)
    requires IsPath(t, active, path) && PathEnds(t, path)
    ensures Up(t, active, m).None? || Up(t, active, m).value in path
    decreases m
  {
    if m < |path| {
    } else {
      NothingBeyondPath(t, active, path, m - 1);
      match Up(t, active, m - 1) {
        case None =>
        case Some(below) =>
          var i :| 0 <= i < |path| && path[i] == below;
          if i + 1 < |path| {
            assert Up(t, active, i + 1) == ParentOf(t, below);
          }
      }
    }
  }

  /** Once the walk has ended, exactly the images on its path are reachable. */
  lemma PathDecidesReach(t: Tables, active: ImageId, path: seq<ImageId>, image: ImageId, h: RouteHolds)
    requires IsPath(t, active, path)
    ensures forall i :: 0 <= i < |path| && path[i] == image ==>
      AtDepth(t, active, image, i) && Shown(t, active, image, h) == Descend(t, active, i, h)
    ensures PathEnds(t, path) && image !in path ==> Shown(t, active, image, h) == Ok(NOTHING)
  {
    forall i | 0 <= i < |path| && path[i] == image
      ensures AtDepth(t, active, image, i) && Shown(t, active, image, h) == Descend(t, active, i, h)
    {
      ShownAtDepth(t, active, image, h, i);
    }
    if PathEnds(t, path) && image !in path {
      forall n: nat ensures !AtDepth(t, active, image, n) { NothingBeyondPath(t, active, path, n); }
    }
  }

  lemma ExtendPath(t: Tables, active: ImageId, path: seq<ImageId>, parent: ImageId)
    requires IsPath(t, active, path) && path != []
    requires ParentOf(t, path[|path| - 1]) == Some(parent) && parent !in path
    ensures IsPath(t, active, path + [parent])
  {
    assert Up(t, active, |path| - 1) == Some(path[|path| - 1]);
  }

  // ---------------------------------------------------------------- one route

  method RemapToActive(t: Tables, routeImage: ImageId, active: ImageId, ids: seq<HoldId>, roles: RawRoles)
    returns (r: Result<RouteHolds, RemapError>)
    ensures r == Shown(t, active, routeImage, RouteHolds(ids, roles))
  {
    ghost var h := RouteHolds(ids, roles);
    if routeImage == active {
      PathDecidesReach(t, active, [active], routeImage, h);
      return Ok(RouteHolds(ids, roles));
    }
    var chain: seq<ImageId> := [];
    var seen := {active};
    var current := active;
    while current != routeImage
      invariant IsPath(t, active, chain + [current])
      invariant seen == set x | x in chain + [current]
      invariant routeImage !in chain
      decreases t.parent.Keys - (set x | x in chain)
    {
      ghost var path := chain + [current];
      if current !in t.parent || t.parent[current].None? {
        PathDecidesReach(t, active, path, routeImage, h);
        return Ok(RouteHolds([], Absent));
      }
      var parentID := t.parent[current].value;
      if parentID in seen {
        PathDecidesReach(t, active, path, routeImage, h);
        return Ok(RouteHolds([], Absent));
      }
      ExtendPath(t, active, path, parentID);
      assert current !in chain by {
        forall i | 0 <= i < |chain| ensures chain[i] != current {
          assert path[i] != path[|chain|];
        }
      }
      ghost var left := t.parent.Keys - (set x | x in chain);
      assert t.parent.Keys - (set x | x in chain + [current]) == left - {current} && current in left;
      seen := seen + {parentID};
      chain := chain + [current];
      current := parentID;
    }
    PathDecidesReach(t, active, chain + [current], routeImage, h);
    assert (chain + [current])[|chain|] == routeImage;

    var mapped := RouteHolds(ids, roles);
    for i := |chain| downto 0
      invariant Descend(t, active, i, mapped) == Shown(t, active, routeImage, h)
    {
      assert Up(t, active, i) == Some((chain + [current])[i]);
      var matches := MatchesInto(t, chain[i]);
      var step := RemapPartialHolds(mapped.ids, mapped.roles, matches);
      match step {
        case Err(e) => return Err(e);
        case Ok(next) => mapped := next;
      }
    }
    r := Ok(mapped);
  }

  // ---------------------------------------------------------------- a batch of routes

  type RouteId = nat

  datatype Route = Route(id: RouteId, image: ImageId, holds: RouteHolds)

  /** The shared walk stops as soon as every image asked for has been met. */
  method WalkAncestry(t: Tables, active: ImageId, wanted: set<ImageId>)
    returns (chain: seq<ImageId>, indices: map<ImageId, nat>)
    ensures IsPath(t, active, chain) && chain != [] && chain[0] == active
    ensures indices.Keys == set x | x in chain
    ensures forall i :: 0 <= i < |chain| ==> indices[chain[i]] == i
    ensures PathEnds(t, chain) || forall x :: x in wanted ==> x in chain
  {
    chain := [active];
    indices := map[active := 0];
    var needed := wanted - {active};
    while needed != {}
      invariant IsPath(t, active, chain) && chain != [] && chain[0] == active
      invariant indices.Keys == set x | x in chain
      invariant forall i :: 0 <= i < |chain| ==> indices[chain[i]] == i
      invariant forall x :: x in wanted ==> x in chain || x in needed
      decreases t.parent.Keys - (set i | 0 <= i < |chain| - 1 :: chain[i])
    {
      ghost var visited := set i | 0 <= i < |chain| - 1 :: chain[i];
      var last := chain[|chain| - 1];
      if last !in t.parent || t.parent[last].None? {
        break;
      }
      var parentID := t.parent[last].value;
      if parentID in indices {
        break;
      }
      ExtendPath(t, active, chain, parentID);
      ghost var before := chain;
      indices := indices[parentID := |chain|];
      chain := chain + [parentID];
      needed := needed - {parentID};
      assert last !in visited;
      assert (set i | 0 <= i < |chain| - 1 :: chain[i]) == visited + {last} by {
        assert forall i :: 0 <= i < |before| ==> chain[i] == before[i];
        forall x | x in visited + {last} ensures x in set i | 0 <= i < |chain| - 1 :: chain[i] {
          var i :| 0 <= i < |before| && before[i] == x;
          assert chain[i] == x;
        }
      }
    }
  }

  method DescendOne(t: Tables, active: ImageId, chain: seq<ImageId>, matchesByImage: map<ImageId, Matches>,
                    index: nat, h: RouteHolds)
    returns (r: Result<RouteHolds, RemapError>)
    requires IsPath(t, active, chain) && index < |chain|
    requires forall i :: 0 <= i < |chain| - 1 ==>
      (if chain[i] in matchesByImage then matchesByImage[chain[i]] else map[]) == MatchesInto(t, chain[i])
    ensures r == Descend(t, active, index, h)
  {
    var mapped := h;
    for i := index downto 0
      invariant Descend(t, active, i, mapped) == Descend(t, active, index, h)
    {
      var matches := if chain[i] in matchesByImage then matchesByImage[chain[i]] else map[];
      var step := RemapPartialHolds(mapped.ids, mapped.roles, matches);
      match step {
        case Err(e) => return Err(e);
        case Ok(next) => mapped := next;
      }
    }
    r := Ok(mapped);
  }

  /** One route of the batch: carried down the shared path, or nothing if its photo is not on it. */
  method RemapOne(t: Tables, active: ImageId, chain: seq<ImageId>, indices: map<ImageId, nat>,
                  matchesByImage: map<ImageId, Matches>, image: ImageId, h: RouteHolds)
    returns (r: Result<RouteHolds, RemapError>)
    requires IsPath(t, active, chain) && indices.Keys == set x | x in chain
    requires forall i :: 0 <= i < |chain| ==> indices[chain[i]] == i
    requires PathEnds(t, chain) || image in chain
    requires forall i :: 0 <= i < |chain| - 1 ==>
      (if chain[i] in matchesByImage then matchesByImage[chain[i]] else map[]) == MatchesInto(t, chain[i])
    ensures r == Shown(t, active, image, h)
  {
    PathDecidesReach(t, active, chain, image, h);
    if image !in indices {
      return Ok(RouteHolds([], Absent));
    }
    ghost var i :| 0 <= i < |chain| && chain[i] == image;
    r := DescendOne(t, active, chain, matchesByImage, indices[image], h);
  }

  /**
   The batch gives every route what the single walk gives it alone, and fails only
   if some route fails alone. `None` means no route is off the active image.
   */
  method RemapRoutesToActive(t: Tables, routes: seq<Route>, active: ImageId)
    returns (r: Result<Option<map<RouteId, RouteHolds>>, RemapError>)
    requires forall i, j :: 0 <= i < j < |routes| ==> routes[i].id != routes[j].id
    ensures r == Ok(None) <==> forall route :: route in routes ==> route.image == active
    ensures r.Ok? && r.value.Some? ==>
      && r.value.value.Keys == (set route | route in routes :: route.id)
      && forall route :: route in routes ==> Shown(t, active, route.image, route.holds) == Ok(r.value.value[route.id])
    ensures r.Err? ==> exists route :: route in routes && Shown(t, active, route.image, route.holds) == Err(r.error)
  {
    var needed := set route | route in routes && route.image != active :: route.image;
    if needed == {} {
      assert forall route :: route in routes && route.image != active ==> route.image in needed;
      return Ok(None);
    }
    var chain, indices := WalkAncestry(t, active, needed);
    var matchesByImage := map image | image in chain[..|chain| - 1] && image in t.matches :: t.matches[image];
    assert forall i :: 0 <= i < |chain| - 1 ==> chain[i] in chain[..|chain| - 1];

    hide Shown, IsPath, PathEnds;
    assert active in chain;
    var result: map<RouteId, RouteHolds> := map[];
    for k := 0 to |routes|
      invariant result.Keys == (set route | route in routes[..k] :: route.id)
      invariant forall i :: 0 <= i < k ==>
        routes[i].id in result && Shown(t, active, routes[i].image, routes[i].holds) == Ok(result[routes[i].id])
    {
      var route := routes[k];
      assert route in routes && routes[..k + 1] == routes[..k] + [route];
      forall i | 0 <= i < k ensures routes[i].id != route.id {}
      assert route.image == active || route.image in needed;
      var shown := RemapOne(t, active, chain, indices, matchesByImage, route.image, route.holds);
      match shown {
        case Err(e) => return Err(e);
        case Ok(holds) => result := result[route.id := holds];
      }
    }
    assert routes[..|routes|] == routes;
    r := Ok(Some(result));
  }
}
